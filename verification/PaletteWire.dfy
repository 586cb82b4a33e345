// What the daemon sends about colours and contrast, and what the app accepts.
module PaletteWire {
  import opened PaletteSetting
  import opened PaletteTransaction
  import opened Strings
  import opened Wrappers

  datatype Field = Field(name: string, index: nat, low: int, high: int)

  const RGB_MAX := 0xff_ffff

  const PALETTE: seq<Field> := [
    Field("mode", 82, 0, 2),
    Field("seed", 83, -1, RGB_MAX),
    Field("style", 84, -1, 6),
    Field("primary", 85, 0, RGB_MAX),
    Field("secondary", 86, 0, RGB_MAX),
    Field("tertiary", 87, 0, RGB_MAX),
    Field("neutral", 88, 0, RGB_MAX),
    Field("neutral_variant", 89, 0, RGB_MAX),
    Field("sdk", 90, 31, I32_MAX),
    Field("user", 91, 0, I32_MAX),
    Field("outcome", 92, 0, 2),
    Field("supported", 95, 0, 1)]

  const CONTRAST: seq<Field> := [
    Field("supported", 97, 0, 1),
    Field("level", 98, -1000, 1000),
    Field("light_container", 99, 0, RGB_MAX),
    Field("light_on_container", 100, 0, RGB_MAX),
    Field("dark_container", 101, 0, RGB_MAX),
    Field("dark_on_container", 102, 0, RGB_MAX)]

  type Named = (string, int)

  // ---------- the daemon's side ----------

  function Assigned(p: Named): string {
    p.0 + "=" + Decimal(p.1)
  }

  function Encode(ps: seq<Named>): string
    requires ps != []
  {
    if |ps| == 1 then Assigned(ps[0]) else Assigned(ps[0]) + ";" + Encode(ps[1..])
  }

  function PaletteFields(s: PaletteState): seq<Named> {
    [("supported", if s.env.supported then 1 else 0),
     ("mode", s.mode),
     ("seed", s.seed),
     ("style", s.style),
     ("primary", s.colors.primary),
     ("secondary", s.colors.secondary),
     ("tertiary", s.colors.tertiary),
     ("neutral", s.colors.neutral),
     ("neutral_variant", s.colors.neutralVariant),
     ("sdk", s.env.sdk),
     ("user", s.env.user),
     ("outcome", s.outcome)]
  }

  datatype ContrastState = ContrastState(supported: bool, level: int, light: nat, lightOn: nat, dark: nat, darkOn: nat)

  function ContrastFields(s: ContrastState): seq<Named> {
    [("supported", if s.supported then 1 else 0),
     ("level", s.level),
     ("light_container", s.light),
     ("light_on_container", s.lightOn),
     ("dark_container", s.dark),
     ("dark_on_container", s.darkOn)]
  }

  // ---------- the app's side ----------

  /** Collects `key=value` pieces, ignoring pieces without `=`; a repeated key is an error. */
  function Collect(pieces: seq<string>, m: map<string, string>): Option<map<string, string>> {
    if pieces == [] then Some(m)
    else
      match SplitOnce(pieces[0], '=')
      case None => Collect(pieces[1..], m)
      case Some((key, value)) => if key in m then None else Collect(pieces[1..], m[key := value])
  }

  function Number(m: map<string, string>, name: string): Option<int> {
    if name in m then ParseI32(m[name]) else None
  }

  /** Every field of the schema, in its order, if each is present and in range. */
  function Pick(schema: seq<Field>, m: map<string, string>): Option<seq<(nat, int)>> {
    if schema == [] then Some([])
    else
      var f := schema[0];
      var v := Number(m, f.name);
      if v.None? || !(f.low <= v.value <= f.high) then None
      else
        match Pick(schema[1..], m)
        case None => None
        case Some(rest) => Some([(f.index, v.value)] + rest)
  }

  function ParseResponse(schema: seq<Field>, body: string): Option<seq<(nat, int)>> {
    match Collect(Split(body, ';'), map[])
    case None => None
    case Some(m) => Pick(schema, m)
  }

  method ParseFields(schema: seq<Field>, body: string) returns (r: Option<seq<(nat, int)>>)
    ensures r == ParseResponse(schema, body)
  {
    var pieces := Split(body, ';');
    var m: map<string, string> := map[];
    for i := 0 to |pieces|
      invariant Collect(pieces, map[]) == Collect(pieces[i..], m)
    {
      assert pieces[i..][0] == pieces[i] && pieces[i..][1..] == pieces[i + 1..];
      var pair := SplitOnce(pieces[i], '=');
      if pair.Some? {
        if pair.value.0 in m {
          return None;
        }
        m := m[pair.value.0 := pair.value.1];
      }
    }
    var values: seq<(nat, int)> := [];
    PrependNothing(Pick(schema, m));
    for i := 0 to |schema|
      invariant Pick(schema, m) == Prepend(values, Pick(schema[i..], m))
    {
      hide Number;
      assert schema[i..][0] == schema[i] && schema[i..][1..] == schema[i + 1..];
      var v := Number(m, schema[i].name);
      if v.None? || !(schema[i].low <= v.value <= schema[i].high) {
        return None;
      }
      PrependMore(values, (schema[i].index, v.value), Pick(schema[i + 1..], m));
      values := values + [(schema[i].index, v.value)];
    }
    assert Pick(schema[|schema|..], m) == Some([]) && values + [] == values;
    r := Some(values);
  }

  function Prepend(values: seq<(nat, int)>, rest: Option<seq<(nat, int)>>): Option<seq<(nat, int)>> {
    match rest
    case None => None
    case Some(more) => Some(values + more)
  }

  lemma PrependNothing(rest: Option<seq<(nat, int)>>)
    ensures Prepend([], rest) == rest
  {
    if rest.Some? {
      assert [] + rest.value == rest.value;
    }
  }

  lemma PrependMore(values: seq<(nat, int)>, v: (nat, int), rest: Option<seq<(nat, int)>>)
    ensures Prepend(values, Prepend([v], rest)) == Prepend(values + [v], rest)
  {
    if rest.Some? {
      assert values + ([v] + rest.value) == values + [v] + rest.value;
    }
  }

  // ---------- both sides together ----------

  predicate PlainName(s: string) {
    ';' !in s && '=' !in s
  }

  ghost predicate Sendable(ps: seq<Named>) {
    && (forall i :: 0 <= i < |ps| ==> PlainName(ps[i].0) && IsI32(ps[i].1))
    && (forall i, j :: 0 <= i < j < |ps| ==> ps[i].0 != ps[j].0)
  }

  function Pieces(ps: seq<Named>): seq<string> {
    if ps == [] then [] else [Assigned(ps[0])] + Pieces(ps[1..])
  }

  lemma AssignedIs(p: Named)
    requires PlainName(p.0) && IsI32(p.1)
    ensures SplitOnce(Assigned(p), '=') == Some((p.0, Decimal(p.1)))
    ensures ';' !in Assigned(p)
  {
    hide Decimal;
    DecimalRoundTrip(p.1);
    assert p.0 + "=" + Decimal(p.1) == p.0 + ['='] + Decimal(p.1);
    SplitOnceAt(p.0, '=', Decimal(p.1));
  }

  lemma {:induction false} EncodeSplits(ps: seq<Named>)
    requires ps != [] && Sendable(ps)
    ensures Split(Encode(ps), ';') == Pieces(ps)
    decreases |ps|
  {
    hide Assigned, Split;
    AssignedIs(ps[0]);
    if |ps| == 1 {
      SplitNone(Assigned(ps[0]), ';');
      assert Pieces(ps[1..]) == [];
    } else {
      EncodeSplits(ps[1..]);
      assert Assigned(ps[0]) + ";" + Encode(ps[1..]) == Assigned(ps[0]) + [';'] + Encode(ps[1..]);
      SplitAfter(Assigned(ps[0]), ';', Encode(ps[1..]));
    }
  }

  /** The collected map holds exactly what was sent. */
  ghost predicate HoldsAll(m: map<string, string>, ps: seq<Named>) {
    forall i :: 0 <= i < |ps| ==> ps[i].0 in m && m[ps[i].0] == Decimal(ps[i].1)
  }

  lemma HoldsNothing(ps: seq<Named>)
    ensures HoldsAll(map[], ps[..0])
  {
  }

  lemma {:induction false} PiecesCollect(ps: seq<Named>, n: nat, m: map<string, string>)
    requires n <= |ps| && Sendable(ps)
    requires m.Keys == (set i | 0 <= i < n :: ps[i].0) && HoldsAll(m, ps[..n])
    ensures var r := Collect(Pieces(ps[n..]), m);
      r.Some? && HoldsAll(r.value, ps)
    decreases |ps| - n
  {
    hide Assigned, Decimal;
    if n < |ps| {
      AssignedIs(ps[n]);
      var more := m[ps[n].0 := Decimal(ps[n].1)];
      assert ps[n] == ps[n..][0] && ps[n..][1..] == ps[n + 1..];
      assert ps[n].0 !in m;
      assert ps[..n + 1] == ps[..n] + [ps[n]];
      PiecesCollect(ps, n + 1, more);
    } else {
      assert ps[..n] == ps && ps[n..] == [];
    }
  }

  /** The value sent under a name. */
  function Sent(ps: seq<Named>, name: string): Option<int> {
    if ps == [] then None else if ps[0].0 == name then Some(ps[0].1) else Sent(ps[1..], name)
  }

  /** What the schema asks of what was sent. */
  function Wanted(schema: seq<Field>, ps: seq<Named>): Option<seq<(nat, int)>> {
    if schema == [] then Some([])
    else
      var v := Sent(ps, schema[0].name);
      if v.None? || !(schema[0].low <= v.value <= schema[0].high) then None
      else
        match Wanted(schema[1..], ps)
        case None => None
        case Some(rest) => Some([(schema[0].index, v.value)] + rest)
  }

  lemma {:induction false} SentIsHeld(ps: seq<Named>, m: map<string, string>, name: string)
    requires HoldsAll(m, ps) && Sent(ps, name).Some?
    requires forall i :: 0 <= i < |ps| ==> IsI32(ps[i].1)
    ensures Number(m, name) == Sent(ps, name)
  {
    hide Decimal, ParseI32;
    if ps[0].0 == name {
      DecimalRoundTrip(ps[0].1);
    } else {
      SentIsHeld(ps[1..], m, name);
    }
  }

  ghost predicate AllSent(schema: seq<Field>, ps: seq<Named>) {
    forall i :: 0 <= i < |schema| ==> Sent(ps, schema[i].name).Some?
  }

  lemma {:induction false} PickIsWanted(schema: seq<Field>, ps: seq<Named>, m: map<string, string>)
    requires HoldsAll(m, ps) && Sendable(ps) && AllSent(schema, ps)
    ensures Pick(schema, m) == Wanted(schema, ps)
  {
    if schema != [] {
      SentIsHeld(ps, m, schema[0].name);
      PickIsWanted(schema[1..], ps, m);
    }
    hide Number, Sent;
  }

  /** Whatever order the fields are sent in, the app reads exactly the values that were sent. */
  lemma ResponseRoundTrip(schema: seq<Field>, ps: seq<Named>)
    requires ps != [] && Sendable(ps) && AllSent(schema, ps)
    ensures ParseResponse(schema, Encode(ps)) == Wanted(schema, ps)
  {
    hide Encode, Pieces, Collect, Pick, Wanted, Sent, HoldsAll;
    EncodeSplits(ps);
    assert ps[0..] == ps;
    HoldsNothing(ps);
    PiecesCollect(ps, 0, map[]);
    var r := Collect(Pieces(ps), map[]);
    PickIsWanted(schema, ps, r.value);
  }

  predicate PaletteInRange(s: PaletteState) {
    && 0 <= s.mode <= 2 && -1 <= s.seed <= RGB_MAX && -1 <= s.style <= 6
    && s.colors.primary <= RGB_MAX && s.colors.secondary <= RGB_MAX && s.colors.tertiary <= RGB_MAX
    && s.colors.neutral <= RGB_MAX && s.colors.neutralVariant <= RGB_MAX
    && s.env.sdk >= 31 && s.env.user >= 0 && 0 <= s.outcome <= 2
  }

  ghost predicate PaletteFits(s: PaletteState) {
    && IsI32(s.mode) && IsI32(s.seed) && IsI32(s.style)
    && IsI32(s.colors.primary) && IsI32(s.colors.secondary) && IsI32(s.colors.tertiary)
    && IsI32(s.colors.neutral) && IsI32(s.colors.neutralVariant)
    && IsI32(s.env.sdk) && IsI32(s.env.user) && IsI32(s.outcome)
  }

  lemma PaletteIsSendable(s: PaletteState)
    requires PaletteFits(s)
    ensures Sendable(PaletteFields(s))
  {
  }

  /** The fields of a palette, in the app's order. */
  function PaletteValues(s: PaletteState): seq<(nat, int)> {
    [(82, s.mode), (83, s.seed), (84, s.style), (85, s.colors.primary), (86, s.colors.secondary),
     (87, s.colors.tertiary), (88, s.colors.neutral), (89, s.colors.neutralVariant), (90, s.env.sdk),
     (91, s.env.user), (92, s.outcome), (95, if s.env.supported then 1 else 0)]
  }

  lemma {:induction false} SentAt(ps: seq<Named>, i: nat)
    requires Sendable(ps) && i < |ps|
    ensures Sent(ps, ps[i].0) == Some(ps[i].1)
  {
    if i > 0 {
      assert ps[0].0 != ps[i].0;
      SentAt(ps[1..], i - 1);
    }
  }

  /** Field `i` of the schema was sent as `values[i]`. */
  ghost predicate Aligned(schema: seq<Field>, ps: seq<Named>, values: seq<(nat, int)>) {
    && |values| == |schema|
    && (forall i :: 0 <= i < |schema| ==> values[i].0 == schema[i].index && Sent(ps, schema[i].name) == Some(values[i].1))
  }

  ghost predicate InRange(schema: seq<Field>, values: seq<(nat, int)>)
    requires |values| == |schema|
  {
    forall i :: 0 <= i < |schema| ==> schema[i].low <= values[i].1 <= schema[i].high
  }

  lemma {:induction false} WantedIs(schema: seq<Field>, ps: seq<Named>, values: seq<(nat, int)>)
    requires Aligned(schema, ps, values)
    ensures AllSent(schema, ps)
    ensures Wanted(schema, ps) == if InRange(schema, values) then Some(values) else None
  {
    hide Sent;
    if schema != [] {
      WantedIs(schema[1..], ps, values[1..]);
      assert schema[0].low <= values[0].1 <= schema[0].high && InRange(schema[1..], values[1..]) ==> InRange(schema, values);
      assert [values[0]] + values[1..] == values;
    }
  }

  lemma PaletteAligned(s: PaletteState)
    requires PaletteFits(s)
    ensures Aligned(PALETTE, PaletteFields(s), PaletteValues(s))
  {
    hide Sent, Sendable;
    PaletteIsSendable(s);
    var ps := PaletteFields(s);
    forall i | 0 <= i < 12
      ensures Sent(ps, PALETTE[i].name) == Some(PaletteValues(s)[i].1)
    {
      SentAt(ps, (i + 1) % 12);
    }
  }

  /**
   * Every palette the daemon can encode is accepted by the app exactly when each field is in the
   * range the app asks for, and is then read back field by field.
   */
  lemma PaletteRoundTrip(s: PaletteState)
    requires PaletteFits(s)
    ensures ParseResponse(PALETTE, Encode(PaletteFields(s))) ==
      if PaletteInRange(s) then Some(PaletteValues(s)) else None
  {
    hide ParseResponse, Encode, Wanted;
    PaletteIsSendable(s);
    PaletteAligned(s);
    WantedIs(PALETTE, PaletteFields(s), PaletteValues(s));
    ResponseRoundTrip(PALETTE, PaletteFields(s));
    RangesAgree(s);
    hide PaletteFields, PaletteValues, PaletteInRange, InRange, PaletteFits;
  }

  lemma RangesAgree(s: PaletteState)
    requires PaletteFits(s)
    ensures InRange(PALETTE, PaletteValues(s)) == PaletteInRange(s)
  {
    var v := PaletteValues(s);
    if InRange(PALETTE, v) {
      assert PALETTE[0].low <= v[0].1 <= PALETTE[0].high && PALETTE[1].low <= v[1].1 <= PALETTE[1].high;
      assert PALETTE[2].low <= v[2].1 <= PALETTE[2].high && PALETTE[3].low <= v[3].1 <= PALETTE[3].high;
      assert PALETTE[4].low <= v[4].1 <= PALETTE[4].high && PALETTE[5].low <= v[5].1 <= PALETTE[5].high;
      assert PALETTE[6].low <= v[6].1 <= PALETTE[6].high && PALETTE[7].low <= v[7].1 <= PALETTE[7].high;
      assert PALETTE[8].low <= v[8].1 <= PALETTE[8].high && PALETTE[9].low <= v[9].1 <= PALETTE[9].high;
      assert PALETTE[10].low <= v[10].1 <= PALETTE[10].high;
    }
  }

  lemma {:induction false} PositionBound(s: string, names: seq<string>)
    ensures -1 <= Position(s, names) < |names|
  {
    if names != [] {
      PositionBound(s, names[1..]);
    }
  }

  /** Whatever the daemon describes on a supported Android version is in range, so the app shows it as it is. */
  lemma DescribedIsAccepted(env: Environment, m: Setting, c: Colors, outcome: nat)
    requires 31 <= env.sdk <= I32_MAX && 0 <= env.user <= I32_MAX && outcome <= 2
    requires c.primary <= RGB_MAX && c.secondary <= RGB_MAX && c.tertiary <= RGB_MAX && c.neutral <= RGB_MAX && c.neutralVariant <= RGB_MAX
    ensures var s := Describe(env, m, c, outcome);
      ParseResponse(PALETTE, Encode(PaletteFields(s))) == Some(PaletteValues(s))
  {
    hide ParseResponse, Encode, PaletteFields, PaletteValues;
    var style := TextOf(m, Style);
    if style.Some? {
      PositionBound(style.value, STYLES);
    }
    var s := Describe(env, m, c, outcome);
    assert PaletteInRange(s);
    PaletteRoundTrip(s);
  }

  lemma ContrastIsSendable(s: ContrastState)
    requires IsI32(s.level) && IsI32(s.light) && IsI32(s.lightOn) && IsI32(s.dark) && IsI32(s.darkOn)
    ensures Sendable(ContrastFields(s))
  {
  }

  function ContrastValues(s: ContrastState): seq<(nat, int)> {
    [(97, if s.supported then 1 else 0), (98, s.level), (99, s.light), (100, s.lightOn), (101, s.dark), (102, s.darkOn)]
  }

  /** The same for contrast. */
  lemma ContrastRoundTrip(s: ContrastState)
    requires IsI32(s.level) && IsI32(s.light) && IsI32(s.lightOn) && IsI32(s.dark) && IsI32(s.darkOn)
    ensures ParseResponse(CONTRAST, Encode(ContrastFields(s))) ==
      if -1000 <= s.level <= 1000 && s.light <= RGB_MAX && s.lightOn <= RGB_MAX && s.dark <= RGB_MAX && s.darkOn <= RGB_MAX
      then Some(ContrastValues(s)) else None
  {
    hide ParseResponse, Encode, Wanted, Sent, Sendable;
    var ps, v := ContrastFields(s), ContrastValues(s);
    ContrastIsSendable(s);
    forall i | 0 <= i < 6
      ensures Sent(ps, CONTRAST[i].name) == Some(v[i].1)
    {
      SentAt(ps, i);
    }
    WantedIs(CONTRAST, ps, v);
    ResponseRoundTrip(CONTRAST, ps);
    if InRange(CONTRAST, v) {
      assert CONTRAST[1].low <= v[1].1 <= CONTRAST[1].high && CONTRAST[2].low <= v[2].1 <= CONTRAST[2].high;
      assert CONTRAST[3].low <= v[3].1 <= CONTRAST[3].high && CONTRAST[4].low <= v[4].1 <= CONTRAST[4].high;
      assert CONTRAST[5].low <= v[5].1 <= CONTRAST[5].high;
    }
  }

  // ---------- which responses are accepted ----------

  function KeyOf(piece: string): Option<string> {
    match SplitOnce(piece, '=') case None => None case Some((key, _)) => Some(key)
  }

  function ValueOf(piece: string): string {
    match SplitOnce(piece, '=') case None => "" case Some((_, value)) => value
  }

  /** No two pieces have the same key; pieces without one do not count. */
  predicate Unrepeated(pieces: seq<string>) {
    forall i, j :: 0 <= i < j < |pieces| && KeyOf(pieces[i]).Some? ==> KeyOf(pieces[i]) != KeyOf(pieces[j])
  }

  predicate Absent(pieces: seq<string>, m: map<string, string>) {
    forall p :: p in pieces && KeyOf(p).Some? ==> KeyOf(p).value !in m
  }

  lemma UnrepeatedRest(pieces: seq<string>)
    requires pieces != []
    ensures Unrepeated(pieces) <==>
      Unrepeated(pieces[1..]) && (KeyOf(pieces[0]).Some? ==> forall p :: p in pieces[1..] ==> KeyOf(p) != KeyOf(pieces[0]))
  {
    hide KeyOf;
    var rest := pieces[1..];
    if Unrepeated(rest) && (KeyOf(pieces[0]).Some? ==> forall p :: p in rest ==> KeyOf(p) != KeyOf(pieces[0])) {
      forall i, j | 0 <= i < j < |pieces| && KeyOf(pieces[i]).Some? ensures KeyOf(pieces[i]) != KeyOf(pieces[j]) {
        assert pieces[j] == rest[j - 1] && rest[j - 1] in rest;
        if i > 0 { assert pieces[i] == rest[i - 1]; }
      }
    }
    if Unrepeated(pieces) {
      forall p | p in rest && KeyOf(pieces[0]).Some? ensures KeyOf(p) != KeyOf(pieces[0]) {
        var j :| 0 <= j < |rest| && rest[j] == p;
        assert pieces[j + 1] == p;
      }
      forall i, j | 0 <= i < j < |rest| && KeyOf(rest[i]).Some? ensures KeyOf(rest[i]) != KeyOf(rest[j]) {
        assert pieces[i + 1] == rest[i] && pieces[j + 1] == rest[j];
      }
    }
  }

  /** Collecting succeeds exactly without a repeated key, and then holds each piece's value under its key. */
  lemma {:induction false} CollectExactly(pieces: seq<string>, m: map<string, string>)
    ensures Collect(pieces, m).Some? <==> Unrepeated(pieces) && Absent(pieces, m)
    ensures Collect(pieces, m).Some? ==>
      var n := Collect(pieces, m).value;
      && (forall p :: p in pieces && KeyOf(p).Some? ==> KeyOf(p).value in n && n[KeyOf(p).value] == ValueOf(p))
      && (forall k :: k in n ==> k in m || exists p :: p in pieces && KeyOf(p) == Some(k))
      && (forall k :: k in m ==> k in n && n[k] == m[k])
  {
    if pieces != [] {
      UnrepeatedRest(pieces);
      var first, rest := pieces[0], pieces[1..];
      assert pieces == [first] + rest;
      if KeyOf(first).None? {
        CollectExactly(rest, m);
      } else if KeyOf(first).value !in m {
        CollectExactly(rest, m[KeyOf(first).value := ValueOf(first)]);
      }
      hide SplitOnce, Unrepeated;
    }
  }

  /** A piece gives field `f` a number in its range. */
  predicate Gives(piece: string, f: Field) {
    KeyOf(piece) == Some(f.name) && ParseI32(ValueOf(piece)).Some? && f.low <= ParseI32(ValueOf(piece)).value <= f.high
  }

  lemma {:induction false} PickExactly(schema: seq<Field>, m: map<string, string>)
    ensures Pick(schema, m).Some? <==>
      forall f :: f in schema ==> f.name in m && ParseI32(m[f.name]).Some? && f.low <= ParseI32(m[f.name]).value <= f.high
  {
    hide ParseI32;
    if schema != [] {
      PickExactly(schema[1..], m);
      assert schema == [schema[0]] + schema[1..];
    }
  }

  /** A response is accepted exactly when no key is repeated and every field of the schema is given a number in its range. */
  lemma ResponseExactly(schema: seq<Field>, body: string)
    ensures ParseResponse(schema, body).Some? <==>
      var pieces := Split(body, ';');
      Unrepeated(pieces) && forall f :: f in schema ==> exists p :: p in pieces && Gives(p, f)
  {
    var pieces := Split(body, ';');
    CollectExactly(pieces, map[]);
    hide ParseI32, KeyOf, ValueOf, Unrepeated, Collect, Split;
    if Unrepeated(pieces) {
      var m := Collect(pieces, map[]).value;
      PickExactly(schema, m);
      forall f | f in schema
        ensures (f.name in m && ParseI32(m[f.name]).Some? && f.low <= ParseI32(m[f.name]).value <= f.high)
          <==> exists p :: p in pieces && Gives(p, f)
      {
        if f.name in m {
          var p :| p in pieces && KeyOf(p) == Some(f.name);
          assert m[f.name] == ValueOf(p);
        }
      }
    }
  }
}

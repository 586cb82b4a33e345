// The saved preferences as text: reading any file, and the normal form that reading produces.
module StateFile {
  import Bypass
  import opened Strings
  import Thermal
  import opened Wrappers

  datatype Kind = Any | Charging | Flag | Threshold | Touch | Colour | Temperature | Toggle | Manual | Mask | ThermalMode | Words

  datatype Value = Number(number: int) | Text(text: string)

  /** One setting: its key, how its values are read, and what it is before the file says otherwise. */
  datatype Field = Field(name: string, kind: Kind, initial: Value)

  // ---------- values ----------

  predicate ValidCharging(v: int) {
    v == 0 || v == 25 || v == 33 || v == 65 || v == 85 || v == 90
  }

  /** The number with its lowest bit set. */
  function WithFirst(v: int): int {
    if v % 2 == 0 then v + 1 else v
  }

  /** What a line's number makes of a field. */
  function Accept(kind: Kind, was: int, v: int): int {
    match kind
    case Flag => if v == 1 then 1 else 0
    case Threshold => if Bypass.ValidThreshold(v) then v else was
    case Manual => if v == -1 then -1 else if v == 1 then 1 else 0
    case Mask => WithFirst(v) % 0x100
    case ThermalMode => if Thermal.ValidMode(v) then v else -1
    case _ => v
  }

  /** What is left of a field once the whole file has been read. */
  function Settle(kind: Kind, v: int): int {
    match kind
    case Charging => if v == -1 then -1 else if v == 8 then 90 else if ValidCharging(v) then v else 0
    case Touch => if 1 <= v <= 3 then v else -1
    case Colour => if -1 <= v <= 2 then v else -1
    case Temperature => if v == -1 || 1 <= v <= 3 then v else -1
    case Toggle => if -1 <= v <= 1 then v else -1
    case _ => v
  }

  function Read(f: Field, was: Value, raw: string): Value {
    if f.kind.Words? then Text(raw)
    else
      match ParseI32(raw)
      case None => was
      case Some(v) => Number(Accept(f.kind, if was.Number? then was.number else 0, v))
  }

  function SettleValue(f: Field, v: Value): Value {
    if v.Number? then Number(Settle(f.kind, v.number)) else v
  }

  function Shown(f: Field, v: Value): string {
    match v
    case Text(t) => t
    case Number(n) => Decimal(if f.kind.Mask? then WithFirst(n) else n)
  }

  // ---------- files ----------

  function Lookup(fields: seq<Field>, name: string): Option<nat> {
    if fields == [] then None
    else if fields[0].name == name then Some(0)
    else
      match Lookup(fields[1..], name)
      case None => None
      case Some(i) => Some(i + 1)
  }

  lemma {:induction false} LookupIs(fields: seq<Field>, name: string)
    ensures var r := Lookup(fields, name); r.Some? ==> r.value < |fields| && fields[r.value].name == name
  {
    if fields != [] {
      LookupIs(fields[1..], name);
    }
  }

  type State = seq<Value>

  /** Reads one line; comments, lines without `=` and unknown keys change nothing. */
  function ApplyLine(fields: seq<Field>, s: State, line: string): (n: State)
    requires |s| == |fields|
    ensures |n| == |s|
  {
    var t := Trim(line);
    if t == [] || t[0] == '#' then s
    else
      match SplitOnce(t, '=')
      case None => s
      case Some((key, value)) =>
        LookupIs(fields, Trim(key));
        match Lookup(fields, Trim(key))
        case None => s
        case Some(i) => s[i := Read(fields[i], s[i], Trim(value))]
  }

  function ApplyLines(fields: seq<Field>, s: State, lines: seq<string>): (n: State)
    requires |s| == |fields|
    ensures |n| == |s|
    decreases |lines|
  {
    if lines == [] then s else ApplyLines(fields, ApplyLine(fields, s, lines[0]), lines[1..])
  }

  function Initial(fields: seq<Field>): State {
    seq(|fields|, i requires 0 <= i < |fields| => fields[i].initial)
  }

  function SettleAll(fields: seq<Field>, s: State): State
    requires |s| == |fields|
  {
    seq(|fields|, i requires 0 <= i < |fields| => SettleValue(fields[i], s[i]))
  }

  function Parse(fields: seq<Field>, text: string): State {
    SettleAll(fields, ApplyLines(fields, Initial(fields), Split(text, '\n')))
  }

  function Line(f: Field, v: Value): string {
    f.name + "=" + Shown(f, v)
  }

  /** The lines for the fields from `i` on. */
  function PrintFrom(fields: seq<Field>, s: State, i: nat): string
    requires |s| == |fields| && i <= |fields|
    decreases |fields| - i
  {
    if i == |fields| then [] else Line(fields[i], s[i]) + "\n" + PrintFrom(fields, s, i + 1)
  }

  function Print(fields: seq<Field>, s: State): string
    requires |s| == |fields|
  {
    PrintFrom(fields, s, 0)
  }

  method ReadFile(fields: seq<Field>, text: string) returns (s: State)
    ensures s == Parse(fields, text)
  {
    s := Initial(fields);
    var lines := Split(text, '\n');
    for i := 0 to |lines|
      invariant |s| == |fields|
      invariant ApplyLines(fields, Initial(fields), lines) == ApplyLines(fields, s, lines[i..])
    {
      assert lines[i..][0] == lines[i] && lines[i..][1..] == lines[i + 1..];
      var t := Trim(lines[i]);
      if t != [] && t[0] != '#' {
        var pair := SplitOnce(t, '=');
        if pair.Some? {
          var at := Lookup(fields, Trim(pair.value.0));
          LookupIs(fields, Trim(pair.value.0));
          if at.Some? {
            s := s[at.value := Read(fields[at.value], s[at.value], Trim(pair.value.1))];
          }
        }
      }
    }
    ghost var read := s;
    for i := 0 to |fields|
      invariant |s| == |fields|
      invariant forall j :: 0 <= j < i ==> s[j] == SettleValue(fields[j], read[j])
      invariant forall j :: i <= j < |fields| ==> s[j] == read[j]
    {
      s := s[i := SettleValue(fields[i], s[i])];
    }
  }

  // ---------- the normal form ----------

  predicate IsKeyChar(c: char) {
    'a' <= c <= 'z' || '0' <= c <= '9' || c == '_'
  }

  predicate IsPlain(name: string) {
    name != [] && forall k :: 0 <= k < |name| ==> IsKeyChar(name[k])
  }

  lemma PlainIs(name: string)
    requires IsPlain(name)
    ensures name != [] && name[0] != '#' && Trimmed(name) && '=' !in name && '\n' !in name
  {
    assert IsKeyChar(name[0]) && IsKeyChar(name[|name| - 1]);
  }

  /** What a field may hold while a file is being read. */
  predicate Held(f: Field, v: Value) {
    match v
    case Text(t) => f.kind.Words? && Trimmed(t) && '\n' !in t
    case Number(n) =>
      && !f.kind.Words? && IsI32(n)
      && (f.kind.Flag? ==> n == 0 || n == 1)
      && (f.kind.Threshold? ==> Bypass.ValidThreshold(n))
      && (f.kind.Manual? ==> -1 <= n <= 1)
      && (f.kind.Mask? ==> 1 <= n <= 0xff && n % 2 == 1)
      && (f.kind.ThermalMode? ==> n == -1 || Thermal.ValidMode(n))
  }

  /** A normal value: allowed in its field, and one-line trimmed text where the field holds words. */
  predicate Normal(f: Field, v: Value) {
    && Held(f, v)
    && (v.Number? ==>
          && (f.kind.Charging? ==> v.number == -1 || ValidCharging(v.number))
          && (f.kind.Touch? ==> v.number == -1 || 1 <= v.number <= 3)
          && (f.kind.Colour? ==> -1 <= v.number <= 2)
          && (f.kind.Temperature? ==> v.number == -1 || 1 <= v.number <= 3)
          && (f.kind.Toggle? ==> -1 <= v.number <= 1))
  }

  ghost predicate AllNormal(fields: seq<Field>, s: State) {
    |s| == |fields| && forall i :: 0 <= i < |fields| ==> Normal(fields[i], s[i])
  }

  ghost predicate AllHeld(fields: seq<Field>, s: State) {
    |s| == |fields| && forall i :: 0 <= i < |fields| ==> Held(fields[i], s[i])
  }

  /** Keys are plain and distinct, and every field starts from a value it may hold. */
  ghost predicate WellFormed(fields: seq<Field>) {
    && (forall i :: 0 <= i < |fields| ==> IsPlain(fields[i].name) && Held(fields[i], fields[i].initial))
    && (forall i, j :: 0 <= i < j < |fields| ==> fields[i].name != fields[j].name)
  }

  lemma OddIs(r: int, k: int)
    requires r == 2 * k + 1
    ensures r % 2 == 1
  {
  }

  lemma FirstBitSet(v: int) returns (k: int)
    ensures WithFirst(v) == 2 * k + 1
  {
    k := v / 2;
  }

  /** A mask keeps its lowest bit within eight bits. */
  lemma MaskIsOdd(v: int)
    ensures 1 <= WithFirst(v) % 0x100 <= 0xff && WithFirst(v) % 0x100 % 2 == 1
  {
    hide WithFirst;
    var w := WithFirst(v);
    var k := FirstBitSet(v);
    OddIs(w % 0x100, k - 0x80 * (w / 0x100));
  }

  lemma ReadIsHeld(f: Field, was: Value, raw: string)
    requires Held(f, was) && Trimmed(raw) && '\n' !in raw
    ensures Held(f, Read(f, was, raw))
  {
    hide ParseI32, Trimmed, WithFirst;
    ParsedIsI32(raw);
    if ParseI32(raw).Some? {
      MaskIsOdd(ParseI32(raw).value);
    }
  }

  lemma SettledIsNormal(f: Field, v: Value)
    requires Held(f, v)
    ensures Normal(f, SettleValue(f, v))
  {
  }

  /** A normal value is read back, whatever the field held before. */
  lemma ShownIsRead(f: Field, was: Value, v: Value)
    requires Normal(f, v)
    ensures SettleValue(f, Read(f, was, Shown(f, v))) == v
    ensures Trimmed(Shown(f, v)) && '\n' !in Shown(f, v)
  {
    hide ParseI32, Decimal, Trimmed;
    if v.Number? {
      DecimalRoundTrip(v.number);
    }
  }

  lemma LineIsHeld(fields: seq<Field>, s: State, line: string)
    requires AllHeld(fields, s) && '\n' !in line
    ensures AllHeld(fields, ApplyLine(fields, s, line))
  {
    hide Held, Read, Trim, Trimmed, SplitOnce, Lookup;
    var t := Trim(line);
    TrimIs(line);
    SplitOncePieces(t, '=');
    var pair := SplitOnce(t, '=');
    if t != [] && t[0] != '#' && pair.Some? {
      var (key, value) := pair.value;
      TrimIs(value);
      LookupIs(fields, Trim(key));
      var at := Lookup(fields, Trim(key));
      if at.Some? {
        ReadIsHeld(fields[at.value], s[at.value], Trim(value));
      }
    }
  }

  lemma {:induction false} LinesAreHeld(fields: seq<Field>, s: State, lines: seq<string>)
    requires AllHeld(fields, s) && forall l :: l in lines ==> '\n' !in l
    ensures AllHeld(fields, ApplyLines(fields, s, lines))
    decreases |lines|
  {
    hide ApplyLine, Held;
    if lines != [] {
      LineIsHeld(fields, s, lines[0]);
      LinesAreHeld(fields, ApplyLine(fields, s, lines[0]), lines[1..]);
    }
  }

  /** Whatever the text, what is read is normal. */
  lemma ParsedIsNormal(fields: seq<Field>, text: string)
    requires WellFormed(fields)
    ensures AllNormal(fields, Parse(fields, text))
  {
    hide ApplyLines, Held, Normal, Split, SettleValue;
    var lines := Split(text, '\n');
    SplitPieces(text, '\n');
    forall l | l in lines
      ensures '\n' !in l
    {
      assert forall c :: c in l ==> c != '\n';
    }
    LinesAreHeld(fields, Initial(fields), lines);
    var read := ApplyLines(fields, Initial(fields), lines);
    forall i | 0 <= i < |fields|
      ensures Normal(fields[i], SettleValue(fields[i], read[i]))
    {
      SettledIsNormal(fields[i], read[i]);
    }
  }

  // ---------- printing and reading back ----------

  function LinesFrom(fields: seq<Field>, s: State, i: nat): seq<string>
    requires |s| == |fields| && i <= |fields|
    decreases |fields| - i
  {
    if i == |fields| then [[]] else [Line(fields[i], s[i])] + LinesFrom(fields, s, i + 1)
  }

  lemma {:induction false} PrintSplits(fields: seq<Field>, s: State, i: nat)
    requires WellFormed(fields) && AllNormal(fields, s) && i <= |fields|
    ensures Split(PrintFrom(fields, s, i), '\n') == LinesFrom(fields, s, i)
    decreases |fields| - i
  {
    hide Held, Normal, Split, Shown;
    if i < |fields| {
      ShownIsRead(fields[i], s[i], s[i]);
      PlainIs(fields[i].name);
      var l, rest := Line(fields[i], s[i]), PrintFrom(fields, s, i + 1);
      assert '\n' !in l;
      assert l + "\n" + rest == l + ['\n'] + rest;
      PrintSplits(fields, s, i + 1);
      SplitAfter(l, '\n', rest);
    } else {
      SplitNone([], '\n');
    }
  }

  lemma {:induction false} LookupAt(fields: seq<Field>, i: nat)
    requires i < |fields| && forall j, k :: 0 <= j < k < |fields| ==> fields[j].name != fields[k].name
    ensures Lookup(fields, fields[i].name) == Some(i)
  {
    if i > 0 {
      assert fields[0].name != fields[i].name;
      assert fields[1..][i - 1] == fields[i];
      LookupAt(fields[1..], i - 1);
    }
  }

  lemma TrimmedLine(f: Field, v: Value)
    requires IsPlain(f.name) && Trimmed(Shown(f, v))
    ensures Trim(Line(f, v)) == Line(f, v)
    ensures Line(f, v) != [] && Line(f, v)[0] != '#'
    ensures SplitOnce(Line(f, v), '=') == Some((f.name, Shown(f, v)))
    ensures Trim(f.name) == f.name && Trim(Shown(f, v)) == Shown(f, v)
  {
    hide Trim, Shown, SplitOnce, IsPlain;
    PlainIs(f.name);
    var l, t := Line(f, v), Shown(f, v);
    TrimIs(l);
    TrimIs(f.name);
    TrimIs(t);
    assert l[|l| - 1] == if t == [] then '=' else t[|t| - 1];
    assert l[0] == f.name[0];
    assert l == f.name + ['='] + t;
    SplitOnceAt(f.name, '=', t);
  }

  /** A printed line sets its own field and no other. */
  lemma PrintedLine(fields: seq<Field>, s: State, t: State, i: nat)
    requires WellFormed(fields) && AllNormal(fields, s) && |t| == |fields| && i < |fields|
    ensures ApplyLine(fields, t, Line(fields[i], s[i])) == t[i := Read(fields[i], t[i], Shown(fields[i], s[i]))]
  {
    hide Held, Normal, Trim, Shown, SplitOnce, Line, Lookup, Read;
    ShownIsRead(fields[i], s[i], s[i]);
    TrimmedLine(fields[i], s[i]);
    LookupAt(fields, i);
  }

  lemma {:induction false} PrintedLinesRead(fields: seq<Field>, s: State, t: State, i: nat)
    requires WellFormed(fields) && AllNormal(fields, s) && |t| == |fields| && i <= |fields|
    requires forall j :: 0 <= j < i ==> SettleValue(fields[j], t[j]) == s[j]
    ensures var n := ApplyLines(fields, t, LinesFrom(fields, s, i));
      forall j :: 0 <= j < |fields| ==> SettleValue(fields[j], n[j]) == s[j]
    decreases |fields| - i
  {
    hide WellFormed, Normal, ApplyLine, SettleValue, Read, Shown, Line;
    var lines := LinesFrom(fields, s, i);
    if i < |fields| {
      PrintedLine(fields, s, t, i);
      ShownIsRead(fields[i], t[i], s[i]);
      var n := t[i := Read(fields[i], t[i], Shown(fields[i], s[i]))];
      assert lines[1..] == LinesFrom(fields, s, i + 1);
      PrintedLinesRead(fields, s, n, i + 1);
    } else {
      EmptyLine(fields, t);
      assert lines == [[]] && lines[1..] == [];
    }
  }

  lemma EmptyLine(fields: seq<Field>, t: State)
    requires |t| == |fields|
    ensures ApplyLine(fields, t, []) == t
  {
  }

  /** A normal state is read back exactly as it was printed. */
  lemma PrintedIsRead(fields: seq<Field>, s: State)
    requires WellFormed(fields) && AllNormal(fields, s)
    ensures Parse(fields, Print(fields, s)) == s
  {
    hide WellFormed, Normal, ApplyLines, SettleValue, PrintFrom, Split;
    PrintSplits(fields, s, 0);
    PrintedLinesRead(fields, s, Initial(fields), 0);
  }
}

// Per-app profiles and the configuration that holds them, as JSON trees.
module Profiles {
  import opened ControlKeys
  import opened ControlOrder
  import opened Controls
  import opened Ownership
  import opened Strings
  import opened Wrappers

  datatype Json =
    | Null | Bool(flag: bool) | Int(value: int) | Str(text: string) | Array(items: seq<Json>) | Object(fields: map<string, Json>)

  // ---------- objects ----------

  function Field(v: Json, key: string): Option<Json> {
    if v.Object? && key in v.fields then Some(v.fields[key]) else None
  }

  /** Absent and null fields are both left out. */
  function Given(v: Option<Json>): Option<Json> {
    if v == Some(Null) then None else v
  }

  predicate OnlyFields(v: Json, allowed: set<string>) {
    v.Object? && v.fields.Keys <= allowed
  }

  const PROFILE_FIELDS := {"enabled", "touch", "refresh", "gpu", "cpu", "cores"}
  const POLICY_FIELDS := {"0", "4", "7"}
  const CLUSTER_FIELDS := {"range", "governor"}

  /** A switch; missing means off. */
  function Switch(v: Json, key: string): Option<bool> {
    match Field(v, key)
    case None => Some(false)
    case Some(Bool(b)) => Some(b)
    case _ => None
  }

  function Cluster(v: Json, p: Policy): Option<Json> {
    match Given(Field(v, "cpu"))
    case None => None
    case Some(cpu) => Field(cpu, PolicyName(p))
  }

  /** Where a profile keeps one control. */
  function Entry(v: Json, c: Control): Option<Json> {
    match c
    case CpuRange(p) => (match Cluster(v, p) case None => None case Some(k) => Given(Field(k, "range")))
    case CpuGovernor(p) => (match Cluster(v, p) case None => None case Some(k) => Given(Field(k, "governor")))
    case _ => Given(Field(v, Key(c)))
  }

  predicate ClusterShape(v: Json, p: Policy) {
    Cluster(v, p).Some? ==> OnlyFields(Cluster(v, p).value, CLUSTER_FIELDS)
  }

  /** Known fields only, at every level. */
  predicate Shape(v: Json) {
    && OnlyFields(v, PROFILE_FIELDS)
    && Switch(v, "enabled").Some?
    && (Given(Field(v, "cpu")).Some? ==> OnlyFields(Field(v, "cpu").value, POLICY_FIELDS))
    && ClusterShape(v, P0) && ClusterShape(v, P4) && ClusterShape(v, P7)
  }

  // ---------- targets ----------

  predicate IsGovernorChar(c: char) {
    'a' <= c <= 'z' || 'A' <= c <= 'Z' || '0' <= c <= '9' || c == '_'
  }

  /** The targets a profile may hold for a control. */
  predicate Allowed(c: Control, t: Target) {
    Matches(c, t) &&
    match t
    case TouchMode(m) => m <= 3
    case GpuProfile(g) => g <= 3
    case CoreMask(m) => m <= 255 && m % 2 == 1
    case RefreshRate(r) => r == 0 || r == 60 || r == 90 || r == 120
    case FrequencyRange(min, max) => 0 < min <= max <= 10_000
    case Governor(name) => 0 < |name| <= 64 && forall i :: 0 <= i < |name| ==> IsGovernorChar(name[i])
  }

  function Written(t: Target): Json {
    match t
    case TouchMode(m) => Int(m)
    case GpuProfile(g) => Int(g)
    case CoreMask(m) => Int(m)
    case RefreshRate(r) => Int(r)
    case FrequencyRange(min, max) => Array([Int(min), Int(max)])
    case Governor(name) => Str(name)
  }

  /** What an entry's JSON could mean for a control, before its bounds are checked. */
  function Candidate(c: Control, v: Json): Option<Target> {
    match (c, v)
    case (Touch, Int(n)) => if n >= 0 then Some(TouchMode(n)) else None
    case (Gpu, Int(n)) => if n >= 0 then Some(GpuProfile(n)) else None
    case (CpuCores, Int(n)) => if n >= 0 then Some(CoreMask(n)) else None
    case (Refresh, Int(n)) => if n >= 0 then Some(RefreshRate(n)) else None
    case (CpuRange(_), Array(items)) =>
      if |items| == 2 && items[0].Int? && items[1].Int? && items[0].value >= 0 && items[1].value >= 0
      then Some(FrequencyRange(items[0].value, items[1].value)) else None
    case (CpuGovernor(_), Str(s)) => Some(Governor(s))
    case _ => None
  }

  function TargetOf(c: Control, v: Json): Option<Target> {
    var t := Candidate(c, v);
    if t.Some? && Allowed(c, t.value) then t else None
  }

  lemma WrittenIsRead(c: Control, t: Target)
    requires Allowed(c, t)
    ensures TargetOf(c, Written(t)) == Some(t) && Written(t) != Null
  {
  }

  // ---------- reading a profile ----------

  predicate Readable(v: Json, c: Control) {
    Entry(v, c).Some? ==> TargetOf(c, Entry(v, c).value).Some?
  }

  function ReadFrom(v: Json, ks: seq<Control>, controls: map<Control, Target>): Option<map<Control, Target>> {
    if ks == [] then Some(controls)
    else if Entry(v, ks[0]).None? then ReadFrom(v, ks[1..], controls)
    else
      match TargetOf(ks[0], Entry(v, ks[0]).value)
      case None => None
      case Some(t) => ReadFrom(v, ks[1..], controls[ks[0] := t])
  }

  /** The order in which a profile's fields are read. */
  const READ_ORDER: seq<Control> :=
    [Touch, Gpu, CpuCores, Refresh, CpuRange(P0), CpuGovernor(P0), CpuRange(P4), CpuGovernor(P4), CpuRange(P7), CpuGovernor(P7)]

  function ParseProfile(v: Json): Option<Profile> {
    if !Shape(v) then None
    else
      match ReadFrom(v, READ_ORDER, map[])
      case None => None
      case Some(controls) => Some(Profile(Switch(v, "enabled").value, controls))
  }

  method ReadProfile(v: Json) returns (r: Option<Profile>)
    ensures r == ParseProfile(v)
  {
    if !Shape(v) {
      return None;
    }
    var controls: map<Control, Target> := map[];
    for i := 0 to |READ_ORDER|
      invariant ReadFrom(v, READ_ORDER, map[]) == ReadFrom(v, READ_ORDER[i..], controls)
    {
      hide Entry, TargetOf;
      var c := READ_ORDER[i];
      assert READ_ORDER[i..][0] == c && READ_ORDER[i..][1..] == READ_ORDER[i + 1..];
      var entry := Entry(v, c);
      if entry.Some? {
        var t := TargetOf(c, entry.value);
        if t.None? {
          return None;
        }
        controls := controls[c := t.value];
      }
    }
    r := Some(Profile(Switch(v, "enabled").value, controls));
  }

  // ---------- writing a profile ----------

  function Fields(v: Option<Json>): map<string, Json> {
    if v.Some? && v.value.Object? then v.value.fields else map[]
  }

  /** Sets a field inside one processor cluster, adding the cluster when it is not there yet. */
  function PutInCluster(fields: map<string, Json>, p: Policy, key: string, x: Json): map<string, Json> {
    var cpu := Fields(Field(Object(fields), "cpu"));
    var cluster := Fields(Field(Object(cpu), PolicyName(p)));
    fields["cpu" := Object(cpu[PolicyName(p) := Object(cluster[key := x])])]
  }

  function Put(fields: map<string, Json>, c: Control, t: Target): map<string, Json> {
    match c
    case CpuRange(p) => PutInCluster(fields, p, "range", Written(t))
    case CpuGovernor(p) => PutInCluster(fields, p, "governor", Written(t))
    case _ => fields[Key(c) := Written(t)]
  }

  function PutAll(fields: map<string, Json>, ks: seq<Control>, controls: map<Control, Target>): map<string, Json>
    requires forall c :: c in ks ==> c in controls
    decreases |ks|
  {
    if ks == [] then fields else PutAll(Put(fields, ks[0], controls[ks[0]]), ks[1..], controls)
  }

  function JsonOf(p: Profile): Json {
    Object(PutAll(map["enabled" := Bool(p.enabled)], Walk(CONTROL_ORDER, p.controls.Keys), p.controls))
  }

  method WriteProfile(p: Profile) returns (v: Json)
    ensures v == JsonOf(p)
  {
    var fields := map["enabled" := Bool(p.enabled)];
    var ks := Walk(CONTROL_ORDER, p.controls.Keys);
    for i := 0 to |ks|
      invariant JsonOf(p).fields == PutAll(fields, ks[i..], p.controls)
    {
      assert ks[i..][0] == ks[i] && ks[i..][1..] == ks[i + 1..];
      fields := Put(fields, ks[i], p.controls[ks[i]]);
    }
    v := Object(fields);
  }

  // ---------- both directions ----------

  predicate Valid(p: Profile) {
    forall c :: c in p.controls ==> Allowed(c, p.controls[c])
  }

  /** A profile's object while it is written: known fields, and objects where objects belong. */
  ghost predicate Growing(fields: map<string, Json>, enabled: bool) {
    && Shape(Object(fields)) && Field(Object(fields), "enabled") == Some(Bool(enabled))
    && Field(Object(fields), "cpu") != Some(Null)
  }

  lemma ClusterPut(fields: map<string, Json>, enabled: bool, p: Policy, key: string, x: Json, q: Policy)
    requires Growing(fields, enabled) && key in CLUSTER_FIELDS
    ensures var n := Object(PutInCluster(fields, p, key, x));
      if p != q then Cluster(n, q) == Cluster(Object(fields), q)
      else Cluster(n, q) == Some(Object(Fields(Cluster(Object(fields), q))[key := x]))
  {
    assert PolicyName(p) == PolicyName(q) <==> p == q;
    assert ClusterShape(Object(fields), q);
  }

  lemma PutInClusterGrows(fields: map<string, Json>, enabled: bool, p: Policy, key: string, x: Json)
    requires Growing(fields, enabled) && key in CLUSTER_FIELDS
    ensures Growing(PutInCluster(fields, p, key, x), enabled)
  {
    var n := Object(PutInCluster(fields, p, key, x));
    forall q
      ensures ClusterShape(n, q)
    {
      ClusterPut(fields, enabled, p, key, x, q);
      assert ClusterShape(Object(fields), q);
    }
    hide ClusterShape;
  }

  lemma PutGrows(fields: map<string, Json>, enabled: bool, c: Control, t: Target)
    requires Growing(fields, enabled)
    ensures Growing(Put(fields, c, t), enabled)
  {
    match c
    case CpuRange(p) => PutInClusterGrows(fields, enabled, p, "range", Written(t));
    case CpuGovernor(p) => PutInClusterGrows(fields, enabled, p, "governor", Written(t));
    case _ => SimpleKeys(c);
  }

  lemma SimpleKeys(c: Control)
    requires !c.CpuRange? && !c.CpuGovernor?
    ensures Key(c) in PROFILE_FIELDS && Key(c) != "cpu" && Key(c) != "enabled"
  {
  }

  /** Writing a control sets its own entry and no other. */
  lemma PutSets(fields: map<string, Json>, enabled: bool, c: Control, t: Target, d: Control)
    requires Growing(fields, enabled) && Allowed(c, t)
    ensures Entry(Object(Put(fields, c, t)), d) == if c == d then Some(Written(t)) else Entry(Object(fields), d)
  {
    WrittenIsRead(c, t);
    match c
    case CpuRange(p) => PutSetsInCluster(fields, enabled, p, "range", t, d);
    case CpuGovernor(p) => PutSetsInCluster(fields, enabled, p, "governor", t, d);
    case _ => PutSetsSimple(fields, c, t, d);
  }

  lemma PutSetsSimple(fields: map<string, Json>, c: Control, t: Target, d: Control)
    requires !c.CpuRange? && !c.CpuGovernor? && Written(t) != Null
    ensures Entry(Object(fields[Key(c) := Written(t)]), d) == if c == d then Some(Written(t)) else Entry(Object(fields), d)
  {
    SimpleKeys(c);
    if !d.CpuRange? && !d.CpuGovernor? {
      SimpleKeys(d);
      assert Key(c) == Key(d) <==> c == d;
    }
  }

  lemma PutSetsInCluster(fields: map<string, Json>, enabled: bool, p: Policy, key: string, t: Target, d: Control)
    requires Growing(fields, enabled) && key in CLUSTER_FIELDS && Written(t) != Null
    ensures var c := if key == "range" then CpuRange(p) else CpuGovernor(p);
      Entry(Object(PutInCluster(fields, p, key, Written(t))), d) ==
        if c == d then Some(Written(t)) else Entry(Object(fields), d)
  {
    if d.CpuRange? || d.CpuGovernor? {
      ClusterPut(fields, enabled, p, key, Written(t), d.policy);
      assert ClusterShape(Object(fields), d.policy);
      hide Cluster, PutInCluster;
    } else {
      SimpleKeys(d);
    }
  }

  lemma {:induction false} PutAllSets(fields: map<string, Json>, enabled: bool, ks: seq<Control>,
                                      controls: map<Control, Target>, d: Control)
    requires Growing(fields, enabled) && forall c :: c in ks ==> c in controls && Allowed(c, controls[c])
    ensures var n := PutAll(fields, ks, controls);
      && Growing(n, enabled)
      && Entry(Object(n), d) == if d in ks then Some(Written(controls[d])) else Entry(Object(fields), d)
    decreases |ks|
  {
    hide Growing, Allowed, Entry, Put;
    if ks != [] {
      var n := Put(fields, ks[0], controls[ks[0]]);
      PutGrows(fields, enabled, ks[0], controls[ks[0]]);
      PutSets(fields, enabled, ks[0], controls[ks[0]], d);
      PutAllSets(n, enabled, ks[1..], controls, d);
    }
  }

  /** Reading collects exactly the entries that are there. */
  lemma {:induction false} ReadFromIs(v: Json, ks: seq<Control>, controls: map<Control, Target>)
    ensures var r := ReadFrom(v, ks, controls);
      && (r.Some? <==> forall c :: c in ks ==> Readable(v, c))
      && (r.Some? ==> forall c :: c in r.value <==> c in controls || (c in ks && Entry(v, c).Some?))
      && (r.Some? ==> forall c :: c in r.value ==>
            if c in ks && Entry(v, c).Some? then TargetOf(c, Entry(v, c).value) == Some(r.value[c])
            else c in controls && r.value[c] == controls[c])
    decreases |ks|
  {
    hide Entry, TargetOf;
    if ks != [] {
      assert forall c :: c in ks <==> c == ks[0] || c in ks[1..];
      assert Readable(v, ks[0]) <==> (Entry(v, ks[0]).Some? ==> TargetOf(ks[0], Entry(v, ks[0]).value).Some?);
      var t := if Entry(v, ks[0]).Some? then TargetOf(ks[0], Entry(v, ks[0]).value) else None;
      if Entry(v, ks[0]).None? {
        ReadFromIs(v, ks[1..], controls);
      } else if t.Some? {
        ReadFromIs(v, ks[1..], controls[ks[0] := t.value]);
      }
    }
  }

  lemma ReadsEveryControl(c: Control)
    ensures c in READ_ORDER
  {
    var i := match c
      case Touch => 0 case Gpu => 1 case CpuCores => 2 case Refresh => 3
      case CpuRange(p) => 4 + 2 * PolicyRank(p) case CpuGovernor(p) => 5 + 2 * PolicyRank(p);
    assert READ_ORDER[i] == c;
  }

  /** What an entry may hold in a profile's JSON, control by control. */
  predicate Fits(c: Control, v: Json) {
    match c
    case Touch => v.Int? && 0 <= v.value <= 3
    case Gpu => v.Int? && 0 <= v.value <= 3
    case CpuCores => v.Int? && 0 <= v.value <= 255 && v.value % 2 == 1
    case Refresh => v in {Int(0), Int(60), Int(90), Int(120)}
    case CpuRange(_) =>
      && v.Array? && |v.items| == 2 && v.items[0].Int? && v.items[1].Int?
      && 0 < v.items[0].value <= v.items[1].value <= 10_000
    case CpuGovernor(_) => v.Str? && 0 < |v.text| <= 64 && forall ch :: ch in v.text ==> IsGovernorChar(ch)
  }

  /** An entry that fits is read as the target that is written as it, and no other entry is read. */
  lemma TargetExactly(c: Control, v: Json)
    ensures TargetOf(c, v).Some? <==> Fits(c, v)
    ensures TargetOf(c, v).Some? ==> Written(TargetOf(c, v).value) == v && Matches(c, TargetOf(c, v).value)
  {
    if v.Str? {
      assert forall i :: 0 <= i < |v.text| ==> v.text[i] in v.text;
    }
    if v.Array? && |v.items| == 2 {
      assert v.items == [v.items[0], v.items[1]];
    }
  }

  /**
   * Which profiles are read, and as what: the known fields only, every entry fitting its control;
   * then the switch is as given, and the controls are just those with an entry, each written as it.
   */
  lemma ProfileExactly(v: Json)
    ensures ParseProfile(v).Some? <==> Shape(v) && forall c :: Entry(v, c).Some? ==> Fits(c, Entry(v, c).value)
    ensures ParseProfile(v).Some? ==>
      var p := ParseProfile(v).value;
      && (p.enabled <==> Field(v, "enabled") == Some(Bool(true)))
      && (forall c :: c in p.controls <==> Entry(v, c).Some?)
      && (forall c :: c in p.controls ==> Written(p.controls[c]) == Entry(v, c).value && Matches(c, p.controls[c]))
  {
    ReadFromIs(v, READ_ORDER, map[]);
    forall c: Control
      ensures c in READ_ORDER && (Readable(v, c) <==> (Entry(v, c).Some? ==> Fits(c, Entry(v, c).value)))
    {
      ReadsEveryControl(c);
      if Entry(v, c).Some? { TargetExactly(c, Entry(v, c).value); }
    }
    hide Entry, TargetOf, Fits, Written, Matches, ReadFrom, Shape;
    if Shape(v) { ShapeSwitch(v); }
    if ParseProfile(v).Some? {
      var p := ParseProfile(v).value;
      forall c | c in p.controls ensures Written(p.controls[c]) == Entry(v, c).value && Matches(c, p.controls[c]) {
        TargetExactly(c, Entry(v, c).value);
      }
    }
  }

  lemma ShapeSwitch(v: Json)
    requires Shape(v)
    ensures Switch(v, "enabled").Some?
  {
  }

  predicate Names(v: Option<Json>, key: string) {
    v.Some? && v.value.Object? && key in v.value.fields
  }

  /** A field that no profile has is refused, at the top, among the clusters, and in a cluster. */
  lemma UnknownFieldsRefused(v: Json, key: string)
    requires v.Object?
    ensures key in v.fields && key !in {"enabled", "touch", "refresh", "gpu", "cpu", "cores"} ==> ParseProfile(v) == None
    ensures Names(Field(v, "cpu"), key) && key !in {"0", "4", "7"} ==> ParseProfile(v) == None
    ensures forall p :: Names(Cluster(v, p), key) && key !in {"range", "governor"} ==> ParseProfile(v) == None
  {
    hide ReadFrom;
    forall p | Names(Cluster(v, p), key) && key !in {"range", "governor"}
      ensures !Shape(v)
    {
      assert !ClusterShape(v, p);
    }
  }

  lemma {:induction false} SameEntriesRead(v: Json, u: Json, ks: seq<Control>, controls: map<Control, Target>)
    requires forall c :: c in ks ==> Entry(v, c) == Entry(u, c)
    ensures ReadFrom(v, ks, controls) == ReadFrom(u, ks, controls)
    decreases |ks|
  {
    hide Entry, TargetOf;
    if ks != [] {
      assert forall c :: c in ks[1..] ==> c in ks;
      SameEntriesRead(v, u, ks[1..], controls);
      if Entry(v, ks[0]).Some? && TargetOf(ks[0], Entry(v, ks[0]).value).Some? {
        SameEntriesRead(v, u, ks[1..], controls[ks[0] := TargetOf(ks[0], Entry(v, ks[0]).value).value]);
      }
    }
  }

  /** A null field is as good as none. */
  lemma NullIsAbsent(fields: map<string, Json>, key: string)
    requires key in {"touch", "refresh", "gpu", "cpu", "cores"}
    ensures ParseProfile(Object(fields[key := Null])) == ParseProfile(Object(fields - {key}))
  {
    var v, u := Object(fields[key := Null]), Object(fields - {key});
    forall c: Control ensures Entry(v, c) == Entry(u, c) { NullEntry(fields, key, c); }
    NullShape(fields, key);
    hide Entry, ReadFrom, Shape;
    assert Switch(v, "enabled") == Switch(u, "enabled");
    SameEntriesRead(v, u, READ_ORDER, map[]);
  }

  lemma NullEntry(fields: map<string, Json>, key: string, c: Control)
    requires key in {"touch", "refresh", "gpu", "cpu", "cores"}
    ensures Entry(Object(fields[key := Null]), c) == Entry(Object(fields - {key}), c)
  {
  }

  lemma NullShape(fields: map<string, Json>, key: string)
    requires key in {"touch", "refresh", "gpu", "cpu", "cores"}
    ensures Shape(Object(fields[key := Null])) == Shape(Object(fields - {key}))
  {
    var v, u := Object(fields[key := Null]), Object(fields - {key});
    assert OnlyFields(v, PROFILE_FIELDS) == OnlyFields(u, PROFILE_FIELDS) by {
      assert v.fields.Keys == u.fields.Keys + {key};
      assert key in PROFILE_FIELDS;
    }
    assert forall p :: Cluster(v, p) == Cluster(u, p);
    hide OnlyFields;
  }

  /** Every profile that is read holds only allowed targets. */
  lemma ParsedIsValid(v: Json)
    ensures ParseProfile(v).Some? ==> Valid(ParseProfile(v).value)
  {
    hide Shape, Entry, Candidate, Allowed, Switch;
    ReadFromIs(v, READ_ORDER, map[]);
  }

  /** One control of a written profile. */
  ghost predicate WrittenAt(v: Json, controls: map<Control, Target>, c: Control) {
    if c in controls then Entry(v, c) == Some(Written(controls[c])) && TargetOf(c, Written(controls[c])) == Some(controls[c])
    else Entry(v, c) == None
  }

  lemma ProfileWritten(p: Profile, c: Control)
    requires Valid(p)
    ensures Growing(JsonOf(p).fields, p.enabled) && WrittenAt(JsonOf(p), p.controls, c)
  {
    hide Entry, TargetOf, Allowed, PutAll, Growing;
    StartGrows(p.enabled);
    WalkAll(p.controls.Keys);
    PutAllSets(map["enabled" := Bool(p.enabled)], p.enabled, Walk(CONTROL_ORDER, p.controls.Keys), p.controls, c);
    if c in p.controls {
      WrittenIsRead(c, p.controls[c]);
    }
  }

  lemma WrittenIsReadBack(v: Json, controls: map<Control, Target>)
    requires forall c: Control :: WrittenAt(v, controls, c)
    ensures ReadFrom(v, READ_ORDER, map[]) == Some(controls)
  {
    hide Entry, TargetOf, Written, ReadFrom;
    ReadFromIs(v, READ_ORDER, map[]);
    forall c: Control
      ensures c in READ_ORDER && Readable(v, c)
      ensures Entry(v, c).Some? <==> c in controls
    {
      assert WrittenAt(v, controls, c);
      ReadsEveryControl(c);
    }
    var r := ReadFrom(v, READ_ORDER, map[]);
    assert r.value.Keys == controls.Keys;
    forall c | c in controls
      ensures r.value[c] == controls[c]
    {
      assert WrittenAt(v, controls, c) && c in READ_ORDER;
    }
    assert r.value == controls;
  }

  /** Every profile with allowed targets is read back from what it writes. */
  lemma ProfileRoundTrip(p: Profile)
    requires Valid(p)
    ensures ParseProfile(JsonOf(p)) == Some(p)
  {
    hide WrittenAt, JsonOf, ReadFrom, Valid;
    forall c: Control
      ensures WrittenAt(JsonOf(p), p.controls, c)
    {
      ProfileWritten(p, c);
    }
    ProfileWritten(p, Touch);
    WrittenIsReadBack(JsonOf(p), p.controls);
    JsonIsObject(p);
  }

  lemma JsonIsObject(p: Profile)
    ensures JsonOf(p).Object? && JsonOf(p) == Object(JsonOf(p).fields)
  {
  }

  lemma StartGrows(enabled: bool)
    ensures Growing(map["enabled" := Bool(enabled)], enabled)
    ensures forall c: Control :: Entry(Object(map["enabled" := Bool(enabled)]), c) == None
  {
    forall c: Control
      ensures Entry(Object(map["enabled" := Bool(enabled)]), c) == None
    {
      if !c.CpuRange? && !c.CpuGovernor? {
        SimpleKeys(c);
      }
    }
  }

  // ---------- the configuration ----------

  datatype Config = Config(enabled: bool, notify: bool, profiles: map<App, Profile>)

  const SCHEMA := 1
  const MAX_PROFILES := 512
  const CONFIG_FIELDS := {"schema", "enabled", "notify", "profiles"}
  const ITEM_FIELDS := {"user", "package", "profile"}

  predicate IsLetter(c: char) {
    'a' <= c <= 'z' || 'A' <= c <= 'Z' || c == '_'
  }

  predicate IsPackagePart(part: string) {
    part != [] && IsLetter(part[0]) && forall i :: 0 <= i < |part| ==> IsGovernorChar(part[i])
  }

  /** An Android user and a dotted package name. */
  predicate IsApp(a: App) {
    && a.user <= 100_000 && 0 < |a.package| <= 255
    && forall part :: part in Split(a.package, '.') ==> IsPackagePart(part)
  }

  function ParseApp(v: Json): Option<App> {
    match (Field(v, "user"), Field(v, "package"))
    case (Some(Int(n)), Some(Str(s))) => if n >= 0 && IsApp(App(n, s)) then Some(App(n, s)) else None
    case _ => None
  }

  /** One listed app and its profile. */
  function ParseItem(v: Json): Option<(App, Profile)> {
    if !OnlyFields(v, ITEM_FIELDS) then None
    else
      match (ParseApp(v), ParseProfile(if Field(v, "profile").Some? then Field(v, "profile").value else Null))
      case (Some(a), Some(p)) => Some((a, p))
      case _ => None
  }

  /** Reads the listed profiles in turn; an app listed twice is an error. */
  function ParseItems(items: seq<Json>, profiles: map<App, Profile>): Option<map<App, Profile>> {
    if items == [] then Some(profiles)
    else
      match ParseItem(items[0])
      case None => None
      case Some((a, p)) => if a in profiles then None else ParseItems(items[1..], profiles[a := p])
  }

  function ParseConfig(v: Json): Option<Config> {
    if !OnlyFields(v, CONFIG_FIELDS) || Field(v, "schema") != Some(Int(SCHEMA)) then None
    else
      match (Field(v, "profiles"), Switch(v, "enabled"), Switch(v, "notify"))
      case (Some(Array(items)), Some(enabled), Some(notify)) =>
        if |items| > MAX_PROFILES then None
        else
          (match ParseItems(items, map[])
           case None => None
           case Some(profiles) => Some(Config(enabled, notify, profiles)))
      case _ => None
  }

  function ItemOf(a: App, p: Profile): Json {
    Object(map["user" := Int(a.user), "package" := Str(a.package), "profile" := JsonOf(p)])
  }

  function ItemsOf(apps: seq<App>, profiles: map<App, Profile>): seq<Json>
    requires forall a :: a in apps ==> a in profiles
  {
    if apps == [] then [] else [ItemOf(apps[0], profiles[apps[0]])] + ItemsOf(apps[1..], profiles)
  }

  /** The configuration with its profiles listed in the given order. */
  function ConfigJson(c: Config, apps: seq<App>): Json
    requires forall a :: a in apps ==> a in c.profiles
  {
    Object(map["schema" := Int(SCHEMA), "enabled" := Bool(c.enabled), "notify" := Bool(c.notify),
               "profiles" := Array(ItemsOf(apps, c.profiles))])
  }

  ghost predicate ValidConfig(c: Config) {
    |c.profiles| <= MAX_PROFILES && forall a :: a in c.profiles ==> IsApp(a) && Valid(c.profiles[a])
  }

  lemma ItemRoundTrip(a: App, p: Profile)
    requires IsApp(a) && Valid(p)
    ensures ParseItem(ItemOf(a, p)) == Some((a, p))
  {
    hide IsApp, Valid, JsonOf, ParseProfile;
    ProfileRoundTrip(p);
    var v := ItemOf(a, p);
    assert "user" != "package" && "user" != "profile" && "package" != "profile";
    assert Field(v, "user") == Some(Int(a.user)) && Field(v, "package") == Some(Str(a.package)) && Field(v, "profile") == Some(JsonOf(p));
  }

  ghost predicate Unlisted(apps: seq<App>, seen: map<App, Profile>) {
    (forall i, j :: 0 <= i < j < |apps| ==> apps[i] != apps[j]) && forall a :: a in apps ==> a !in seen
  }

  /** `r` holds the profiles of the apps seen before and of those listed. */
  ghost predicate Gathered(apps: seq<App>, profiles: map<App, Profile>, seen: map<App, Profile>, r: map<App, Profile>) {
    && (forall a :: a in r <==> a in seen || a in apps)
    && (forall a :: a in r ==> a in profiles && r[a] == profiles[a])
  }

  lemma NoneListed(profiles: map<App, Profile>, seen: map<App, Profile>)
    requires forall a :: a in seen ==> a in profiles && seen[a] == profiles[a]
    ensures Gathered([], profiles, seen, seen)
  {}

  lemma OneFewer(apps: seq<App>, profiles: map<App, Profile>, seen: map<App, Profile>)
    requires apps != [] && apps[0] in profiles && Unlisted(apps, seen)
    ensures apps[0] !in seen && Unlisted(apps[1..], seen[apps[0] := profiles[apps[0]]])
  {}

  lemma OneMore(apps: seq<App>, profiles: map<App, Profile>, seen: map<App, Profile>, r: map<App, Profile>)
    requires apps != [] && apps[0] in profiles
    requires Gathered(apps[1..], profiles, seen[apps[0] := profiles[apps[0]]], r)
    ensures Gathered(apps, profiles, seen, r)
  {
    assert forall b :: b in apps <==> b == apps[0] || b in apps[1..];
  }

  lemma {:induction false} ItemsRoundTrip(apps: seq<App>, profiles: map<App, Profile>, seen: map<App, Profile>)
    requires forall a :: a in apps ==> a in profiles && IsApp(a) && Valid(profiles[a])
    requires forall a :: a in seen ==> a in profiles && seen[a] == profiles[a]
    requires Unlisted(apps, seen)
    ensures |ItemsOf(apps, profiles)| == |apps|
    ensures ParseItems(ItemsOf(apps, profiles), seen).Some?
    ensures Gathered(apps, profiles, seen, ParseItems(ItemsOf(apps, profiles), seen).value)
    decreases |apps|
  {
    hide IsApp, Valid, ParseItem, ItemOf, Unlisted, Gathered;
    if apps == [] {
      NoneListed(profiles, seen);
    } else {
      var a := apps[0];
      ItemRoundTrip(a, profiles[a]);
      OneFewer(apps, profiles, seen);
      ItemsRoundTrip(apps[1..], profiles, seen[a := profiles[a]]);
      assert ItemsOf(apps, profiles)[1..] == ItemsOf(apps[1..], profiles);
      OneMore(apps, profiles, seen, ParseItems(ItemsOf(apps[1..], profiles), seen[a := profiles[a]]).value);
    }
  }

  lemma ListedAreFew(apps: seq<App>, profiles: map<App, Profile>)
    requires Unlisted(apps, map[]) && forall a :: a in profiles <==> a in apps
    ensures |apps| == |profiles|
  {
    DistinctCount(apps);
    assert profiles.Keys == set a | a in apps;
  }

  lemma {:induction false} DistinctCount(apps: seq<App>)
    requires forall i, j :: 0 <= i < j < |apps| ==> apps[i] != apps[j]
    ensures |set a | a in apps| == |apps|
  {
    if apps == [] {
      assert (set a | a in apps) == {};
    } else {
      DistinctCount(apps[1..]);
      assert (set a | a in apps) == {apps[0]} + set a | a in apps[1..];
      assert apps[0] !in apps[1..];
    }
  }

  /** Whatever order the apps are listed in, a valid configuration is read back from what it writes. */
  lemma ConfigRoundTrip(c: Config, apps: seq<App>)
    requires ValidConfig(c) && Unlisted(apps, map[]) && forall a :: a in c.profiles <==> a in apps
    ensures ParseConfig(ConfigJson(c, apps)) == Some(c)
  {
    hide IsApp, Valid, ParseItems, ItemsOf;
    ItemsRoundTrip(apps, c.profiles, map[]);
    ListedAreFew(apps, c.profiles);
    assert ParseItems(ItemsOf(apps, c.profiles), map[]).value == c.profiles;
  }

  lemma {:induction false} ItemsAreValid(items: seq<Json>, seen: map<App, Profile>)
    requires forall a :: a in seen ==> IsApp(a) && Valid(seen[a])
    ensures var r := ParseItems(items, seen);
      r.Some? ==> |r.value| <= |seen| + |items| && forall a :: a in r.value ==> IsApp(a) && Valid(r.value[a])
    decreases |items|
  {
    hide IsApp, Valid, ParseProfile;
    if items != [] && ParseItem(items[0]).Some? {
      var (a, p) := ParseItem(items[0]).value;
      ParsedIsValid(if Field(items[0], "profile").Some? then Field(items[0], "profile").value else Null);
      if a !in seen {
        assert seen[a := p].Keys == seen.Keys + {a};
        ItemsAreValid(items[1..], seen[a := p]);
      }
    }
  }

  /** Every configuration that is read is valid, so saving it never writes one that cannot be read. */
  lemma ParsedConfigIsValid(v: Json)
    ensures ParseConfig(v).Some? ==> ValidConfig(ParseConfig(v).value)
  {
    hide IsApp, Valid, ParseItems;
    var items := Field(v, "profiles");
    if items.Some? && items.value.Array? {
      ItemsAreValid(items.value.items, map[]);
    }
  }
}

// The orders in which maps over the controls are walked.
module ControlOrder {
  import opened Controls

  /** The order in which a map keyed by controls is walked. */
  const CONTROL_ORDER: seq<Control> :=
    [Touch, Refresh, Gpu, CpuRange(P0), CpuRange(P4), CpuRange(P7),
     CpuGovernor(P0), CpuGovernor(P4), CpuGovernor(P7), CpuCores]

  /** The order in which a map keyed by journal names is walked. */
  const KEY_ORDER: seq<Control> :=
    [CpuCores, CpuGovernor(P0), CpuGovernor(P4), CpuGovernor(P7), Gpu,
     CpuRange(P0), CpuRange(P4), CpuRange(P7), Refresh, Touch]

  function ControlRank(c: Control): nat {
    match c
    case Touch => 0
    case Refresh => 1
    case Gpu => 2
    case CpuRange(p) => 3 + PolicyRank(p)
    case CpuGovernor(p) => 6 + PolicyRank(p)
    case CpuCores => 9
  }

  function KeyRank(c: Control): nat {
    match c
    case CpuCores => 0
    case CpuGovernor(p) => 1 + PolicyRank(p)
    case Gpu => 4
    case CpuRange(p) => 5 + PolicyRank(p)
    case Refresh => 8
    case Touch => 9
  }

  function PolicyRank(p: Policy): nat {
    match p case P0 => 0 case P4 => 1 case P7 => 2
  }

  lemma EveryControl(c: Control)
    ensures c in CONTROL_ORDER && c in KEY_ORDER
  {
    assert CONTROL_ORDER[ControlRank(c)] == c;
    assert KEY_ORDER[KeyRank(c)] == c;
  }

  lemma OrdersDistinct()
    ensures Distinct(CONTROL_ORDER) && Distinct(KEY_ORDER)
  {
    forall i | 0 <= i < 10 ensures ControlRank(CONTROL_ORDER[i]) == i && KeyRank(KEY_ORDER[i]) == i {}
  }

  ghost predicate Distinct(ks: seq<Control>) {
    forall i, j :: 0 <= i < j < |ks| ==> ks[i] != ks[j]
  }

  /** The members of `s`, in the order `ks` lists them. */
  function Walk(ks: seq<Control>, s: set<Control>): (r: seq<Control>)
    ensures forall c :: c in r <==> c in ks && c in s
    ensures Distinct(ks) ==> Distinct(r)
  {
    if ks == [] then []
    else
      assert ks == [ks[0]] + ks[1..];
      (if ks[0] in s then [ks[0]] else []) + Walk(ks[1..], s)
  }

  /** Walking a map visits every key exactly once. */
  lemma WalkAll(s: set<Control>)
    ensures forall c :: c in Walk(CONTROL_ORDER, s) <==> c in s
    ensures forall c :: c in Walk(KEY_ORDER, s) <==> c in s
    ensures Distinct(Walk(CONTROL_ORDER, s)) && Distinct(Walk(KEY_ORDER, s))
  {
    forall c: Control ensures c in CONTROL_ORDER && c in KEY_ORDER { EveryControl(c); }
    OrdersDistinct();
  }
}

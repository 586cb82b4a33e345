// The names under which the recovery journal stores the controls.
module ControlKeys {
  import opened Controls
  import opened Wrappers

  function PolicyName(p: Policy): string {
    match p case P0 => "0" case P4 => "4" case P7 => "7"
  }

  function Key(c: Control): string {
    match c
    case Touch => "touch"
    case Gpu => "gpu"
    case Refresh => "refresh"
    case CpuCores => "cores"
    case CpuRange(p) => "range" + PolicyName(p)
    case CpuGovernor(p) => "governor" + PolicyName(p)
  }

  function FromPolicies(key: string, ps: seq<Policy>): Option<Control> {
    if ps == [] then None
    else if key == "range" + PolicyName(ps[0]) then Some(CpuRange(ps[0]))
    else if key == "governor" + PolicyName(ps[0]) then Some(CpuGovernor(ps[0]))
    else FromPolicies(key, ps[1..])
  }

  function FromKey(key: string): Option<Control> {
    if key == "touch" then Some(Touch)
    else if key == "gpu" then Some(Gpu)
    else if key == "refresh" then Some(Refresh)
    else if key == "cores" then Some(CpuCores)
    else FromPolicies(key, [P0, P4, P7])
  }

  lemma FromPoliciesSound(key: string, ps: seq<Policy>)
    ensures FromPolicies(key, ps).Some? ==> Key(FromPolicies(key, ps).value) == key
  {
  }

  /**
   * A journal name and a control determine each other, so a journal keyed by names is a map keyed
   * by controls: every control is found again under its own name, and a name that resolves
   * resolves to the one control that writes it.
   */
  lemma {:induction false} KeyRoundTrip(c: Control, key: string)
    ensures FromKey(Key(c)) == Some(c)
    ensures FromKey(key) == Some(c) <==> key == Key(c)
  {
    FromPoliciesSound(key, [P0, P4, P7]);
    FirstOf(c);
  }

  lemma PolicyNamesApart(p: Policy, q: Policy)
    ensures "range" + PolicyName(p) == "range" + PolicyName(q) ==> p == q
    ensures "governor" + PolicyName(p) == "governor" + PolicyName(q) ==> p == q
    ensures "range" + PolicyName(p) != "governor" + PolicyName(q)
  {
    assert ("range" + PolicyName(p))[5] == PolicyName(p)[0] && ("range" + PolicyName(q))[5] == PolicyName(q)[0];
    assert ("governor" + PolicyName(p))[8] == PolicyName(p)[0] && ("governor" + PolicyName(q))[8] == PolicyName(q)[0];
    assert ("range" + PolicyName(p))[0] == 'r' && ("governor" + PolicyName(q))[0] == 'g';
  }

  lemma {:induction false} FoundAmong(p: Policy, ps: seq<Policy>)
    requires p in ps
    ensures FromPolicies("range" + PolicyName(p), ps) == Some(CpuRange(p))
    ensures FromPolicies("governor" + PolicyName(p), ps) == Some(CpuGovernor(p))
  {
    PolicyNamesApart(p, ps[0]);
    PolicyNamesApart(ps[0], p);
    if p != ps[0] {
      FoundAmong(p, ps[1..]);
    }
  }

  lemma FirstOf(c: Control)
    ensures FromKey(Key(c)) == Some(c)
  {
    match c
    case CpuRange(p) =>
      assert Key(c)[1] == 'a' && "refresh"[1] == 'e' && Key(c)[0] == 'r';
      assert p in [P0, P4, P7];
      FoundAmong(p, [P0, P4, P7]);
    case CpuGovernor(p) =>
      assert Key(c)[1] == 'o' && "gpu"[1] == 'p' && Key(c)[0] == 'g';
      assert p in [P0, P4, P7];
      FoundAmong(p, [P0, P4, P7]);
    case _ =>
  }
}

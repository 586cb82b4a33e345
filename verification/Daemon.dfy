// The daemon's own form: objects whose fields the steps update in place, and the loops over
// them, each proved against the specification it carries out.
module Daemon {
  import opened Controls
  import opened ControlOrder
  import A = Adapter
  import O = Ownership
  import R = Recovery
  import Answers
  import opened Wrappers

  /** The adapter with its journal, its device nodes and the effective preferences. */
  class Adapter {
    var now: map<Control, A.Slot>
    var journal: map<Control, A.Slot>
    var conf: map<Control, Group>
    var originals: map<Control, A.Slot>
    var captured: map<Control, A.Slot>
    var alive: bool
    var script: A.Script
    var writes: multiset<Control>
    var stray: set<Control>

    ghost function State(): A.World
      reads this
    {
      A.World(now, journal, conf, originals, captured, alive, script, writes, stray)
    }

    /** Takes the outcome of the next step; none if the process dies before it. */
    method Draw() returns (o: Option<A.Outcome>)
      modifies this
      ensures if A.Acts(old(State()))
        then o == Some(old(script).outcome) && State() == old(State()).(script := old(script).rest)
        else o == None && State() == A.Stop(old(State()))
    {
      if alive && script.Then? {
        o := Some(script.outcome);
        script := script.rest;
      } else {
        o := None;
        alive := false;
      }
    }

    method WriteJournal(entries: map<Control, A.Slot>) returns (ok: bool)
      modifies this
      ensures (State(), ok) == A.Journal(old(State()), entries)
    {
      var o := Draw();
      ok := false;
      if o.Some? {
        match o.value.kind
        case Succeeds => journal := entries; originals := entries; ok := true;
        case Fails =>
        case Dies => alive := false;
      }
    }

    method Capture(c: Control) returns (saved: Option<A.Slot>)
      modifies this
      ensures (State(), saved) == A.Capture(old(State()), c)
    {
      var o := Draw();
      saved := None;
      if o.Some? {
        if o.value.kind.Succeeds? && c in now {
          var prefs := if c in originals then originals[c].prefs else now[c].prefs;
          saved := Some(A.Slot(now[c].level, prefs));
          captured := captured[c := saved.value];
        } else if o.value.kind.Dies? {
          alive := false;
        }
      }
    }

    method Apply(c: Control, t: Target) returns (ok: bool)
      modifies this
      ensures (State(), ok) == A.Apply(old(State()), c, t)
    {
      hide A.Program, A.Journal, Matches;
      ok := true;
      if c !in originals {
        if c !in captured {
          return false;
        }
        ok := WriteJournal(originals[c := captured[c]]);
      }
      if !ok || c !in originals || !Matches(c, t) {
        return false;
      }
      ok := Program(c, t);
    }

    method Program(c: Control, t: Target) returns (ok: bool)
      requires c in originals
      modifies this
      ensures (State(), ok) == A.Program(old(State()), c, t)
    {
      var o := Draw();
      ok := false;
      if o.Some? {
        writes := writes + multiset{c};
        match o.value.kind
        case Succeeds =>
          now := now[c := A.Slot(A.Effect(t, originals[c].level), o.value.left.prefs)];
          ok := true;
        case Fails => now := now[c := o.value.left];
        case Dies =>
          now := now[c := o.value.left];
          alive := false;
      }
    }

    method Restore(c: Control, s: A.Slot) returns (ok: bool)
      modifies this
      ensures (State(), ok) == A.Restore(old(State()), c, s)
    {
      ok := PutBack(c, s);
      if ok {
        ok := WriteJournal(originals - {c});
      }
    }

    method PutBack(c: Control, s: A.Slot) returns (ok: bool)
      modifies this
      ensures (State(), ok) == A.PutBack(old(State()), c, s)
    {
      var o := Draw();
      ok := false;
      if o.Some? {
        writes := writes + multiset{c};
        ok := o.value.kind.Succeeds?;
        var left := if ok then s else o.value.left;
        if c !in originals && left != s && (c in now ==> left != now[c]) {
          stray := stray + {c};
        }
        now := now[c := left];
        if o.value.kind.Dies? {
          alive := false;
        }
      }
    }

    /** Gives back everything the journal holds, up to the first failure. */
    method Recover() returns (ok: bool)
      modifies this
      ensures (State(), ok) == R.Recover(old(State()))
      ensures forall u :: R.Waiting(old(State()), u) && old(captured) == map[] ==>
        && R.Waiting(State(), u) && captured == map[] && stray == old(stray)
        && (ok ==> journal == map[] && O.Inv(O.DEFAULT, State(), u) && O.Overridden(State(), u, map[]))
    {
      forall u: A.User | R.Waiting(State(), u) && captured == map[]
        ensures var (n, done) := R.Recover(State());
          && R.Waiting(n, u) && n.captured == map[] && n.stray == stray
          && (done ==> n.journal == map[] && O.Inv(O.DEFAULT, n, u) && O.Overridden(n, u, map[]))
      {
        R.RecoverKeeps(State(), u);
      }
      hide R.Waiting, O.Inv, O.Overridden;
      var o := Draw();
      if o.None? {
        return false;
      }
      if !o.value.kind.Succeeds? {
        alive := alive && !o.value.kind.Dies?;
        return false;
      }
      originals := journal;
      WalkAll(originals.Keys);
      ok := RestoreNames(Walk(KEY_ORDER, originals.Keys), originals);
    }

    method RestoreNames(names: seq<Control>, saved: map<Control, A.Slot>) returns (ok: bool)
      requires forall c :: c in names ==> c in saved
      modifies this
      ensures (State(), ok) == R.RestoreSaved(names, saved, old(State()))
    {
      hide A.Restore;
      ghost var start := State();
      for i := 0 to |names|
        invariant R.RestoreSaved(names, saved, start) == R.RestoreSaved(names[i..], saved, State())
      {
        assert names[i..][0] == names[i] && names[i..][1..] == names[i + 1..];
        assert names[i] in names;
        ok := Restore(names[i], saved[names[i]]);
        if !ok {
          return false;
        }
      }
      ok := true;
    }
  }

  /** Which controls are borrowed, with what, and for whom. */
  class Ownership {
    var baseline: map<Control, A.Slot>
    var applied: map<Control, Target>
    var status: O.Status

    constructor ()
      ensures State() == O.DEFAULT
    {
      baseline, applied, status := map[], map[], O.Global;
    }

    ghost function State(): O.Owner
      reads this
    {
      O.Owner(baseline, applied, status)
    }

    method Transition(hardware: Adapter, r: O.Request) returns (ok: bool)
      modifies this, hardware
      ensures (State(), hardware.State(), ok) == O.Transition(old(State()), old(hardware.State()), r)
      ensures forall u :: O.Inv(old(State()), old(hardware.State()), u) ==>
        && O.Inv(State(), hardware.State(), u) && old(hardware.stray) <= hardware.stray
        && (ok ==> status == O.Settled(r) && applied == O.Targets(r) && O.Overridden(hardware.State(), u, O.Targets(r)))
        && (ok ==> Answers.Answered(r, State(), hardware.State(), u))
        && (!ok ==> !status.Active?)
    {
      hide O.Inv, O.Overridden, Answers.Answered;
      forall u: A.User | O.Inv(State(), hardware.State(), u)
        ensures var (o, n, done) := O.Transition(State(), hardware.State(), r);
          && O.Inv(o, n, u) && hardware.stray <= n.stray
          && (done ==> o.status == O.Settled(r) && o.applied == O.Targets(r) && O.Overridden(n, u, O.Targets(r)))
          && (done ==> Answers.Answered(r, o, n, u))
          && (!done ==> !o.status.Active?)
      {
        O.TransitionKeeps(State(), hardware.State(), u, r);
        Answers.TransitionAnswers(State(), hardware.State(), u, r);
      }
      var targets := O.Targets(r);
      if !status.RecoveryRequired? && targets == applied {
        status := O.Settled(r);
        return true;
      }
      var done := Advance(hardware, targets);
      if !done {
        Rollback(hardware);
        return false;
      }
      status := O.Settled(r);
      ok := true;
    }

    method Advance(hardware: Adapter, targets: map<Control, Target>) returns (ok: bool)
      modifies this, hardware
      ensures (State(), hardware.State(), ok) == O.Advance(old(State()), old(hardware.State()), targets)
    {
      var captures := CaptureMissing(hardware, Walk(CONTROL_ORDER, targets.Keys));
      if captures.None? {
        return false;
      }
      baseline := baseline + captures.value;
      ok := Release(hardware, Walk(CONTROL_ORDER, baseline.Keys - targets.Keys));
      if ok {
        ok := ApplyEach(hardware, Walk(CONTROL_ORDER, targets.Keys), targets);
      }
    }

    method CaptureMissing(hardware: Adapter, ks: seq<Control>) returns (captures: Option<map<Control, A.Slot>>)
      modifies hardware
      ensures (hardware.State(), captures) == O.CaptureAll(ks, baseline.Keys, map[], old(hardware.State()))
    {
      var taken: map<Control, A.Slot> := map[];
      var i := 0;
      while i < |ks|
        invariant i <= |ks|
        invariant O.CaptureAll(ks, baseline.Keys, map[], old(hardware.State()))
               == O.CaptureAll(ks[i..], baseline.Keys, taken, hardware.State())
      {
        assert ks[i..][0] == ks[i] && ks[i..][1..] == ks[i + 1..];
        if ks[i] !in baseline {
          var saved := hardware.Capture(ks[i]);
          if saved.None? {
            return None;
          }
          taken := taken[ks[i] := saved.value];
        }
        i := i + 1;
      }
      captures := Some(taken);
    }

    method Release(hardware: Adapter, ks: seq<Control>) returns (ok: bool)
      modifies this, hardware
      ensures (State(), hardware.State(), ok) == O.ReleaseAll(ks, old(State()), old(hardware.State()))
    {
      var i := 0;
      while i < |ks| && ks[i] in baseline
        invariant i <= |ks|
        invariant O.ReleaseAll(ks, old(State()), old(hardware.State())) == O.ReleaseAll(ks[i..], State(), hardware.State())
      {
        assert ks[i..][0] == ks[i] && ks[i..][1..] == ks[i + 1..];
        ok := hardware.Restore(ks[i], baseline[ks[i]]);
        if !ok {
          return false;
        }
        baseline := baseline - {ks[i]};
        applied := applied - {ks[i]};
        i := i + 1;
      }
      ok := i == |ks|;
    }

    method ApplyEach(hardware: Adapter, ks: seq<Control>, targets: map<Control, Target>) returns (ok: bool)
      modifies this`applied, hardware
      ensures (State(), hardware.State(), ok) == O.ApplyAll(ks, targets, old(State()), old(hardware.State()))
    {
      var i := 0;
      while i < |ks| && ks[i] in targets
        invariant i <= |ks|
        invariant O.ApplyAll(ks, targets, old(State()), old(hardware.State()))
               == O.ApplyAll(ks[i..], targets, State(), hardware.State())
      {
        assert ks[i..][0] == ks[i] && ks[i..][1..] == ks[i + 1..];
        if !(ks[i] in applied && applied[ks[i]] == targets[ks[i]]) || status.RecoveryRequired? {
          ok := hardware.Apply(ks[i], targets[ks[i]]);
          if !ok {
            return false;
          }
          applied := applied[ks[i] := targets[ks[i]]];
        }
        i := i + 1;
      }
      ok := i == |ks|;
    }

    method Rollback(hardware: Adapter)
      modifies this, hardware
      ensures (State(), hardware.State()) == O.Rollback(old(State()), old(hardware.State()))
    {
      var clean := RestoreEach(hardware, Walk(CONTROL_ORDER, baseline.Keys));
      status := if clean then O.Global else O.RecoveryRequired;
    }

    method RestoreEach(hardware: Adapter, ks: seq<Control>) returns (clean: bool)
      modifies this, hardware
      ensures (State(), hardware.State(), clean) == O.RestoreEach(ks, old(State()), old(hardware.State()), true)
    {
      clean := true;
      var i := 0;
      while i < |ks| && ks[i] in baseline
        invariant i <= |ks|
        invariant O.RestoreEach(ks, old(State()), old(hardware.State()), true)
               == O.RestoreEach(ks[i..], State(), hardware.State(), clean)
      {
        assert ks[i..][0] == ks[i] && ks[i..][1..] == ks[i + 1..];
        var ok := hardware.Restore(ks[i], baseline[ks[i]]);
        if ok {
          baseline := baseline - {ks[i]};
          applied := applied - {ks[i]};
        } else {
          clean := false;
        }
        i := i + 1;
      }
      clean := clean && i == |ks|;
    }
  }
}

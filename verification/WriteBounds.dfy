// How often a foreground change writes to a control: at most twice, and not at all when the
// targets are already in force.
module WriteBounds {
  import opened Controls
  import opened ControlOrder
  import opened Adapter
  import opened Ownership
  import opened Wrappers

  function Once(c: Control, ks: seq<Control>): nat {
    if c in ks then 1 else 0
  }

  lemma JournalWrites(w: World, entries: map<Control, Slot>)
    ensures Journal(w, entries).0.writes == w.writes
  {
  }

  lemma RestoreWrites(w: World, c: Control, s: Slot, d: Control)
    ensures Restore(w, c, s).0.writes[d] <= w.writes[d] + Once(d, [c])
  {
    var m := PutBack(w, c, s).0;
    assert m.writes == w.writes || m.writes == w.writes + multiset{c};
    assert c in [c];
    JournalWrites(m, m.originals - {c});
    hide PutBack, Journal;
  }

  lemma RestoreTries(w: World, c: Control, s: Slot)
    ensures var n := Restore(w, c, s).0; n.alive ==> w.alive && n.writes[c] == w.writes[c] + 1
    ensures forall d :: w.writes[d] <= Restore(w, c, s).0.writes[d]
  {
    var m := PutBack(w, c, s).0;
    assert m.alive ==> w.alive && m.writes == w.writes + multiset{c};
    assert m.writes == w.writes || m.writes == w.writes + multiset{c};
    JournalWrites(m, m.originals - {c});
    JournalLives(m, m.originals - {c});
    hide PutBack, Journal;
  }

  lemma JournalLives(w: World, entries: map<Control, Slot>)
    ensures Journal(w, entries).0.alive ==> w.alive
  {
  }

  lemma {:induction false} RestoreEachTries(ks: seq<Control>, o: Owner, w: World, clean: bool)
    requires Distinct(ks) && forall c :: c in ks ==> c in o.baseline
    ensures var n := RestoreEach(ks, o, w, clean).1;
      && (forall d :: w.writes[d] <= n.writes[d]) && (n.alive ==> w.alive)
      && (n.alive ==> forall c :: c in ks ==> n.writes[c] > w.writes[c])
  {
    hide Restore;
    if ks != [] {
      assert ks == [ks[0]] + ks[1..];
      RestoreTries(w, ks[0], o.baseline[ks[0]]);
      var (m, ok) := Restore(w, ks[0], o.baseline[ks[0]]);
      RestoreEachTries(ks[1..], if ok then Forget(o, ks[0]) else o, m, clean && ok);
    }
  }

  /** A rollback tries to give back every control it holds, whatever happens to the others. */
  lemma RollbackTries(o: Owner, w: World, c: Control)
    requires c in o.baseline
    ensures var n := Rollback(o, w).1; n.alive ==> n.writes[c] > w.writes[c]
  {
    WalkAll(o.baseline.Keys);
    RestoreEachTries(Walk(CONTROL_ORDER, o.baseline.Keys), o, w, true);
    hide RestoreEach, Walk;
  }

  lemma SecureWrites(w: World, c: Control)
    ensures Secure(w, c).0.writes == w.writes
  {
    if c !in w.originals && c in w.captured {
      JournalWrites(w, w.originals[c := w.captured[c]]);
    }
    hide Journal;
  }

  lemma ProgramWrites(w: World, c: Control, t: Target)
    requires c in w.originals
    ensures Program(w, c, t).0.writes == w.writes || Program(w, c, t).0.writes == w.writes + multiset{c}
  {
  }

  lemma ApplyWrites(w: World, c: Control, t: Target, d: Control)
    ensures Apply(w, c, t).0.writes[d] <= w.writes[d] + Once(d, [c])
  {
    hide Secure, Program;
    SecureWrites(w, c);
    var m := Secure(w, c).0;
    assert c in [c];
    if c in m.originals {
      ProgramWrites(m, c, t);
    }
  }

  lemma {:induction false} CaptureAllWrites(ks: seq<Control>, held: set<Control>, taken: map<Control, Slot>, w: World)
    ensures CaptureAll(ks, held, taken, w).0.writes == w.writes
  {
    if ks != [] {
      if ks[0] in held {
        CaptureAllWrites(ks[1..], held, taken, w);
      } else {
        var (n, s) := Capture(w, ks[0]);
        if s.Some? { CaptureAllWrites(ks[1..], held, taken[ks[0] := s.value], n); }
      }
    }
  }

  lemma OnceSplits(ks: seq<Control>, d: Control)
    requires ks != [] && Distinct(ks)
    ensures Once(d, ks) == Once(d, [ks[0]]) + Once(d, ks[1..])
  {
    assert ks == [ks[0]] + ks[1..];
    if d == ks[0] { assert d in [ks[0]]; }
  }

  lemma {:induction false} ReleaseAllWrites(ks: seq<Control>, o: Owner, w: World, d: Control)
    requires Distinct(ks)
    ensures ReleaseAll(ks, o, w).1.writes[d] <= w.writes[d] + Once(d, ks)
  {
    hide Restore, Once, Forget;
    if ks != [] && ks[0] in o.baseline {
      RestoreWrites(w, ks[0], o.baseline[ks[0]], d);
      OnceSplits(ks, d);
      var (n, ok) := Restore(w, ks[0], o.baseline[ks[0]]);
      if ok { ReleaseAllWrites(ks[1..], Forget(o, ks[0]), n, d); }
    }
  }

  lemma {:induction false} ApplyAllWrites(ks: seq<Control>, targets: map<Control, Target>, o: Owner, w: World, d: Control)
    requires Distinct(ks)
    ensures ApplyAll(ks, targets, o, w).1.writes[d] <= w.writes[d] + Once(d, ks)
  {
    hide Apply, Once;
    if ks != [] && ks[0] in targets {
      OnceSplits(ks, d);
      if UpToDate(o, ks[0], targets[ks[0]]) {
        ApplyAllWrites(ks[1..], targets, o, w, d);
      } else {
        ApplyWrites(w, ks[0], targets[ks[0]], d);
        var (n, ok) := Apply(w, ks[0], targets[ks[0]]);
        if ok { ApplyAllWrites(ks[1..], targets, o.(applied := o.applied[ks[0] := targets[ks[0]]]), n, d); }
      }
    }
  }

  lemma {:induction false} RestoreEachWrites(ks: seq<Control>, o: Owner, w: World, clean: bool, d: Control)
    requires Distinct(ks)
    ensures RestoreEach(ks, o, w, clean).1.writes[d] <= w.writes[d] + Once(d, ks)
  {
    hide Restore, Once, Forget;
    if ks != [] && ks[0] in o.baseline {
      RestoreWrites(w, ks[0], o.baseline[ks[0]], d);
      OnceSplits(ks, d);
      var (n, ok) := Restore(w, ks[0], o.baseline[ks[0]]);
      RestoreEachWrites(ks[1..], if ok then Forget(o, ks[0]) else o, n, clean && ok, d);
    }
  }

  /** Releasing and applying never concern the same control. */
  lemma AdvanceWrites(o: Owner, w: World, targets: map<Control, Target>, d: Control)
    ensures Advance(o, w, targets).1.writes[d] <= w.writes[d] + 1
  {
    WalkAll(targets.Keys);
    var ks := Walk(CONTROL_ORDER, targets.Keys);
    CaptureAllWrites(ks, o.baseline.Keys, map[], w);
    var (w1, captures) := CaptureAll(ks, o.baseline.Keys, map[], w);
    hide CaptureAll, Walk, ApplyAll, ReleaseAll;
    if captures.Some? {
      var o1 := o.(baseline := o.baseline + captures.value);
      WalkAll(o1.baseline.Keys - targets.Keys);
      var rs := Walk(CONTROL_ORDER, o1.baseline.Keys - targets.Keys);
      ReleaseAllWrites(rs, o1, w1, d);
      var (o2, w2, released) := ReleaseAll(rs, o1, w1);
      ApplyAllWrites(ks, targets, o2, w2, d);
    }
  }

  /**
   * Whatever fails, one foreground change starts at most two writes on any control: one forward
   * and one back. Asking again for the targets in force starts none.
   */
  lemma TransitionWrites(o: Owner, w: World, r: Request, d: Control)
    ensures Transition(o, w, r).1.writes[d] <= w.writes[d] + 2
    ensures !o.status.RecoveryRequired? && Targets(r) == o.applied ==> Transition(o, w, r).1 == w
  {
    AdvanceWrites(o, w, Targets(r), d);
    var (o', n, done) := Advance(o, w, Targets(r));
    WalkAll(o'.baseline.Keys);
    RestoreEachWrites(Walk(CONTROL_ORDER, o'.baseline.Keys), o', n, true, d);
    hide Advance, Walk, RestoreEach;
  }
}

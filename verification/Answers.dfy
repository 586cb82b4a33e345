// What a foreground change comes to, read off the request itself, and when it succeeds.
module Answers {
  import opened Controls
  import opened ControlOrder
  import opened Adapter
  import opened Ownership
  import opened Recovery
  import opened Wrappers

  // ---------- what is in force ----------

  /** Control `c` holds `t`, or for refresh rate zero what the user had set. */
  ghost predicate InForce(w: World, u: User, c: Control, t: Target) {
    && c in w.now && c in u
    && (t != RefreshRate(0) ==> w.now[c].level == Holds(t))
    && (t == RefreshRate(0) ==> w.now[c].level == u[c].level)
  }

  /** The listed targets are in force, and every other control is exactly as the user set it. */
  ghost predicate OnlyInForce(w: World, u: User, targets: map<Control, Target>) {
    forall c: Control ::
      (c in targets ==> InForce(w, u, c, targets[c])) && (c !in targets ==> c in w.now && c in u && w.now[c] == u[c])
  }

  /** Nothing is borrowed, and every control is as the user set it. */
  ghost predicate NothingLent(o: Owner, w: World, u: User) {
    o.status == Global && o.baseline == map[] && o.applied == map[] && OnlyInForce(w, u, map[])
  }

  /** The targets of `profile` are lent to `app`, and nothing else. */
  ghost predicate LentTo(app: App, profile: Profile, o: Owner, w: World, u: User) {
    && o.status == Active(app) && o.applied == profile.controls && o.baseline.Keys == profile.controls.Keys
    && OnlyInForce(w, u, profile.controls)
  }

  /**
   * What a request asks for: a disabled service wins over any profile, then disabled profiles; an
   * app without a profile, with a disabled one or with an empty one borrows nothing.
   */
  ghost predicate Answered(r: Request, o: Owner, w: World, u: User) {
    && (!r.serviceEnabled ==> NothingLent(o, w, u))
    && (!r.profilesEnabled ==> NothingLent(o, w, u))
    && (r.app.None? || r.profile.None? ==> NothingLent(o, w, u))
    && (r.profile.Some? && (!r.profile.value.enabled || r.profile.value.controls == map[]) ==> NothingLent(o, w, u))
    && (r.serviceEnabled && r.profilesEnabled && r.app.Some? && r.profile.Some?
        && r.profile.value.enabled && r.profile.value.controls != map[] ==>
          LentTo(r.app.value, r.profile.value, o, w, u))
  }

  lemma OverriddenInForce(w: World, u: User, targets: map<Control, Target>)
    requires Overridden(w, u, targets)
    ensures OnlyInForce(w, u, targets)
  {
    forall c: Control
      ensures (c in targets ==> InForce(w, u, c, targets[c])) && (c !in targets ==> c in w.now && c in u && w.now[c] == u[c])
    {
      assert c in targets ==> Shows(w, u, c, targets[c]);
      assert c !in targets ==> Untouched(w, u, c);
    }
  }

  lemma SettledAnswers(r: Request, o: Owner, w: World, u: User)
    requires Inv(o, w, u) && o.status == Settled(r) && o.applied == Targets(r) && Overridden(w, u, Targets(r))
    ensures Answered(r, o, w, u)
  {
    OverriddenInForce(w, u, Targets(r));
    hide Ownership.Holds, ShowsAll, Overridden, OnlyInForce;
  }

  /**
   * A successful foreground change answers its request, whatever was borrowed before and whatever
   * failed until then: the service switch, the profile switch, the app, the profile, the profile's
   * own switch and its controls each decide as they should.
   */
  lemma TransitionAnswers(o: Owner, w: World, u: User, r: Request)
    requires Inv(o, w, u)
    ensures var (o', n, ok) := Transition(o, w, r); ok ==> Answered(r, o', n, u)
  {
    hide Inv, Transition, Overridden, Answered;
    TransitionKeeps(o, w, u, r);
    var (o', n, ok) := Transition(o, w, r);
    if ok { SettledAnswers(r, o', n, u); }
  }

  /** The last of any number of foreground changes answers its request if it succeeds, whatever the others did. */
  lemma EveryRunAnswers(o: Owner, w: World, u: User, rs: seq<Request>)
    requires Inv(o, w, u) && rs != []
    ensures var (o', n, ok) := Follow(o, w, rs); ok ==> Answered(rs[|rs| - 1], o', n, u)
  {
    hide Inv, Follow, Overridden, Answered;
    EveryRunOwns(o, w, u, rs);
    var (o', n, ok) := Follow(o, w, rs);
    if ok { SettledAnswers(rs[|rs| - 1], o', n, u); }
  }

  // ---------- when nothing fails ----------

  /** The next `steps` steps succeed. */
  predicate Smooth(s: Script, steps: nat) {
    steps == 0 || (s.Then? && s.outcome.kind.Succeeds? && Smooth(s.rest, steps - 1))
  }

  ghost predicate Goes(w: World, steps: nat) {
    w.alive && Smooth(w.script, steps)
  }

  lemma {:induction false} SmoothLess(s: Script, steps: nat, fewer: nat)
    requires Smooth(s, steps) && fewer <= steps
    ensures Smooth(s, fewer)
  {
    if fewer > 0 { SmoothLess(s.rest, steps - 1, fewer - 1); }
  }

  lemma CaptureGoes(w: World, c: Control, steps: nat)
    requires Goes(w, steps + 1) && c in w.now
    ensures var (n, s) := Capture(w, c);
      && Goes(n, steps) && s.Some? && n.now == w.now && n.originals == w.originals
      && n.captured.Keys == w.captured.Keys + {c}
  {
  }

  lemma JournalGoes(w: World, entries: map<Control, Slot>, steps: nat)
    requires Goes(w, steps + 1)
    ensures var (n, ok) := Journal(w, entries);
      Goes(n, steps) && ok && n.now == w.now && n.originals == entries && n.captured == w.captured
  {
  }

  lemma PutBackGoes(w: World, c: Control, s: Slot, steps: nat)
    requires Goes(w, steps + 1)
    ensures var (n, ok) := PutBack(w, c, s);
      Goes(n, steps) && ok && n.now.Keys == w.now.Keys + {c} && n.originals == w.originals && n.captured == w.captured
  {
  }

  lemma RestoreGoes(w: World, c: Control, s: Slot, steps: nat)
    requires Goes(w, steps + 2)
    ensures var (n, ok) := Restore(w, c, s);
      && Goes(n, steps) && ok && n.now.Keys == w.now.Keys + {c} && n.originals == w.originals - {c} && n.captured == w.captured
  {
    hide PutBack, Journal, Goes;
    PutBackGoes(w, c, s, steps + 1);
    var m := PutBack(w, c, s).0;
    JournalGoes(m, m.originals - {c}, steps);
  }

  lemma ProgramGoes(w: World, c: Control, t: Target, steps: nat)
    requires Goes(w, steps + 1) && c in w.originals
    ensures var (n, ok) := Program(w, c, t); Goes(n, steps) && ok && n.originals == w.originals && n.captured == w.captured
  {
  }

  /** The original of `c` is durable, or can be made so by this adapter. */
  predicate CanSecure(w: World, c: Control) {
    c in w.originals || c in w.captured
  }

  lemma ApplyGoes(w: World, c: Control, t: Target, steps: nat)
    requires Goes(w, steps + 2) && CanSecure(w, c) && Matches(c, t)
    ensures var (n, ok) := Apply(w, c, t);
      Goes(n, steps) && ok && (forall d :: CanSecure(w, d) ==> CanSecure(n, d))
  {
    if c in w.originals {
      SmoothLess(w.script, steps + 2, steps + 1);
      ProgramGoes(w, c, t, steps);
    } else {
      JournalGoes(w, w.originals[c := w.captured[c]], steps + 1);
      ProgramGoes(Journal(w, w.originals[c := w.captured[c]]).0, c, t, steps);
    }
    hide Program, Journal, Matches;
  }

  lemma {:induction false} CaptureAllGoes(ks: seq<Control>, held: set<Control>, taken: map<Control, Slot>, w: World, steps: nat)
    requires Goes(w, steps + |ks|) && forall c: Control :: c in w.now
    ensures var (n, s) := CaptureAll(ks, held, taken, w);
      && Goes(n, steps) && s.Some? && n.now == w.now && n.originals == w.originals
      && w.captured.Keys <= n.captured.Keys && (forall c :: c in ks && c !in held ==> c in n.captured)
      && (forall c :: c in held && c !in w.captured ==> c !in n.captured)
  {
    hide Capture;
    if ks != [] {
      assert ks == [ks[0]] + ks[1..];
      if ks[0] in held {
        SmoothLess(w.script, steps + |ks|, steps + |ks| - 1);
        CaptureAllGoes(ks[1..], held, taken, w, steps);
      } else {
        CaptureGoes(w, ks[0], steps + |ks| - 1);
        var (n, s) := Capture(w, ks[0]);
        CaptureAllGoes(ks[1..], held, taken[ks[0] := s.value], n, steps);
      }
    }
  }

  lemma {:induction false} ReleaseAllGoes(ks: seq<Control>, o: Owner, w: World, steps: nat)
    requires Goes(w, steps + 2 * |ks|) && Distinct(ks) && forall c :: c in ks ==> c in o.baseline
    ensures var (o', n, ok) := ReleaseAll(ks, o, w);
      && Goes(n, steps) && ok && n.captured == w.captured && n.originals.Keys == w.originals.Keys - set c | c in ks
  {
    hide Restore;
    if ks != [] {
      assert ks == [ks[0]] + ks[1..];
      RestoreGoes(w, ks[0], o.baseline[ks[0]], steps + 2 * |ks| - 2);
      ReleaseAllGoes(ks[1..], Forget(o, ks[0]), Restore(w, ks[0], o.baseline[ks[0]]).0, steps);
    }
  }

  lemma {:induction false} ApplyAllGoes(ks: seq<Control>, targets: map<Control, Target>, o: Owner, w: World, steps: nat)
    requires Goes(w, steps + 2 * |ks|)
    requires forall c :: c in ks ==> c in targets && CanSecure(w, c) && Matches(c, targets[c])
    ensures ApplyAll(ks, targets, o, w).2 && Goes(ApplyAll(ks, targets, o, w).1, steps)
  {
    hide Apply, CanSecure, Matches;
    if ks != [] {
      assert ks == [ks[0]] + ks[1..];
      if UpToDate(o, ks[0], targets[ks[0]]) {
        SmoothLess(w.script, steps + 2 * |ks|, steps + 2 * |ks[1..]|);
        ApplyAllGoes(ks[1..], targets, o, w, steps);
      } else {
        ApplyGoes(w, ks[0], targets[ks[0]], steps + 2 * |ks| - 2);
        ApplyAllGoes(ks[1..], targets, o.(applied := o.applied[ks[0] := targets[ks[0]]]), Apply(w, ks[0], targets[ks[0]]).0, steps);
      }
    }
  }

  lemma {:induction false} WalkLength(ks: seq<Control>, s: set<Control>)
    ensures |Walk(ks, s)| <= |ks|
  {
    if ks != [] { WalkLength(ks[1..], s); }
  }

  /** Enough steps for any one foreground change: one capture, one release and one apply of each control. */
  const STEPS: nat := 5 * |CONTROL_ORDER|

  /** Every target is of its control's kind, as in every profile that was read. */
  predicate AllMatch(targets: map<Control, Target>) {
    forall c :: c in targets ==> Matches(c, targets[c])
  }

  lemma SecureNeeds(w: World, c: Control, d: Control)
    ensures Secure(w, c).1 ==> CanSecure(w, c)
    ensures d != c && !CanSecure(w, d) ==> !CanSecure(Secure(w, c).0, d)
  {
  }

  lemma ProgramNeeds(w: World, c: Control, t: Target)
    requires c in w.originals
    ensures Program(w, c, t).0.originals == w.originals && Program(w, c, t).0.captured == w.captured
  {
  }

  /** A control held without a journal entry cannot be programmed by an adapter that has not captured it. */
  lemma ApplyNeeds(w: World, c: Control, t: Target, d: Control)
    ensures Apply(w, c, t).1 ==> CanSecure(w, c)
    ensures d != c && !CanSecure(w, d) ==> !CanSecure(Apply(w, c, t).0, d)
  {
    hide Secure, Program, Matches;
    SecureNeeds(w, c, d);
    var n := Secure(w, c).0;
    if c in n.originals { ProgramNeeds(n, c, t); }
  }

  lemma {:induction false} ApplyAllNeeds(ks: seq<Control>, targets: map<Control, Target>, o: Owner, w: World, c: Control)
    requires Distinct(ks) && c in ks && !CanSecure(w, c) && (c in o.applied ==> o.status.RecoveryRequired?)
    ensures !ApplyAll(ks, targets, o, w).2
  {
    hide Apply, CanSecure;
    if ks[0] in targets {
      assert ks == [ks[0]] + ks[1..];
      var d := ks[0];
      ApplyNeeds(w, d, targets[d], c);
      if UpToDate(o, d, targets[d]) {
        ApplyAllNeeds(ks[1..], targets, o, w, c);
      } else if d != c && Apply(w, d, targets[d]).1 {
        ApplyAllNeeds(ks[1..], targets, o.(applied := o.applied[d := targets[d]]), Apply(w, d, targets[d]).0, c);
      }
    }
  }

  /** Every control the targets name that is held already has its journal entry. */
  predicate HeldAreJournaled(o: Owner, w: World, targets: map<Control, Target>) {
    forall c :: c in targets && c in o.baseline ==> c in w.originals
  }

  lemma ApplyListGoes(ks: seq<Control>, targets: map<Control, Target>, o: Owner, w: World)
    requires Goes(w, 2 * |ks|) && AllMatch(targets) && o.applied.Keys <= w.originals.Keys
    requires Distinct(ks) && forall c :: c in ks <==> c in targets
    ensures ApplyAll(ks, targets, o, w).2 <==> forall c :: c in targets ==> CanSecure(w, c)
  {
    hide ApplyAll, Matches, Goes, Distinct;
    if forall c :: c in targets ==> CanSecure(w, c) {
      ApplyAllGoes(ks, targets, o, w, 0);
    } else {
      var c :| c in targets && !CanSecure(w, c);
      assert c !in o.applied;
      ApplyAllNeeds(ks, targets, o, w, c);
    }
  }

  lemma ApplyEachGoes(targets: map<Control, Target>, o: Owner, w: World)
    requires Goes(w, 20) && AllMatch(targets) && o.applied.Keys <= w.originals.Keys
    ensures ApplyAll(Walk(CONTROL_ORDER, targets.Keys), targets, o, w).2 <==> forall c :: c in targets ==> CanSecure(w, c)
  {
    hide ApplyAll, Walk, CanSecure, AllMatch;
    var ks := Walk(CONTROL_ORDER, targets.Keys);
    WalkAll(targets.Keys);
    WalkLength(CONTROL_ORDER, targets.Keys);
    SmoothLess(w.script, 20, 2 * |ks|);
    ApplyListGoes(ks, targets, o, w);
  }

  /** Captures succeed, and reach just the targets that are not held. */
  lemma CaptureEachGoes(o: Owner, w: World, u: User, targets: map<Control, Target>)
    requires Ownership.Holds(o, w, u) && w.captured == map[] && Goes(w, STEPS)
    ensures var (n, s) := CaptureAll(Walk(CONTROL_ORDER, targets.Keys), o.baseline.Keys, map[], w);
      && Goes(n, 40) && s.Some? && n.originals == w.originals
      && (forall c :: c in targets ==> (c in n.captured <==> c !in o.baseline))
      && Ownership.Holds(o.(baseline := o.baseline + s.value), n, u)
      && (o.baseline + s.value).Keys == o.baseline.Keys + targets.Keys
  {
    var order := Walk(CONTROL_ORDER, targets.Keys);
    forall c: Control ensures c in w.now { Known(w, u, o.baseline.Keys, c); }
    WalkAll(targets.Keys);
    WalkLength(CONTROL_ORDER, targets.Keys);
    SmoothLess(w.script, STEPS, 40 + |order|);
    hide CaptureAll, Walk, Ownership.Holds, Loans;
    CaptureAllGoes(order, o.baseline.Keys, map[], w, 40);
    CapturePhase(o, w, u, targets);
  }

  lemma ReleaseListGoes(ks: seq<Control>, o: Owner, w: World, u: User, targets: map<Control, Target>)
    requires Ownership.Holds(o, w, u) && Goes(w, 20 + 2 * |ks|)
    requires Distinct(ks) && forall c :: c in ks <==> c in o.baseline && c !in targets
    ensures var (o', n, ok) := ReleaseAll(ks, o, w);
      && Goes(n, 20) && ok && n.captured == w.captured && o'.applied.Keys <= n.originals.Keys
      && (forall c :: c in targets ==> (c in n.originals <==> c in w.originals))
  {
    hide ReleaseAll, Loans, TrueToken, Goes, Distinct;
    ReleaseAllKeeps(ks, o, w, u);
    ReleaseAllGoes(ks, o, w, 20);
  }

  /** Releases succeed, and drop the journal entries of just the controls that are no target. */
  lemma ReleaseEachGoes(o: Owner, w: World, u: User, targets: map<Control, Target>)
    requires Ownership.Holds(o, w, u) && Goes(w, 40) && targets.Keys <= o.baseline.Keys
    ensures var (o', n, ok) := ReleaseAll(Walk(CONTROL_ORDER, o.baseline.Keys - targets.Keys), o, w);
      && Goes(n, 20) && ok && n.captured == w.captured && o'.applied.Keys <= n.originals.Keys
      && (forall c :: c in targets ==> (c in n.originals <==> c in w.originals))
  {
    hide ReleaseAll, Walk, Ownership.Holds;
    var ks := Walk(CONTROL_ORDER, o.baseline.Keys - targets.Keys);
    WalkAll(o.baseline.Keys - targets.Keys);
    WalkLength(CONTROL_ORDER, o.baseline.Keys - targets.Keys);
    SmoothLess(w.script, 40, 20 + 2 * |ks|);
    ReleaseListGoes(ks, o, w, u, targets);
  }

  lemma AdvanceGoes(o: Owner, w: World, u: User, targets: map<Control, Target>)
    requires Ownership.Holds(o, w, u) && w.captured == map[] && Goes(w, STEPS) && AllMatch(targets)
    ensures Advance(o, w, targets).2 <==> HeldAreJournaled(o, w, targets)
  {
    hide CaptureAll, ReleaseAll, ApplyAll, Walk, Ownership.Holds, Goes, AllMatch;
    CaptureEachGoes(o, w, u, targets);
    var (w1, captures) := CaptureAll(Walk(CONTROL_ORDER, targets.Keys), o.baseline.Keys, map[], w);
    var o1 := o.(baseline := o.baseline + captures.value);
    ReleaseEachGoes(o1, w1, u, targets);
    var (o2, w2, released) := ReleaseAll(Walk(CONTROL_ORDER, o1.baseline.Keys - targets.Keys), o1, w1);
    ApplyEachGoes(targets, o2, w2);
  }

  /**
   * When no step fails, a foreground change succeeds if and only if each control it asks for that
   * is held is also journaled. Outside recovery that is every control that is held.
   */
  lemma TransitionSucceeds(o: Owner, w: World, u: User, r: Request)
    requires Inv(o, w, u) && w.captured == map[] && Goes(w, STEPS) && AllMatch(Targets(r))
    ensures Transition(o, w, r).2 <==> HeldAreJournaled(o, w, Targets(r))
    ensures !o.status.RecoveryRequired? ==> Transition(o, w, r).2
  {
    hide Advance, Rollback, Goes;
    NestedKeys(o, w, u);
    IndicesOf(o, w, u);
    if !o.status.RecoveryRequired? && Targets(r) == o.applied {
    } else {
      AdvanceGoes(o, w, u, Targets(r));
    }
  }

  /** When no step fails, recovery completes. */
  lemma RecoverSucceeds(w: World, u: User)
    requires Waiting(w, u) && Goes(w, 1 + 2 * |KEY_ORDER|)
    ensures Recover(w).1
  {
    var n := w.(originals := w.journal, script := w.script.rest);
    var ks := Walk(KEY_ORDER, n.originals.Keys);
    WalkAll(n.originals.Keys);
    WalkLength(KEY_ORDER, n.originals.Keys);
    SmoothLess(n.script, 2 * |KEY_ORDER|, 2 * |ks|);
    hide Waiting, Walk;
    RestoreSavedGoes(ks, n.originals, n);
  }

  lemma {:induction false} RestoreSavedGoes(ks: seq<Control>, saved: map<Control, Slot>, w: World)
    requires Goes(w, 2 * |ks|) && forall c :: c in ks ==> c in saved
    ensures RestoreSaved(ks, saved, w).1
  {
    hide Restore;
    if ks != [] {
      assert ks == [ks[0]] + ks[1..];
      RestoreGoes(w, ks[0], saved[ks[0]], 2 * |ks| - 2);
      RestoreSavedGoes(ks[1..], saved, Restore(w, ks[0], saved[ks[0]]).0);
    }
  }

  /** When no step fails, a user command for a free control takes effect on the device and in the saved preferences. */
  lemma ChooseSucceeds(o: Owner, w: World, c: Control, s: Slot)
    requires Goes(w, 2) && c in w.now && c !in w.originals
    ensures var n := Choose(o, w, c, s);
      c in n.now && n.now[c] == s && c in n.conf && n.conf[c] == s.prefs
  {
    assert Smooth(w.script.rest, 1);
  }

  /** A user command for a journaled control is refused and touches nothing. */
  lemma ChooseRefused(o: Owner, w: World, c: Control, s: Slot)
    requires c in w.originals
    ensures Choose(o, w, c, s) == w
  {
  }

  /** When no step fails, a save writes the preferences: the user's own, and the original's for a journaled control. */
  lemma SaveSucceeds(w: World, c: Control)
    requires Goes(w, 1) && c in w.now
    ensures var (n, ok) := Save(w);
      ok && n.now == w.now && c in n.conf && n.conf[c] == (if c in w.originals then w.originals[c] else w.now[c]).prefs
  {
  }

  /** A successful foreground change anywhere in a run answers its request, over the settings the daemon goes by. */
  lemma ForegroundAnswers(m: Machine, r: Request)
    requires Sound(m) && m.world.alive && m.ready
    ensures var (o, w, ok) := Reconcile(m.owner, m.world, r);
      && (ok ==> Answered(r, o, w, m.regarded))
      && (Goes(m.world, STEPS) && AllMatch(Targets(r)) && !m.owner.status.RecoveryRequired? ==> ok)
  {
    var v := m.world.(captured := map[]);
    UncapturedInv(m.owner, m.world, m.regarded);
    TransitionKeeps(m.owner, v, m.regarded, r);
    hide Inv, Transition, Overridden, Answered, Survives, Goes;
    var (o, n, ok) := Transition(m.owner, v, r);
    if ok {
      UncapturedInv(o, n, m.regarded);
      RecapturedOverridden(n, m.regarded, Targets(r));
      SettledAnswers(r, o, n.(captured := map[]), m.regarded);
    }
    if Goes(m.world, STEPS) && AllMatch(Targets(r)) && !m.owner.status.RecoveryRequired? {
      GoesUncaptured(m.world);
      TransitionSucceeds(m.owner, v, m.regarded, r);
    }
  }

  lemma GoesUncaptured(w: World)
    requires Goes(w, STEPS)
    ensures Goes(w.(captured := map[]), STEPS)
  {
  }
}

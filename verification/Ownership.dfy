// Per-app ownership: which controls the foreground app borrows, how they are handed from one
// profile to the next, and how everything is given back when any step fails.
module Ownership {
  import opened Controls
  import opened ControlOrder
  import opened Adapter
  import opened Wrappers

  datatype App = App(user: nat, package: string)

  datatype Profile = Profile(enabled: bool, controls: map<Control, Target>)

  datatype Status = Global | Active(app: App) | RecoveryRequired

  datatype Owner = Owner(baseline: map<Control, Slot>, applied: map<Control, Target>, status: Status)

  const DEFAULT: Owner := Owner(map[], map[], Global)

  /** What the caller knows: the foreground app, its profile and the two switches. */
  datatype Request = Request(app: Option<App>, profile: Option<Profile>, serviceEnabled: bool, profilesEnabled: bool)

  predicate Wanted(r: Request) {
    && r.serviceEnabled && r.profilesEnabled && r.app.Some? && r.profile.Some?
    && r.profile.value.enabled && r.profile.value.controls != map[]
  }

  function Targets(r: Request): map<Control, Target> {
    if Wanted(r) then r.profile.value.controls else map[]
  }

  function Settled(r: Request): Status {
    if Wanted(r) then Active(r.app.value) else Global
  }

  // ---------- the transition ----------

  /** Captures the originals of every listed control not yet held; no result if one cannot be read. */
  function CaptureAll(ks: seq<Control>, held: set<Control>, taken: map<Control, Slot>, w: World):
    (World, Option<map<Control, Slot>>)
  {
    if ks == [] then (w, Some(taken))
    else if ks[0] in held then CaptureAll(ks[1..], held, taken, w)
    else
      var (n, s) := Capture(w, ks[0]);
      if s.None? then (n, None) else CaptureAll(ks[1..], held, taken[ks[0] := s.value], n)
  }

  function Forget(o: Owner, c: Control): Owner {
    o.(baseline := o.baseline - {c}, applied := o.applied - {c})
  }

  /** Restores the listed controls in turn, up to the first failure. */
  function ReleaseAll(ks: seq<Control>, o: Owner, w: World): (Owner, World, bool) {
    if ks == [] || ks[0] !in o.baseline then (o, w, ks == [])
    else
      var (n, ok) := Restore(w, ks[0], o.baseline[ks[0]]);
      if ok then ReleaseAll(ks[1..], Forget(o, ks[0]), n) else (o, n, false)
  }

  /** Whether `c` already holds its target, so that nothing needs to be written. */
  predicate UpToDate(o: Owner, c: Control, t: Target) {
    !o.status.RecoveryRequired? && c in o.applied && o.applied[c] == t
  }

  /** Applies the listed targets in turn, up to the first failure. */
  function ApplyAll(ks: seq<Control>, targets: map<Control, Target>, o: Owner, w: World): (Owner, World, bool) {
    if ks == [] || ks[0] !in targets then (o, w, ks == [])
    else if UpToDate(o, ks[0], targets[ks[0]]) then ApplyAll(ks[1..], targets, o, w)
    else
      var (n, ok) := Apply(w, ks[0], targets[ks[0]]);
      if ok then ApplyAll(ks[1..], targets, o.(applied := o.applied[ks[0] := targets[ks[0]]]), n)
      else (o, n, false)
  }

  /** Tries to restore every listed control, whatever happens to the others. */
  function RestoreEach(ks: seq<Control>, o: Owner, w: World, clean: bool): (Owner, World, bool) {
    if ks == [] || ks[0] !in o.baseline then (o, w, clean && ks == [])
    else
      var (n, ok) := Restore(w, ks[0], o.baseline[ks[0]]);
      RestoreEach(ks[1..], if ok then Forget(o, ks[0]) else o, n, clean && ok)
  }

  function Rollback(o: Owner, w: World): (Owner, World) {
    var (o', w', clean) := RestoreEach(Walk(CONTROL_ORDER, o.baseline.Keys), o, w, true);
    (o'.(status := if clean then Global else RecoveryRequired), w')
  }

  /** Captures, releases and applies, up to the first failure. */
  function Advance(o: Owner, w: World, targets: map<Control, Target>): (Owner, World, bool) {
    var (w1, captures) := CaptureAll(Walk(CONTROL_ORDER, targets.Keys), o.baseline.Keys, map[], w);
    if captures.None? then (o, w1, false)
    else
      var o1 := o.(baseline := o.baseline + captures.value);
      var (o2, w2, released) := ReleaseAll(Walk(CONTROL_ORDER, o1.baseline.Keys - targets.Keys), o1, w1);
      if !released then (o2, w2, false)
      else ApplyAll(Walk(CONTROL_ORDER, targets.Keys), targets, o2, w2)
  }

  function Transition(o: Owner, w: World, r: Request): (Owner, World, bool) {
    if !o.status.RecoveryRequired? && Targets(r) == o.applied then (o.(status := Settled(r)), w, true)
    else
      var (o', n, done) := Advance(o, w, Targets(r));
      if done then (o'.(status := Settled(r)), n, true)
      else
        var (o'', n') := Rollback(o', n);
        (o'', n', false)
  }

  // ---------- the invariant ----------

  /** The part of the invariant that holds between any two steps. */
  ghost predicate Holds(o: Owner, w: World, u: User) {
    && Loans(w, u, o.baseline.Keys)
    && (forall c :: c in o.baseline ==> TrueToken(o.baseline[c], c, u))
    && o.applied.Keys <= w.originals.Keys
  }

  /** Control `c` shows what `t` asks for. */
  ghost predicate Shows(w: World, u: User, c: Control, t: Target) {
    c in w.now && c in u && w.now[c].level == Effect(t, u[c].level)
  }

  ghost predicate ShowsAll(w: World, u: User, targets: map<Control, Target>) {
    forall c :: c in targets ==> Shows(w, u, c, targets[c])
  }

  /**
   * Every baseline token is the user's own setting; what is not borrowed is the user's; applied,
   * journaled and held controls are nested, and equal outside recovery; the status tells the truth.
   */
  ghost predicate Inv(o: Owner, w: World, u: User) {
    && Holds(o, w, u)
    && (o.status.Global? ==> o.baseline == map[])
    && (o.status.Active? ==> o.applied != map[] && o.applied.Keys == o.baseline.Keys && ShowsAll(w, u, o.applied))
    && (o.status.RecoveryRequired? ==> o.baseline != map[])
  }

  lemma LendMore(w: World, u: User, lent: set<Control>, more: set<Control>)
    requires Loans(w, u, lent) && lent <= more
    ensures Loans(w, u, more)
  {
    forall c: Control ensures LoanOf(w, u, more, c) { assert LoanOf(w, u, lent, c); }
  }

  lemma {:induction false} CaptureAllKeeps(ks: seq<Control>, held: set<Control>, taken: map<Control, Slot>, w: World, u: User)
    requires Loans(w, u, held)
    requires forall c :: c in taken ==> TrueToken(taken[c], c, u)
    ensures var (n, s) := CaptureAll(ks, held, taken, w);
      && Loans(n, u, held) && n.now == w.now && n.originals == w.originals && n.stray == w.stray
      && (s.Some? ==>
            && (forall c :: c in s.value ==> TrueToken(s.value[c], c, u))
            && (forall c :: c in s.value <==> c in taken || (c in ks && c !in held)))
  {
    hide Loans, OnlyAt, Capture, TrueToken;
    if ks != [] {
      if ks[0] in held {
        CaptureAllKeeps(ks[1..], held, taken, w, u);
      } else {
        CaptureKeeps(w, u, held, ks[0]);
        var (n, s) := Capture(w, ks[0]);
        if s.Some? {
          CaptureAllKeeps(ks[1..], held, taken[ks[0] := s.value], n, u);
        }
      }
    }
  }

  /** Nothing happened to the controls outside `ks`; what was astray still is. */
  ghost predicate Spares(w: World, n: World, ks: seq<Control>) {
    && w.stray <= n.stray
    && (forall c: Control :: c !in ks && c in w.now ==> c in n.now && n.now[c] == w.now[c])
  }

  lemma SparesStep(w: World, n: World, c: Control)
    requires OnlyAt(w, n, c)
    ensures Spares(w, n, [c])
  {
    forall d: Control | d !in [c] && d in w.now ensures d in n.now && n.now[d] == w.now[d] {
      assert c in [c];
      assert SameAt(w, n, d);
    }
  }

  lemma ForgetHolds(o: Owner, w: World, u: User, c: Control)
    requires Holds(o, w, u) && c in o.baseline
    ensures LoanOf(w, u, o.baseline.Keys, c) && TrueToken(o.baseline[c], c, u)
    ensures var (n, ok) := Restore(w, c, o.baseline[c]);
      Holds(if ok then Forget(o, c) else o, n, u) && Spares(w, n, [c])
  {
    var (n, ok) := Restore(w, c, o.baseline[c]);
    RestoreKeeps(w, u, o.baseline.Keys, c, o.baseline[c]);
    SparesStep(w, n, c);
    hide Loans, OnlyAt, Restore, TrueToken, LoanOf;
    assert (o.baseline - {c}).Keys == o.baseline.Keys - {c};
  }

  lemma {:induction false} ReleaseAllKeeps(ks: seq<Control>, o: Owner, w: World, u: User)
    requires Holds(o, w, u) && Distinct(ks) && forall c :: c in ks ==> c in o.baseline
    ensures var (o', n, ok) := ReleaseAll(ks, o, w);
      && Holds(o', n, u) && Spares(w, n, ks)
      && o'.status == o.status
      && (ok ==> o'.baseline.Keys == o.baseline.Keys - set c | c in ks)
      && o'.applied.Keys <= o.applied.Keys
      && (forall c :: c !in ks ==> (c in o'.applied <==> c in o.applied))
      && (forall c :: c in o'.applied ==> o'.applied[c] == o.applied[c])
  {
    hide Holds, Restore;
    if ks != [] {
      ForgetHolds(o, w, u, ks[0]);
      var (m, ok) := Restore(w, ks[0], o.baseline[ks[0]]);
      assert ks == [ks[0]] + ks[1..];
      if ok {
        ReleaseAllKeeps(ks[1..], Forget(o, ks[0]), m, u);
      }
    }
  }

  lemma ApplyHolds(o: Owner, w: World, u: User, c: Control, t: Target)
    requires Holds(o, w, u) && c in o.baseline
    ensures var (n, ok) := Apply(w, c, t);
      && Spares(w, n, [c]) && Holds(o, n, u)
      && (ok ==> Holds(o.(applied := o.applied[c := t]), n, u) && Shows(n, u, c, t))
  {
    var (n, ok) := Apply(w, c, t);
    ApplyKeeps(w, u, o.baseline.Keys, c, t);
    SparesStep(w, n, c);
    Known(w, u, o.baseline.Keys, c);
    hide Loans, OnlyAt, Apply, TrueToken, LoanOf;
  }

  lemma {:induction false} ApplyAllKeeps(ks: seq<Control>, targets: map<Control, Target>, o: Owner, w: World, u: User)
    requires Holds(o, w, u) && Distinct(ks) && forall c :: c in ks ==> c in o.baseline && c in targets
    requires !o.status.RecoveryRequired? ==> forall c :: c in ks && c in o.applied ==> Shows(w, u, c, o.applied[c])
    ensures var (o', n, ok) := ApplyAll(ks, targets, o, w);
      && Holds(o', n, u) && Spares(w, n, ks)
      && o'.baseline == o.baseline && o'.status == o.status
      && (forall c :: c !in ks ==> (c in o'.applied <==> c in o.applied))
      && (forall c :: c !in ks && c in o.applied ==> o'.applied[c] == o.applied[c])
      && (ok ==> forall c :: c in ks ==> c in o'.applied && o'.applied[c] == targets[c] && Shows(n, u, c, targets[c]))
  {
    hide Holds, Apply, Effect;
    if ks != [] {
      var c := ks[0];
      assert ks == [c] + ks[1..];
      if UpToDate(o, c, targets[c]) {
        ApplyAllKeeps(ks[1..], targets, o, w, u);
      } else {
        ApplyHolds(o, w, u, c, targets[c]);
        var (m, ok) := Apply(w, c, targets[c]);
        if ok {
          var o1 := o.(applied := o.applied[c := targets[c]]);
          assert !o.status.RecoveryRequired? ==> forall d :: d in ks[1..] && d in o1.applied ==> Shows(m, u, d, o1.applied[d]);
          ApplyAllKeeps(ks[1..], targets, o1, m, u);
        }
      }
    }
  }

  lemma {:induction false} RestoreEachKeeps(ks: seq<Control>, o: Owner, w: World, u: User, clean: bool)
    requires Holds(o, w, u) && Distinct(ks) && forall c :: c in ks ==> c in o.baseline
    ensures var (o', n, done) := RestoreEach(ks, o, w, clean);
      && Holds(o', n, u) && Spares(w, n, ks)
      && o'.baseline.Keys <= o.baseline.Keys
      && (forall c :: c !in ks ==> (c in o'.baseline <==> c in o.baseline))
      && (done <==> clean && forall c :: c in ks ==> c !in o'.baseline)
  {
    hide Holds, Restore;
    if ks != [] {
      ForgetHolds(o, w, u, ks[0]);
      var (m, ok) := Restore(w, ks[0], o.baseline[ks[0]]);
      var o1 := if ok then Forget(o, ks[0]) else o;
      assert ks == [ks[0]] + ks[1..];
      RestoreEachKeeps(ks[1..], o1, m, u, clean && ok);
    }
  }

  /** A rollback tells the truth: it is clean exactly when nothing is left borrowed. */
  lemma RollbackKeeps(o: Owner, w: World, u: User)
    requires Holds(o, w, u)
    ensures var (o', n) := Rollback(o, w); Inv(o', n, u) && !o'.status.Active? && w.stray <= n.stray
  {
    WalkAll(o.baseline.Keys);
    var ks := Walk(CONTROL_ORDER, o.baseline.Keys);
    RestoreEachClean(o, w, u, ks);
    hide Loans, TrueToken, RestoreEach, Walk;
  }

  lemma RestoreEachClean(o: Owner, w: World, u: User, ks: seq<Control>)
    requires Holds(o, w, u) && Distinct(ks) && forall c :: c in ks <==> c in o.baseline
    ensures var (o', n, clean) := RestoreEach(ks, o, w, true);
      Holds(o', n, u) && (clean <==> o'.baseline == map[]) && w.stray <= n.stray
  {
    RestoreEachKeeps(ks, o, w, u, true);
    hide Holds, RestoreEach;
    var (o', n, clean) := RestoreEach(ks, o, w, true);
    if clean {
      assert forall c :: c in o'.baseline ==> c in ks;
      assert o'.baseline == map[];
    }
  }

  // ---------- the theorem ----------

  /** Every control is what the user set, overridden by exactly `targets`. */
  ghost predicate Overridden(w: World, u: User, targets: map<Control, Target>) {
    && ShowsAll(w, u, targets)
    && (forall c: Control :: c !in targets ==> Untouched(w, u, c))
  }

  lemma LentIsOverridden(o: Owner, w: World, u: User)
    requires Holds(o, w, u) && o.baseline.Keys == o.applied.Keys && ShowsAll(w, u, o.applied)
    ensures Overridden(w, u, o.applied)
  {
    forall c: Control | c !in o.applied ensures Untouched(w, u, c) { Known(w, u, o.baseline.Keys, c); }
  }

  lemma NestedKeys(o: Owner, w: World, u: User)
    requires Holds(o, w, u)
    ensures o.applied.Keys <= w.originals.Keys <= o.baseline.Keys
  {
    forall c | c in w.originals ensures c in o.baseline { Known(w, u, o.baseline.Keys, c); }
  }

  /** Taking captured originals into the baseline borrows nothing yet. */
  lemma CapturePhase(o: Owner, w: World, u: User, targets: map<Control, Target>)
    requires Holds(o, w, u)
    ensures var (n, s) := CaptureAll(Walk(CONTROL_ORDER, targets.Keys), o.baseline.Keys, map[], w);
      && n.now == w.now && n.stray == w.stray && Holds(o, n, u)
      && (s.Some? ==>
            && Holds(o.(baseline := o.baseline + s.value), n, u)
            && (o.baseline + s.value).Keys == o.baseline.Keys + targets.Keys)
  {
    hide CaptureAll, Loans, TrueToken, Walk;
    WalkAll(targets.Keys);
    var ks := Walk(CONTROL_ORDER, targets.Keys);
    CaptureAllKeeps(ks, o.baseline.Keys, map[], w, u);
    var (n, s) := CaptureAll(ks, o.baseline.Keys, map[], w);
    if s.Some? {
      TakeHolds(o, n, u, s.value);
      assert s.value.Keys == targets.Keys - o.baseline.Keys;
      MergedKeys(o.baseline, s.value, targets.Keys);
    }
  }

  lemma MergedKeys(a: map<Control, Slot>, b: map<Control, Slot>, ks: set<Control>)
    requires b.Keys == ks - a.Keys
    ensures (a + b).Keys == a.Keys + ks
  {
    assert (a + b).Keys == a.Keys + b.Keys;
  }

  lemma TakeHolds(o: Owner, w: World, u: User, taken: map<Control, Slot>)
    requires Holds(o, w, u) && forall c :: c in taken ==> TrueToken(taken[c], c, u)
    ensures Holds(o.(baseline := o.baseline + taken), w, u)
  {
    LendMore(w, u, o.baseline.Keys, (o.baseline + taken).Keys);
    hide Loans, TrueToken;
    forall c | c in o.baseline + taken ensures TrueToken((o.baseline + taken)[c], c, u) {}
  }

  /** Whatever the next profile does not want is given back before anything new is applied. */
  lemma ReleasePhase(o: Owner, w: World, u: User, targets: map<Control, Target>)
    requires Holds(o, w, u) && targets.Keys <= o.baseline.Keys
    requires !o.status.RecoveryRequired? ==> ShowsAll(w, u, o.applied)
    ensures var (o', n, ok) := ReleaseAll(Walk(CONTROL_ORDER, o.baseline.Keys - targets.Keys), o, w);
      && Holds(o', n, u) && o'.status == o.status && w.stray <= n.stray
      && (ok ==> o'.baseline.Keys == targets.Keys)
      && (ok && !o.status.RecoveryRequired? ==> ShowsAll(n, u, o'.applied))
  {
    hide Walk, ReleaseAll, Effect, Loans, TrueToken;
    WalkAll(o.baseline.Keys - targets.Keys);
    var ks := Walk(CONTROL_ORDER, o.baseline.Keys - targets.Keys);
    ReleaseAllKeeps(ks, o, w, u);
    var (o', n, ok) := ReleaseAll(ks, o, w);
    NestedKeys(o', n, u);
    hide Holds;
    assert (set c | c in ks) == o.baseline.Keys - targets.Keys;
  }

  lemma ApplyPhase(o: Owner, w: World, u: User, targets: map<Control, Target>)
    requires Holds(o, w, u) && targets.Keys == o.baseline.Keys
    requires !o.status.RecoveryRequired? ==> ShowsAll(w, u, o.applied)
    ensures var (o', n, ok) := ApplyAll(Walk(CONTROL_ORDER, targets.Keys), targets, o, w);
      && Holds(o', n, u) && w.stray <= n.stray
      && (ok ==> o'.baseline == o.baseline && o'.applied == targets && ShowsAll(n, u, targets))
  {
    WalkAll(targets.Keys);
    var ks := Walk(CONTROL_ORDER, targets.Keys);
    ApplyAllKeeps(ks, targets, o, w, u);
    var (o', n, ok) := ApplyAll(ks, targets, o, w);
    NestedKeys(o', n, u);
    if ok {
      Settles(ks, o', n, u, targets);
    }
  }

  lemma Settles(ks: seq<Control>, o: Owner, w: World, u: User, targets: map<Control, Target>)
    requires forall c :: c in targets ==> c in ks
    requires forall c :: c in ks ==> c in targets && c in o.applied && o.applied[c] == targets[c] && Shows(w, u, c, targets[c])
    requires o.applied.Keys <= targets.Keys
    ensures o.applied == targets && ShowsAll(w, u, targets)
  {
    hide Shows;
    assert forall c :: c in targets ==> c in ks && c in o.applied;
  }

  lemma AdvanceKeeps(o: Owner, w: World, u: User, targets: map<Control, Target>)
    requires Holds(o, w, u)
    requires !o.status.RecoveryRequired? ==> ShowsAll(w, u, o.applied)
    ensures var (o', n, ok) := Advance(o, w, targets);
      && Holds(o', n, u) && w.stray <= n.stray
      && (ok ==> o'.baseline.Keys == targets.Keys && o'.applied == targets && ShowsAll(n, u, targets))
  {
    hide Holds, Walk, CaptureAll, ReleaseAll, ApplyAll, ShowsAll;
    CapturePhase(o, w, u, targets);
    var (w1, captures) := CaptureAll(Walk(CONTROL_ORDER, targets.Keys), o.baseline.Keys, map[], w);
    if captures.Some? {
      var o1 := o.(baseline := o.baseline + captures.value);
      if !o.status.RecoveryRequired? { ShowsSame(w, w1, u, o.applied); }
      ReleasePhase(o1, w1, u, targets);
      var (o2, w2, released) := ReleaseAll(Walk(CONTROL_ORDER, o1.baseline.Keys - targets.Keys), o1, w1);
      if released {
        ApplyPhase(o2, w2, u, targets);
      }
    }
  }

  /**
   * One foreground change, whatever fails on the way and wherever the process dies: the invariant
   * is kept; on success every control is exactly what the user set overridden by the targets of
   * this request, no matter what was borrowed before; and a failure never leaves the status active.
   */
  lemma TransitionKeeps(o: Owner, w: World, u: User, r: Request)
    requires Inv(o, w, u)
    ensures var (o', n, ok) := Transition(o, w, r);
      && Inv(o', n, u) && w.stray <= n.stray
      && (ok ==> o'.status == Settled(r) && o'.applied == Targets(r) && Overridden(n, u, Targets(r)))
      && (!ok ==> !o'.status.Active?)
  {
    hide Holds, Advance, Rollback, ShowsAll, Overridden;
    if !o.status.RecoveryRequired? && Targets(r) == o.applied {
      UnchangedKeeps(o, w, u, r);
    } else {
      if o.status.Global? {
        NestedKeys(o, w, u);
        ShowsNone(w, u);
        assert o.applied == map[];
      }
      AdvanceKeeps(o, w, u, Targets(r));
      var (o', n, done) := Advance(o, w, Targets(r));
      if done {
        LentIsOverridden(o', n, u);
        RestatusHolds(o', n, u, Settled(r));
      } else {
        RollbackKeeps(o', n, u);
      }
    }
  }

  /** The same targets again cost nothing and are still in force. */
  lemma UnchangedKeeps(o: Owner, w: World, u: User, r: Request)
    requires Inv(o, w, u) && !o.status.RecoveryRequired? && Targets(r) == o.applied
    ensures Inv(o.(status := Settled(r)), w, u) && Overridden(w, u, Targets(r))
  {
    NestedKeys(o, w, u);
    ShowsNone(w, u);
    RestatusHolds(o, w, u, Settled(r));
    if o.status.Global? {
      assert o.applied == map[];
    }
    LentIsOverridden(o, w, u);
  }

  lemma ShowsNone(w: World, u: User)
    ensures ShowsAll(w, u, map[])
  {
  }

  lemma ShowsSame(w: World, n: World, u: User, targets: map<Control, Target>)
    requires w.now == n.now && ShowsAll(w, u, targets)
    ensures ShowsAll(n, u, targets)
  {
    forall c | c in targets ensures Shows(n, u, c, targets[c]) { assert Shows(w, u, c, targets[c]); }
  }

  lemma RestatusHolds(o: Owner, w: World, u: User, s: Status)
    requires Holds(o, w, u)
    ensures Holds(o.(status := s), w, u)
  {
  }

  // ---------- one process, change after change ----------

  /** One foreground change with an adapter of its own, which starts and ends without captures. */
  function Reconcile(o: Owner, w: World, r: Request): (Owner, World, bool) {
    var (o', n, ok) := Transition(o, w.(captured := map[]), r);
    (o', n.(captured := map[]), ok)
  }

  lemma UncapturedInv(o: Owner, w: World, u: User)
    requires Inv(o, w, u)
    ensures Inv(o, w.(captured := map[]), u)
  {
    var n := w.(captured := map[]);
    forall c: Control ensures LoanOf(n, u, o.baseline.Keys, c) { FrameOf(w, n, u, o.baseline.Keys, c); }
    hide LoanOf;
    forall c | c in o.applied && Shows(w, u, c, o.applied[c]) ensures Shows(n, u, c, o.applied[c]) {}
  }

  lemma ReconcileKeeps(o: Owner, w: World, u: User, r: Request)
    requires Inv(o, w, u)
    ensures var (o', n, ok) := Reconcile(o, w, r);
      && Inv(o', n, u) && n.captured == map[] && w.stray <= n.stray
      && (ok ==> o'.status == Settled(r) && o'.applied == Targets(r) && Overridden(n, u, Targets(r)))
      && (!ok ==> !o'.status.Active?)
  {
    var v := w.(captured := map[]);
    UncapturedInv(o, w, u);
    TransitionKeeps(o, v, u, r);
    var (o', n, ok) := Transition(o, v, r);
    UncapturedInv(o', n, u);
    hide Inv, Transition, LoanOf;
    if ok { RecapturedOverridden(n, u, Targets(r)); }
  }

  lemma RecapturedOverridden(w: World, u: User, targets: map<Control, Target>)
    requires Overridden(w, u, targets)
    ensures Overridden(w.(captured := map[]), u, targets)
  {
    var n := w.(captured := map[]);
    forall c | c in targets ensures Shows(n, u, c, targets[c]) { assert Shows(w, u, c, targets[c]); }
    forall c: Control | c !in targets ensures Untouched(n, u, c) { assert Untouched(w, u, c); }
  }

  /** Any number of foreground changes; the flag is the success of the last. */
  function Follow(o: Owner, w: World, rs: seq<Request>): (Owner, World, bool) {
    if rs == [] then (o, w, true)
    else
      var (o', n, _) := Follow(o, w, rs[..|rs| - 1]);
      Reconcile(o', n, rs[|rs| - 1])
  }

  /**
   * The ownership invariant over every run of foreground changes, with any failures, whatever an
   * unfinished restore left on the device: tokens are the user's settings, what is not borrowed is
   * the user's, the three indices are nested and equal outside recovery, the status tells the
   * truth, and a change that succeeds leaves exactly its targets over the user's settings.
   */
  lemma {:induction false} EveryRunOwns(o: Owner, w: World, u: User, rs: seq<Request>)
    requires Inv(o, w, u)
    ensures var (o', n, ok) := Follow(o, w, rs);
      && Inv(o', n, u)
      && o'.applied.Keys <= n.originals.Keys <= o'.baseline.Keys
      && (!o'.status.RecoveryRequired? ==> o'.applied.Keys == n.originals.Keys == o'.baseline.Keys)
      && (o'.status.Active? <==> o'.applied != map[] && !o'.status.RecoveryRequired?)
      && (o'.status.Global? <==> o'.baseline == map[])
      && (rs != [] && ok ==>
            o'.status == Settled(rs[|rs| - 1]) && o'.applied == Targets(rs[|rs| - 1]) && Overridden(n, u, Targets(rs[|rs| - 1])))
      && (rs != [] && !ok ==> !o'.status.Active?)
    decreases |rs|
  {
    hide Overridden, Reconcile;
    if rs != [] {
      EveryRunOwns(o, w, u, rs[..|rs| - 1]);
      var (o', n, _) := Follow(o, w, rs[..|rs| - 1]);
      ReconcileKeeps(o', n, u, rs[|rs| - 1]);
    }
    var (o', n, _) := Follow(o, w, rs);
    IndicesOf(o', n, u);
  }

  /** What the invariant says of applied, journaled and held controls and of the status. */
  lemma IndicesOf(o: Owner, w: World, u: User)
    requires Inv(o, w, u)
    ensures o.applied.Keys <= w.originals.Keys <= o.baseline.Keys
    ensures !o.status.RecoveryRequired? ==> o.applied.Keys == w.originals.Keys == o.baseline.Keys
    ensures o.status.Active? <==> o.applied != map[] && !o.status.RecoveryRequired?
    ensures o.status.Global? <==> o.baseline == map[]
  {
    NestedKeys(o, w, u);
    if o.status.Global? {
      assert o.applied == map[];
    }
  }
}

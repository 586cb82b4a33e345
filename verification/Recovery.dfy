// The whole life of Per-App Controls: foreground changes, user commands, saves, process deaths,
// restarts and recovery from the journal, in any order and with any failures.
module Recovery {
  import opened Controls
  import opened ControlOrder
  import opened Adapter
  import opened Ownership
  import opened Wrappers

  // ---------- recovery ----------

  /** Restores the listed journal entries in turn, up to the first failure. */
  function RestoreSaved(ks: seq<Control>, saved: map<Control, Slot>, w: World): (World, bool) {
    if ks == [] || ks[0] !in saved then (w, ks == [])
    else
      var (n, ok) := Restore(w, ks[0], saved[ks[0]]);
      if ok then RestoreSaved(ks[1..], saved, n) else (n, false)
  }

  /** Reads the journal and gives everything in it back. */
  function Recover(w: World): (World, bool) {
    if !Acts(w) then (Stop(w), false)
    else
      var o := w.script.outcome;
      var n := w.(originals := if o.kind.Succeeds? then w.journal else w.originals,
                  alive := !o.kind.Dies?, script := w.script.rest);
      if !o.kind.Succeeds? then (n, false)
      else RestoreSaved(Walk(KEY_ORDER, n.originals.Keys), n.originals, n)
  }

  /** Control `c` of a process that has just started. */
  ghost predicate FreshAt(w: World, u: User, c: Control) {
    && c in w.now && c in u
    && (if c in w.journal then w.journal[c] == u[c] else w.now[c] == u[c])
    && (c !in w.stray ==> SafeFor(w, u, c) && w.now[c].prefs == u[c].prefs)
  }

  /** A process that has just started: nothing read from the journal yet. */
  ghost predicate Fresh(w: World, u: User) {
    w.originals == map[] && w.captured == map[] && forall c: Control :: FreshAt(w, u, c)
  }

  /** A process that has not completed recovery. */
  ghost predicate Waiting(w: World, u: User) {
    Fresh(w, u) || Loans(w, u, w.originals.Keys)
  }

  lemma FreshLoans(w: World, u: User)
    requires Fresh(w, u)
    ensures Loans(w.(originals := w.journal), u, w.journal.Keys)
  {
    var n := w.(originals := w.journal);
    forall c: Control ensures LoanOf(n, u, w.journal.Keys, c) { assert FreshAt(w, u, c); }
  }

  lemma TokenOf(w: World, u: User, c: Control)
    requires Loans(w, u, w.originals.Keys) && c in w.originals
    ensures TrueToken(w.originals[c], c, u)
  {
    Known(w, u, w.originals.Keys, c);
  }

  lemma {:induction false} RestoreSavedKeeps(ks: seq<Control>, saved: map<Control, Slot>, w: World, u: User)
    requires Loans(w, u, w.originals.Keys) && Distinct(ks)
    requires forall c :: c in ks ==> c in w.originals && c in saved && TrueToken(saved[c], c, u)
    ensures var (n, ok) := RestoreSaved(ks, saved, w);
      && Loans(n, u, n.originals.Keys) && Spares(w, n, ks) && n.stray == w.stray && n.captured == w.captured
      && (ok && w.alive ==> n.alive)
      && (ok ==> n.originals.Keys == w.originals.Keys - set c | c in ks)
  {
    if ks != [] {
      var c := ks[0];
      RestoreKeeps(w, u, w.originals.Keys, c, saved[c]);
      RestoreCaptures(w, c, saved[c]);
      var (m, ok) := Restore(w, c, saved[c]);
      SparesStep(w, m, c);
      hide Loans, OnlyAt, Restore, TrueToken, LoanOf;
      assert ks == [c] + ks[1..];
      if ok {
        RestoreSavedKeeps(ks[1..], saved, m, u);
      }
    }
  }

  lemma PutBackElsewhere(w: World, c: Control, s: Slot, d: Control)
    requires d != c && d in w.now
    ensures d in PutBack(w, c, s).0.now && PutBack(w, c, s).0.now[d] == w.now[d]
    ensures PutBack(w, c, s).0.captured == w.captured
  {
  }

  lemma JournalElsewhere(w: World, entries: map<Control, Slot>)
    ensures Journal(w, entries).0.now == w.now && Journal(w, entries).0.captured == w.captured
  {
  }

  lemma RestoreElsewhere(w: World, c: Control, s: Slot, d: Control)
    requires d != c && d in w.now
    ensures d in Restore(w, c, s).0.now && Restore(w, c, s).0.now[d] == w.now[d]
  {
    hide PutBack, Journal;
    PutBackElsewhere(w, c, s, d);
    var m := PutBack(w, c, s).0;
    JournalElsewhere(m, m.originals - {c});
  }

  lemma RestoreCaptures(w: World, c: Control, s: Slot)
    ensures Restore(w, c, s).0.captured == w.captured
  {
    assert PutBack(w, c, s).0.captured == w.captured;
    hide PutBack, Journal;
    var m := PutBack(w, c, s).0;
    JournalElsewhere(m, m.originals - {c});
  }

  /** The loan invariant does not look at the script, the write log or whether the process lives. */
  lemma SameLoans(w: World, n: World, u: User, lent: set<Control>)
    requires Loans(w, u, lent)
    requires n.now == w.now && n.journal == w.journal && n.conf == w.conf && n.originals == w.originals
    requires n.captured == w.captured && n.stray == w.stray && (n.alive ==> n.journal == n.originals)
    ensures Loans(n, u, lent)
  {
    forall c: Control ensures LoanOf(n, u, lent, c) { FrameOf(w, n, u, lent, c); }
  }

  /**
   * Recovery is safe to fail or die in at any step, and safe to repeat; when it completes, every
   * control is the user's own and the journal is empty.
   */
  lemma RecoverKeeps(w: World, u: User)
    requires Waiting(w, u) && w.captured == map[]
    ensures var (n, ok) := Recover(w);
      && Waiting(n, u) && n.captured == map[] && n.stray == w.stray
      && (ok ==> n.journal == map[] && Inv(DEFAULT, n, u) && Overridden(n, u, map[]))
  {
    if Acts(w) && w.script.outcome.kind.Succeeds? {
      var n := w.(originals := w.journal, script := w.script.rest);
      ReadJournal(w, n, u);
      RestoreAllSaved(n, u);
    } else {
      StillWaiting(w, Recover(w).0, u);
    }
  }

  lemma RestoreAllSaved(w: World, u: User)
    requires Loans(w, u, w.originals.Keys) && w.alive
    ensures var (n, ok) := RestoreSaved(Walk(KEY_ORDER, w.originals.Keys), w.originals, w);
      && Waiting(n, u) && n.captured == w.captured && n.stray == w.stray
      && (ok ==> n.journal == map[] && Inv(DEFAULT, n, u) && Overridden(n, u, map[]))
  {
    var ks := Walk(KEY_ORDER, w.originals.Keys);
    WalkAll(w.originals.Keys);
    forall c | c in ks ensures TrueToken(w.originals[c], c, u) { TokenOf(w, u, c); }
    RestoreSavedKeeps(ks, w.originals, w, u);
    hide Loans, RestoreSaved, Walk, TrueToken, Inv, Overridden, Spares;
    var (n, ok) := RestoreSaved(ks, w.originals, w);
    if ok {
      assert n.originals.Keys == {};
      AllReturned(n, u);
    }
  }

  lemma ReadJournal(w: World, n: World, u: User)
    requires Waiting(w, u) && w.alive && w.script.Then? && n == w.(originals := w.journal, script := w.script.rest)
    ensures Loans(n, u, n.originals.Keys)
  {
    if Fresh(w, u) { FreshLoans(w, u); }
    SameLoans(w.(originals := w.journal), n, u, w.journal.Keys);
  }

  lemma AllReturned(w: World, u: User)
    requires Loans(w, u, w.originals.Keys) && w.originals.Keys == {} && w.alive
    ensures w.journal == map[] && Inv(DEFAULT, w, u) && Overridden(w, u, map[])
  {
    forall c: Control ensures Untouched(w, u, c) { Known(w, u, {}, c); }
    assert DEFAULT.baseline.Keys == {};
  }

  lemma StillWaiting(w: World, n: World, u: User)
    requires Waiting(w, u) && n == w.(alive := n.alive, script := n.script) && (n.alive ==> w.alive)
    ensures Waiting(n, u)
  {
    if Fresh(w, u) {
      forall c: Control ensures FreshAt(n, u, c) { assert FreshAt(w, u, c); }
    } else {
      SameLoans(w, n, u, w.originals.Keys);
    }
  }

  // ---------- the machine ----------

  /**
   * `user` is what the user last set. `regarded` is what the daemon goes by: the same, except for
   * controls that went astray, where it is an older setting or whatever a new process found.
   */
  datatype Machine = Machine(owner: Owner, world: World, user: User, regarded: User, ready: bool)

  /**
   * A foreground change, a recovery attempt, a save of the preferences, a user command that sets
   * a control, or a restart of the process with the outcomes its steps will have.
   */
  datatype Event =
    | Foreground(request: Request)
    | Recovering
    | Saving
    | Choosing(control: Control, setting: Slot)
    | Restarting(script: Script)

  /**
   * Changes the effective state to `candidate` once it is saved. The preferences file always
   * receives the user's groups, never an override.
   */
  function Mutate(w: World, candidate: map<Control, Slot>): (World, bool) {
    if !Acts(w) then (Stop(w), false)
    else
      var o := w.script.outcome;
      (w.(conf := if o.kind.Succeeds? then map c: Control | c in candidate :: UserGroup(w.originals, candidate, c) else w.conf,
          now := if o.kind.Succeeds? then candidate else w.now,
          alive := !o.kind.Dies?, script := w.script.rest),
       o.kind.Succeeds?)
  }

  function Save(w: World): (World, bool) {
    Mutate(w, w.now)
  }

  /**
   * A user command for one control: refused while its original is journaled, else a device write
   * and then the preference, which only counts once saved. A command for a control whose original
   * is held or waiting to be recovered counts as leaving it astray.
   */
  function Choose(o: Owner, w: World, c: Control, s: Slot): World {
    if c in w.originals || c !in w.now || !Acts(w) then w
    else
      var k := w.script.outcome;
      var n := SetLevel(o, w, c, if k.kind.Succeeds? then s.level else k.left.level);
      if k.kind.Succeeds? then Mutate(n, w.now[c := s]).0 else n
  }

  /** The daemon goes by an older setting of `c`, which it still means to give back. */
  predicate IsHeld(o: Owner, w: World, c: Control) {
    c in o.baseline || c in w.journal
  }

  /** The device write of a user command. */
  function SetLevel(o: Owner, w: World, c: Control, level: Level): World
    requires c in w.now && w.script.Then?
  {
    w.(now := w.now[c := Slot(level, w.now[c].prefs)],
       stray := if IsHeld(o, w, c) then w.stray + {c} else w.stray,
       alive := !w.script.outcome.kind.Dies?, script := w.script.rest)
  }

  /** A new process: memory is gone, preferences come from disk, devices are as they were left. */
  function Restart(w: World, script: Script): World {
    w.(now := map c: Control | c in w.now :: Slot(w.now[c].level, if c in w.conf then w.conf[c] else w.now[c].prefs),
       originals := map[], captured := map[], alive := true, script := script)
  }

  /** What a new process goes by: the user's settings, or what it found where nothing was on record. */
  function Regard(u: User, w: World, found: map<Control, Slot>): User {
    map c | c in u :: if c in w.stray && c !in w.journal && c in found then found[c] else u[c]
  }

  function Step(m: Machine, e: Event): Machine {
    match e
    case Foreground(r) =>
      if !m.world.alive || !m.ready then m
      else var (o, w, _) := Reconcile(m.owner, m.world, r); m.(owner := o, world := w)
    case Recovering =>
      if !m.world.alive || m.ready then m
      else var (w, ok) := Recover(m.world); m.(world := w, ready := ok)
    case Saving => m.(world := Save(m.world).0)
    case Choosing(c, s) =>
      var w := Choose(m.owner, m.world, c, s);
      if w == m.world || c !in w.now then m.(world := w)
      else
        m.(world := w, user := m.user[c := w.now[c]],
           regarded := if IsHeld(m.owner, m.world, c) then m.regarded else m.regarded[c := w.now[c]])
    case Restarting(script) =>
      var w := Restart(m.world, script);
      m.(owner := DEFAULT, world := w, regarded := Regard(m.regarded, m.world, w.now), ready := false)
  }

  function Run(m: Machine, es: seq<Event>): Machine
    decreases |es|
  {
    if es == [] then m else Run(Step(m, es[0]), es[1..])
  }

  /** What of control `c` survives the process. */
  ghost predicate SurvivesAt(w: World, u: User, c: Control) {
    && c in w.now && c in u
    && (c in w.journal ==> w.journal[c] == u[c])
    && (c !in w.stray ==> SafeFor(w, u, c))
  }

  ghost predicate Survives(w: World, u: User) {
    forall c: Control :: SurvivesAt(w, u, c)
  }

  /** The daemon goes by the user's own setting of every control that never went astray. */
  ghost predicate Agree(m: Machine) {
    forall c: Control :: c in m.user && c in m.regarded && (c !in m.world.stray ==> m.regarded[c] == m.user[c])
  }

  /** What holds of every reachable machine. */
  ghost predicate Sound(m: Machine) {
    && Survives(m.world, m.regarded)
    && Agree(m)
    && (m.world.alive ==>
          && m.world.captured == map[]
          && (if m.ready then Inv(m.owner, m.world, m.regarded) else m.owner == DEFAULT && Waiting(m.world, m.regarded)))
  }

  lemma LoansSurvive(w: World, u: User, lent: set<Control>)
    requires Loans(w, u, lent)
    ensures Survives(w, u)
  {
    forall c: Control ensures SurvivesAt(w, u, c) { assert LoanOf(w, u, lent, c); }
  }

  lemma WaitingSurvives(w: World, u: User)
    requires Waiting(w, u)
    ensures Survives(w, u)
  {
    if Fresh(w, u) {
      forall c: Control ensures SurvivesAt(w, u, c) { assert FreshAt(w, u, c); }
    } else {
      LoansSurvive(w, u, w.originals.Keys);
    }
  }

  /** Changing the world within its invariant, with no control less astray. */
  lemma ReadySound(m: Machine, n: Machine)
    requires Agree(m) && Inv(n.owner, n.world, n.regarded) && n.world.captured == map[] && n.ready
    requires n.user == m.user && n.regarded == m.regarded && m.world.stray <= n.world.stray
    ensures Sound(n)
  {
    LoansSurvive(n.world, n.regarded, n.owner.baseline.Keys);
  }

  lemma ForegroundSound(m: Machine, r: Request)
    requires Sound(m)
    ensures Sound(Step(m, Foreground(r)))
  {
    if m.world.alive && m.ready {
      ReconcileKeeps(m.owner, m.world, m.regarded, r);
      hide Inv, Reconcile, Survives, Loans;
      ReadySound(m, Step(m, Foreground(r)));
    }
  }

  lemma RecoveringSound(m: Machine)
    requires Sound(m)
    ensures Sound(Step(m, Recovering))
  {
    if m.world.alive && !m.ready {
      RecoverKeeps(m.world, m.regarded);
      hide Inv, Recover, Survives, Loans, Fresh;
      WaitingSurvives(Recover(m.world).0, m.regarded);
    }
  }

  lemma RestartingSound(m: Machine, script: Script)
    requires Sound(m)
    ensures Sound(Step(m, Restarting(script)))
  {
    var n := Step(m, Restarting(script));
    forall c: Control ensures FreshAt(n.world, n.regarded, c) {
      assert SurvivesAt(m.world, m.regarded, c);
    }
    assert Fresh(n.world, n.regarded);
    WaitingSurvives(n.world, n.regarded);
  }

  // ---------- saves and user commands ----------

  /** Every control's group behind the effective preferences is the user's. */
  ghost predicate UserGroups(w: World, u: User) {
    forall c: Control :: c in w.now && c in u && (c !in w.stray ==> UserGroup(w.originals, w.now, c) == u[c].prefs)
  }

  /** The preferences file holds the user's groups. */
  ghost predicate ConfTrue(w: World, u: User) {
    forall c: Control :: c !in w.stray ==> c in u && c in w.conf && w.conf[c] == u[c].prefs
  }

  lemma LoansGroups(w: World, u: User, lent: set<Control>)
    requires Loans(w, u, lent)
    ensures UserGroups(w, u) && ConfTrue(w, u)
  {
    forall c: Control
      ensures c in w.now && c in u
      ensures c !in w.stray ==> UserGroup(w.originals, w.now, c) == u[c].prefs && c in w.conf && w.conf[c] == u[c].prefs
    {
      assert LoanOf(w, u, lent, c);
    }
  }

  lemma WaitingGroups(w: World, u: User)
    requires Waiting(w, u)
    ensures UserGroups(w, u) && ConfTrue(w, u)
  {
    if Fresh(w, u) {
      forall c: Control
        ensures c in w.now && c in u
        ensures c !in w.stray ==> UserGroup(w.originals, w.now, c) == u[c].prefs && c in w.conf && w.conf[c] == u[c].prefs
      {
        assert FreshAt(w, u, c);
      }
    } else {
      LoansGroups(w, u, w.originals.Keys);
    }
  }

  lemma SaveEffect(w: World, u: User)
    requires UserGroups(w, u) && ConfTrue(w, u)
    ensures ConfTrue(Save(w).0, u)
  {
  }

  /** A save in the middle of any loans writes the user's own preferences. */
  lemma SaveWritesUser(w: World, u: User, lent: set<Control>)
    requires Loans(w, u, lent)
    ensures var (n, ok) := Save(w);
      forall c: Control :: c !in w.stray ==> c in u && c in n.conf && n.conf[c] == u[c].prefs
  {
    hide Loans, UserGroups, Save;
    LoansGroups(w, u, lent);
    SaveEffect(w, u);
    SaveElsewhere(w);
  }

  lemma SaveElsewhere(w: World)
    ensures var n := Save(w).0; n == w.(conf := n.conf, alive := n.alive, script := n.script) && (n.alive ==> w.alive)
  {
  }

  /** Replacing the preferences file by one with the same contents changes nothing else. */
  lemma ResavedLoans(w: World, n: World, u: User, lent: set<Control>)
    requires Loans(w, u, lent) && ConfTrue(n, u)
    requires n == w.(conf := n.conf, alive := n.alive, script := n.script) && (n.alive ==> w.alive)
    ensures Loans(n, u, lent)
  {
    forall c: Control ensures LoanOf(n, u, lent, c) { assert LoanOf(w, u, lent, c); }
  }

  lemma ResavedFresh(w: World, n: World, u: User)
    requires Fresh(w, u) && ConfTrue(n, u)
    requires n == w.(conf := n.conf, alive := n.alive, script := n.script)
    ensures Fresh(n, u)
  {
    forall c: Control ensures FreshAt(n, u, c) { assert FreshAt(w, u, c); }
  }

  lemma ResavedInv(o: Owner, w: World, n: World, u: User)
    requires Inv(o, w, u) && ConfTrue(n, u)
    requires n == w.(conf := n.conf, alive := n.alive, script := n.script) && (n.alive ==> w.alive)
    ensures Inv(o, n, u)
  {
    ResavedLoans(w, n, u, o.baseline.Keys);
    hide Loans;
    forall c | c in o.applied && Shows(w, u, c, o.applied[c]) ensures Shows(n, u, c, o.applied[c]) {}
  }

  lemma SavingSound(m: Machine)
    requires Sound(m)
    ensures Sound(Step(m, Saving))
  {
    var w, u, n := m.world, m.regarded, Save(m.world).0;
    SaveElsewhere(w);
    if m.world.alive {
      if m.ready {
        LoansGroups(w, u, m.owner.baseline.Keys);
        SaveEffect(w, u);
        ResavedInv(m.owner, w, n, u);
        LoansSurvive(n, u, m.owner.baseline.Keys);
      } else {
        WaitingGroups(w, u);
        SaveEffect(w, u);
        if Fresh(w, u) { ResavedFresh(w, n, u); } else { ResavedLoans(w, n, u, w.originals.Keys); }
        WaitingSurvives(n, u);
      }
    }
    hide Survives, Waiting, Inv, Loans;
  }

  lemma ChooseIs(o: Owner, w: World, c: Control, s: Slot)
    requires Acts(w) && c in w.now && c !in w.originals
    ensures var k := w.script.outcome;
      var n := SetLevel(o, w, c, if k.kind.Succeeds? then s.level else k.left.level);
      Choose(o, w, c, s) == if k.kind.Succeeds? then Mutate(n, w.now[c := s]).0 else n
  {
  }

  /** What a user command leaves behind, whether or not it completes. */
  lemma ChooseEffect(o: Owner, w: World, u: User, c: Control, s: Slot)
    requires UserGroups(w, u) && ConfTrue(w, u)
    requires Acts(w) && c in w.now && c in u && c !in w.originals
    requires c !in w.stray && !IsHeld(o, w, c) ==> w.now[c] == u[c]
    ensures ChosenFrom(o, w, Choose(o, w, c, s), c)
    ensures var n := Choose(o, w, c, s); ConfTrue(n, u[c := n.now[c]])
  {
    hide SetLevel, Mutate, UserGroup, UserGroups, Choose;
    ChooseIs(o, w, c, s);
    var k := w.script.outcome;
    var level := if k.kind.Succeeds? then s.level else k.left.level;
    SetLevelFrom(o, w, c, level);
    var n := SetLevel(o, w, c, level);
    if k.kind.Succeeds? {
      ChosenGroups(w, n.stray, w.now[c := s], u, c);
      MutatedConf(n, w.now[c := s], u[c := s]);
    }
  }

  lemma SetLevelFrom(o: Owner, w: World, c: Control, level: Level)
    requires c in w.now && w.script.Then?
    ensures var n := SetLevel(o, w, c, level);
      ChosenFrom(o, w, n, c) && n.conf == w.conf && n.now == w.now[c := Slot(level, w.now[c].prefs)]
  {
  }

  /** `n` differs from `w` in the setting of `c`, and knows whether that leads it astray. */
  ghost predicate ChosenFrom(o: Owner, w: World, n: World, c: Control) {
    && c in n.now && n.now == w.now[c := n.now[c]]
    && n.journal == w.journal && n.originals == w.originals && n.captured == w.captured
    && n.stray == (if IsHeld(o, w, c) then w.stray + {c} else w.stray)
  }

  lemma MutatedConf(w: World, candidate: map<Control, Slot>, u: User)
    requires forall c: Control :: c !in w.stray ==> c in candidate && c in u && UserGroup(w.originals, candidate, c) == u[c].prefs
    ensures var (n, ok) := Mutate(w, candidate);
      && n.journal == w.journal && n.originals == w.originals && n.captured == w.captured && n.stray == w.stray
      && (if ok then n.now == candidate && ConfTrue(n, u) else n.now == w.now && n.conf == w.conf)
  {
    hide UserGroup;
  }

  lemma ChosenGroups(w: World, stray: set<Control>, candidate: map<Control, Slot>, u: User, c: Control)
    requires UserGroups(w, u) && c in candidate && candidate == w.now[c := candidate[c]] && c !in w.originals && w.stray <= stray
    ensures forall d: Control :: d !in stray ==>
              d in candidate && d in u[c := candidate[c]] && UserGroup(w.originals, candidate, d) == u[c := candidate[c]][d].prefs
  {
  }

  lemma ChosenLoans(w: World, n: World, u: User, lent: set<Control>, c: Control)
    requires Loans(w, u, lent) && c !in lent && w.captured == map[] && (n.alive ==> w.alive)
    requires c in n.now && n.now == w.now[c := n.now[c]] && c !in w.journal
    requires n.journal == w.journal && n.originals == w.originals && n.captured == w.captured && n.stray == w.stray
    requires ConfTrue(n, u[c := n.now[c]])
    ensures Loans(n, u[c := n.now[c]], lent)
  {
    var u' := u[c := n.now[c]];
    forall d: Control ensures LoanOf(n, u', lent, d) {
      Known(w, u, lent, c);
      assert LoanOf(w, u, lent, d);
    }
  }

  lemma ChosenFresh(w: World, n: World, u: User, c: Control)
    requires Fresh(w, u)
    requires c in n.now && n.now == w.now[c := n.now[c]] && c !in w.journal
    requires n.journal == w.journal && n.originals == w.originals && n.captured == w.captured && n.stray == w.stray
    requires ConfTrue(n, u[c := n.now[c]])
    ensures Fresh(n, u[c := n.now[c]])
  {
    var u' := u[c := n.now[c]];
    forall d: Control ensures FreshAt(n, u', d) {
      assert FreshAt(w, u, d) && FreshAt(w, u, c);
    }
  }

  lemma ChosenInv(o: Owner, w: World, n: World, u: User, c: Control)
    requires Inv(o, w, u) && c !in o.baseline && w.captured == map[] && (n.alive ==> w.alive)
    requires c in n.now && n.now == w.now[c := n.now[c]] && c !in w.journal
    requires n.journal == w.journal && n.originals == w.originals && n.captured == w.captured && n.stray == w.stray
    requires ConfTrue(n, u[c := n.now[c]])
    ensures Inv(o, n, u[c := n.now[c]])
  {
    NestedKeys(o, w, u);
    ChosenLoans(w, n, u, o.baseline.Keys, c);
    hide Loans;
    forall d | d in o.applied && Shows(w, u, d, o.applied[d]) ensures Shows(n, u[c := n.now[c]], d, o.applied[d]) {}
  }

  /** A command for a control whose original is still held: the daemon goes by that original. */
  lemma HeldLoans(w: World, n: World, u: User, lent: set<Control>, c: Control)
    requires Loans(w, u, lent) && c in lent && c !in w.originals && (n.alive ==> w.alive)
    requires c in n.now && n.now == w.now[c := n.now[c]]
    requires n.journal == w.journal && n.originals == w.originals && n.captured == w.captured && n.stray == w.stray + {c}
    requires ConfTrue(n, u[c := n.now[c]])
    ensures Loans(n, u, lent)
  {
    forall d: Control ensures LoanOf(n, u, lent, d) { assert LoanOf(w, u, lent, d); }
  }

  lemma HeldFresh(w: World, n: World, u: User, c: Control)
    requires Fresh(w, u) && c in w.journal
    requires c in n.now && n.now == w.now[c := n.now[c]]
    requires n.journal == w.journal && n.originals == w.originals && n.captured == w.captured && n.stray == w.stray + {c}
    requires ConfTrue(n, u[c := n.now[c]])
    ensures Fresh(n, u)
  {
    forall d: Control ensures FreshAt(n, u, d) { assert FreshAt(w, u, d); }
  }

  lemma HeldInv(o: Owner, w: World, n: World, u: User, c: Control)
    requires Inv(o, w, u) && c in o.baseline && c !in w.originals && (n.alive ==> w.alive)
    requires c in n.now && n.now == w.now[c := n.now[c]]
    requires n.journal == w.journal && n.originals == w.originals && n.captured == w.captured && n.stray == w.stray + {c}
    requires ConfTrue(n, u[c := n.now[c]])
    ensures Inv(o, n, u)
  {
    HeldLoans(w, n, u, o.baseline.Keys, c);
    NestedKeys(o, w, u);
    hide Loans;
    forall d | d in o.applied && Shows(w, u, d, o.applied[d]) ensures Shows(n, u, d, o.applied[d]) {}
  }

  /** What the daemon goes by after a command. */
  function Goes(o: Owner, w: World, u: User, n: World, c: Control): User
    requires c in n.now
  {
    if IsHeld(o, w, c) then u else u[c := n.now[c]]
  }

  lemma ChoosingReady(o: Owner, w: World, u: User, c: Control, s: Slot)
    requires Inv(o, w, u) && w.captured == map[] && Acts(w) && c !in w.originals
    ensures c in w.now && c in u
    ensures var n := Choose(o, w, c, s); c in n.now && ChosenFrom(o, w, n, c) && Inv(o, n, Goes(o, w, u, n, c))
  {
    var n := Choose(o, w, c, s);
    Known(w, u, o.baseline.Keys, c);
    LoansGroups(w, u, o.baseline.Keys);
    ChooseEffect(o, w, u, c, s);
    hide Choose, UserGroups, ConfTrue, Loans;
    if c in o.baseline { HeldInv(o, w, n, u, c); } else { ChosenInv(o, w, n, u, c); }
  }

  lemma ChoosingWaiting(w: World, u: User, c: Control, s: Slot)
    requires Waiting(w, u) && w.captured == map[] && Acts(w) && c !in w.originals
    ensures c in w.now && c in u
    ensures var n := Choose(DEFAULT, w, c, s); c in n.now && ChosenFrom(DEFAULT, w, n, c) && Waiting(n, Goes(DEFAULT, w, u, n, c))
  {
    var n := Choose(DEFAULT, w, c, s);
    WaitingGroups(w, u);
    WaitingUntouched(w, u, c);
    ChooseEffect(DEFAULT, w, u, c, s);
    hide Choose, UserGroups, ConfTrue, Loans, LoanOf, FreshAt;
    if Fresh(w, u) {
      if c in w.journal { HeldFresh(w, n, u, c); } else { ChosenFresh(w, n, u, c); }
    } else {
      ChosenLoans(w, n, u, w.originals.Keys, c);
    }
  }

  lemma WaitingUntouched(w: World, u: User, c: Control)
    requires Waiting(w, u) && w.alive && c !in w.originals
    ensures c in w.now && c in u && (c !in w.journal ==> w.now[c] == u[c])
  {
    if Fresh(w, u) { assert FreshAt(w, u, c); } else { assert LoanOf(w, u, w.originals.Keys, c); }
  }

  lemma InvSurvives(o: Owner, w: World, u: User)
    requires Inv(o, w, u)
    ensures Survives(w, u)
  {
    LoansSurvive(w, u, o.baseline.Keys);
  }

  /** After a command the daemon still goes by the user's settings, except where it holds an older one. */
  lemma ChosenAgree(m: Machine, n: World, c: Control)
    requires Agree(m) && ChosenFrom(m.owner, m.world, n, c)
    ensures Agree(m.(world := n, user := m.user[c := n.now[c]], regarded := Goes(m.owner, m.world, m.regarded, n, c)))
  {
  }

  lemma ChoosingSound(m: Machine, c: Control, s: Slot)
    requires Sound(m)
    ensures Sound(Step(m, Choosing(c, s)))
  {
    hide Survives, Inv, Waiting, Agree, ChosenFrom, SetLevel, Mutate;
    var w, u := m.world, m.regarded;
    if Acts(w) && c in w.now && c !in w.originals {
      var n := Choose(m.owner, w, c, s);
      if m.ready {
        ChoosingReady(m.owner, w, u, c, s);
        ChosenParts(m.owner, w, n, c);
        InvSurvives(m.owner, n, Goes(m.owner, w, u, n, c));
      } else {
        ChoosingWaiting(w, u, c, s);
        ChosenParts(m.owner, w, n, c);
        WaitingSurvives(n, Goes(m.owner, w, u, n, c));
      }
      ChosenAgree(m, n, c);
    }
  }

  lemma ChosenParts(o: Owner, w: World, n: World, c: Control)
    requires ChosenFrom(o, w, n, c)
    ensures c in n.now && n.captured == w.captured
  {
  }

  // ---------- every run ----------

  lemma StepSound(m: Machine, e: Event)
    requires Sound(m)
    ensures Sound(Step(m, e))
  {
    hide Sound, Step;
    match e
    case Foreground(r) => ForegroundSound(m, r);
    case Recovering => RecoveringSound(m);
    case Saving => SavingSound(m);
    case Choosing(c, s) => ChoosingSound(m, c, s);
    case Restarting(script) => RestartingSound(m, script);
  }

  /** The machine before the daemon ever ran: everything is as the user set it. */
  function Untended(user: User): Machine
  {
    Machine(DEFAULT, World(user, map[], map c | c in user :: user[c].prefs, map[], map[], false, End, multiset{}, {}),
            user, user, false)
  }

  /**
   * Crash safety of every run: after any events, with any step failing and the process dying
   * between any two steps, any number of times, also during recovery, each control whose device
   * differs from the user's setting has a durable journal entry holding that setting. A control
   * leaves this promise only by going astray itself: through an unfinished restore without a
   * journal entry, or a user command while its original was held.
   */
  lemma {:induction false} EveryRunIsCrashSafe(m: Machine, es: seq<Event>)
    requires Sound(m)
    ensures var n := Run(m, es);
      Sound(n) && forall c: Control :: c !in n.world.stray ==> SafeFor(n.world, n.user, c)
    decreases |es|
  {
    if es != [] {
      StepSound(m, es[0]);
      hide Sound, Step;
      EveryRunIsCrashSafe(Step(m, es[0]), es[1..]);
    } else {
      SoundIsSafe(m);
    }
  }

  lemma SoundIsSafe(m: Machine)
    requires Sound(m)
    ensures forall c: Control :: c !in m.world.stray ==> SafeFor(m.world, m.user, c)
  {
    forall c: Control | c !in m.world.stray ensures SafeFor(m.world, m.user, c) {
      assert SurvivesAt(m.world, m.regarded, c);
    }
  }

  lemma UntendedSound(user: User)
    requires forall c: Control :: c in user
    ensures Sound(Untended(user))
  {
  }

  // ---------- what the invariant says of a living, recovered process ----------

  /**
   * The three indices agree in every run: applied targets, journaled originals and held originals
   * are nested, and equal outside recovery; active means something is applied, global means
   * nothing is held.
   */
  lemma IndicesAgree(m: Machine)
    requires Sound(m) && m.world.alive && m.ready
    ensures m.owner.applied.Keys <= m.world.originals.Keys <= m.owner.baseline.Keys
    ensures !m.owner.status.RecoveryRequired? ==> m.owner.applied.Keys == m.world.originals.Keys == m.owner.baseline.Keys
    ensures m.owner.status.Active? <==> m.owner.applied != map[] && !m.owner.status.RecoveryRequired?
    ensures m.owner.status.Global? <==> m.owner.baseline == map[]
    ensures m.world.journal == m.world.originals
  {
    IndicesOf(m.owner, m.world, m.regarded);
  }

  /** Control `c` shows its target, or the user's own setting if it has none. */
  ghost predicate ShownAt(w: World, u: User, targets: map<Control, Target>, c: Control) {
    if c in targets then Shows(w, u, c, targets[c]) else Untouched(w, u, c)
  }

  /**
   * A successful foreground change anywhere in a run shows exactly the requested targets over the
   * settings the daemon goes by, which are the user's for every control that never went astray.
   */
  lemma ForegroundShowsTargets(m: Machine, r: Request)
    requires Sound(m) && m.world.alive && m.ready
    ensures var (o, w, ok) := Reconcile(m.owner, m.world, r);
      && (ok ==> Overridden(w, m.regarded, Targets(r)) && o.status == Settled(r))
      && (ok ==> forall c: Control :: c !in m.world.stray ==> ShownAt(w, m.user, Targets(r), c))
      && (!ok ==> !o.status.Active?)
  {
    ReconcileKeeps(m.owner, m.world, m.regarded, r);
    var (o, w, ok) := Reconcile(m.owner, m.world, r);
    hide Reconcile, Inv, Survives;
    if ok {
      forall c: Control | c !in m.world.stray ensures ShownAt(w, m.user, Targets(r), c) {
        assert m.regarded[c] == m.user[c];
        assert c in Targets(r) ==> Shows(w, m.regarded, c, Targets(r)[c]);
        assert c !in Targets(r) ==> Untouched(w, m.regarded, c);
      }
    }
  }

  // ---------- how exact the conditions are ----------

  lemma {:induction false} RestoreSavedSpares(ks: seq<Control>, saved: map<Control, Slot>, w: World, c: Control)
    requires c !in ks && c in w.now
    ensures var (n, ok) := RestoreSaved(ks, saved, w); c in n.now && n.now[c] == w.now[c]
  {
    if ks != [] && ks[0] in saved {
      assert ks == [ks[0]] + ks[1..];
      RestoreElsewhere(w, ks[0], saved[ks[0]], c);
      hide Restore;
      RestoreSavedSpares(ks[1..], saved, Restore(w, ks[0], saved[ks[0]]).0, c);
    }
  }

  /**
   * The disk is all that survives: after a death, however the journal came about, a recovery that
   * completes gives everything back if and only if every control without a journal entry was
   * left as the user set it, provided the entries that are there are true.
   */
  lemma RecoveryIsExact(w: World, u: User, script: Script)
    requires forall c: Control :: c in w.now && c in u && c in w.conf && w.conf[c] == u[c].prefs
    requires forall c :: c in w.journal ==> TrueToken(w.journal[c], c, u)
    requires Recover(Restart(w, script)).1
    ensures (forall c: Control :: c in Recover(Restart(w, script)).0.now && Recover(Restart(w, script)).0.now[c] == u[c])
      <==> CrashSafe(w, u)
  {
    var r := Restart(w, script);
    var (n, ok) := Recover(r);
    if CrashSafe(w, u) {
      forall c: Control ensures FreshAt(r, u, c) { assert SafeFor(w, u, c); }
      assert Fresh(r, u);
      RecoverKeeps(r, u);
      forall c: Control ensures c in n.now && n.now[c] == u[c] { assert Untouched(n, u, c); }
    } else {
      var c: Control :| !SafeFor(w, u, c);
      assert c !in w.journal && w.now[c].level != u[c].level;
      WalkAll(w.journal.Keys);
      RestoreSavedSpares(Walk(KEY_ORDER, w.journal.Keys), w.journal, r.(originals := w.journal, script := r.script.rest), c);
    }
  }

  /**
   * A user command is accepted for a control that is held but not journaled, which only happens
   * while recovery is required. It does not last: the next foreground change that succeeds
   * without wanting that control puts the older setting back.
   */
  lemma ChoiceWhileHeldIsLost(o: Owner, w: World, u: User, c: Control, s: Slot, r: Request)
    requires Inv(o, w, u) && w.captured == map[] && Acts(w)
    requires c in o.baseline && c !in w.originals && c !in Targets(r)
    ensures o.status.RecoveryRequired?
    ensures var (_, n, ok) := Transition(o, Choose(o, w, c, s), r);
      ok ==> c in n.now && c in u && n.now[c] == u[c]
  {
    NestedKeys(o, w, u);
    var chosen := Choose(o, w, c, s);
    ChoosingReady(o, w, u, c, s);
    TransitionKeeps(o, chosen, u, r);
    hide Inv, Choose, Transition;
    assert Transition(o, chosen, r).2 ==> Untouched(Transition(o, chosen, r).1, u, c);
  }

  lemma InvJournal(o: Owner, w: World, u: User)
    requires Inv(o, w, u) && w.alive
    ensures w.journal == w.originals
  {
  }

  /**
   * An accepted user command survives the next successful foreground change that does not want its
   * control exactly when the control is not held, or the command asked for what is held.
   */
  lemma ChoiceLasts(o: Owner, w: World, u: User, c: Control, s: Slot, r: Request)
    requires Inv(o, w, u) && w.captured == map[] && Acts(w) && c !in w.originals && c !in Targets(r)
    ensures var chosen := Choose(o, w, c, s);
      var (_, n, ok) := Transition(o, chosen, r);
      ok ==>
        && c in n.now && c in chosen.now && c in u
        && (n.now[c] == chosen.now[c] <==> c !in o.baseline || chosen.now[c] == u[c])
  {
    hide Inv, Choose, Transition;
    var chosen := Choose(o, w, c, s);
    InvJournal(o, w, u);
    ChoosingReady(o, w, u, c, s);
    var regarded := Goes(o, w, u, chosen, c);
    TransitionKeeps(o, chosen, regarded, r);
    assert Transition(o, chosen, r).2 ==> Untouched(Transition(o, chosen, r).1, regarded, c);
  }

  /**
   * The same before recovery has read the journal, when a command is accepted for any control:
   * a recovery that completes keeps it exactly when the journal does not name the control, or the
   * command asked for what the journal holds.
   */
  lemma ChoiceBeforeRecovery(w: World, u: User, c: Control, s: Slot)
    requires Waiting(w, u) && w.captured == map[] && Acts(w) && c !in w.originals
    ensures var chosen := Choose(DEFAULT, w, c, s);
      var (n, ok) := Recover(chosen);
      ok ==>
        && c in n.now && c in chosen.now && c in u
        && (n.now[c] == chosen.now[c] <==> c !in w.journal || chosen.now[c] == u[c])
  {
    hide Waiting, Inv, Choose, Recover;
    var chosen := Choose(DEFAULT, w, c, s);
    ChoosingWaiting(w, u, c, s);
    var regarded := Goes(DEFAULT, w, u, chosen, c);
    RecoverKeeps(chosen, regarded);
    assert Recover(chosen).1 ==> Untouched(Recover(chosen).0, regarded, c);
  }

  lemma {:induction false} WalkSingle(ks: seq<Control>, c: Control)
    requires Distinct(ks)
    ensures Walk(ks, {c}) == if c in ks then [c] else []
  {
    if ks != [] {
      assert ks == [ks[0]] + ks[1..];
      WalkSingle(ks[1..], c);
    }
  }

  lemma WalkOne(c: Control)
    ensures Walk(CONTROL_ORDER, {c}) == [c]
  {
    OrdersDistinct();
    EveryControl(c);
    WalkSingle(CONTROL_ORDER, c);
  }

  /** A journal write and then a restore fail: the control stays held without a journal entry. */
  lemma HeldWithoutJournalHappens(w: World, c: Control, t: Target, app: App, s1: Outcome, s2: Outcome, s3: Outcome, rest: Script)
    requires w.alive && w.script == Then(s1, Then(s2, Then(s3, rest)))
    requires s1.kind.Succeeds? && s2.kind.Fails? && s3.kind.Fails?
    requires c in w.now && s3.left == w.now[c] && w.originals == map[]
    ensures var r := Request(Some(app), Some(Profile(true, map[c := t])), true, true);
      var (o, n, ok) := Transition(DEFAULT, w, r);
      && !ok && n.alive && n.stray == w.stray && n.now == w.now
      && o.status.RecoveryRequired? && c in o.baseline && c !in n.originals
  {
    var r := Request(Some(app), Some(Profile(true, map[c := t])), true, true);
    var targets := map[c := t];
    hide Walk, CaptureAll, ApplyAll, Apply, Restore, Capture, UserGroup, Rollback, Advance, Transition;
    assert c in targets;
    assert Targets(r) == targets && targets.Keys == {c};
    WalkOne(c);
    WalkNone();
    var s := Slot(w.now[c].level, w.now[c].prefs);
    var w1 := w.(captured := w.captured[c := s], script := w.script.rest);
    var w2 := w1.(script := w1.script.rest);
    var o1 := DEFAULT.(baseline := map[c := s]);
    assert o1.baseline.Keys == {c};
    CaptureOne(w, c);
    ApplyOneFails(w1, c, t);
    RestoreOneFails(w2, c, s);
    AdvanceIs(w, targets, c, s, w1, w2);
    RollbackIs(o1, w2, c);
    TransitionIs(w, r, o1, w2);
  }

  lemma TransitionIs(w: World, r: Request, o: Owner, n: World)
    requires Targets(r) != map[] && Advance(DEFAULT, w, Targets(r)) == (o, n, false)
    ensures Transition(DEFAULT, w, r) == (Rollback(o, n).0, Rollback(o, n).1, false)
  {
    hide Advance, Rollback;
  }

  lemma WalkNone()
    ensures Walk(CONTROL_ORDER, {}) == []
  {
    WalkAll({});
    var ks := Walk(CONTROL_ORDER, {});
    assert forall i :: 0 <= i < |ks| ==> ks[i] in ks;
  }

  lemma CaptureOne(w: World, c: Control)
    requires Acts(w) && w.script.outcome.kind.Succeeds? && c in w.now && c !in w.originals
    ensures var s := Slot(w.now[c].level, w.now[c].prefs);
      CaptureAll([c], {}, map[], w) == (w.(captured := w.captured[c := s], script := w.script.rest), Some(map[c := s]))
  {
    var s := Slot(w.now[c].level, w.now[c].prefs);
    var n := w.(captured := w.captured[c := s], script := w.script.rest);
    assert Capture(w, c) == (n, Some(s));
    hide Capture;
    assert [c][1..] == [];
    assert CaptureAll([], {}, map[c := s], n) == (n, Some(map[c := s]));
  }

  lemma RollbackIs(o: Owner, w: World, c: Control)
    requires Walk(CONTROL_ORDER, {c}) == [c] && o.baseline.Keys == {c} && !Restore(w, c, o.baseline[c]).1
    ensures Rollback(o, w) == (o.(status := RecoveryRequired), Restore(w, c, o.baseline[c]).0)
  {
    hide Restore, Walk;
    var n := Restore(w, c, o.baseline[c]).0;
    assert RestoreEach([], o, n, false) == (o, n, false);
    assert [c][1..] == [];
    assert RestoreEach([c], o, w, true) == (o, n, false);
  }

  lemma AdvanceIs(w: World, targets: map<Control, Target>, c: Control, s: Slot, w1: World, w2: World)
    requires Walk(CONTROL_ORDER, targets.Keys) == [c] && Walk(CONTROL_ORDER, {}) == []
    requires targets.Keys == {c}
    ensures var o := DEFAULT.(baseline := map[c := s]);
      CaptureAll([c], {}, map[], w) == (w1, Some(map[c := s])) && ApplyAll([c], targets, o, w1) == (o, w2, false)
      ==> Advance(DEFAULT, w, targets) == (o, w2, false)
  {
    hide Walk, CaptureAll, ApplyAll;
    var o1 := DEFAULT.(baseline := map[c := s]);
    assert DEFAULT.baseline + map[c := s] == map[c := s];
    assert DEFAULT.baseline.Keys == {};
    assert o1.baseline.Keys - targets.Keys == {};
  }

  lemma ApplyOneFails(w: World, c: Control, t: Target)
    requires Acts(w) && w.script.outcome.kind.Fails? && c in w.captured && c !in w.originals
    ensures forall o: Owner, targets: map<Control, Target> :: !UpToDate(o, c, t) && targets == map[c := t] ==>
      ApplyAll([c], targets, o, w) == (o, w.(script := w.script.rest), false)
  {
    assert Apply(w, c, t) == (w.(script := w.script.rest), false);
  }

  lemma RestoreOneFails(w: World, c: Control, s: Slot)
    requires Acts(w) && w.script.outcome.kind.Fails? && c in w.now && w.script.outcome.left == w.now[c] && w.originals == map[]
    ensures var (n, ok) := Restore(w, c, s);
      !ok && n.alive && n.stray == w.stray && n.now == w.now && n.originals == w.originals
  {
    assert w.now[c := w.now[c]] == w.now;
  }
}

// The Android adapter under Per-App Controls: a write-ahead journal of originals, fallible
// device writes, and effective preferences overlaid by the originals. Every step that can fail
// or be cut short by a process death is one atomic step that takes its outcome from a script.
module Adapter {
  import opened Controls
  import opened Wrappers

  /** What a control's device nodes hold: a target that was programmed, or any other setting. */
  datatype Level = Holds(target: Target) | Native(code: int)

  /** One control: its device level and the saved preferences that belong to it. */
  datatype Slot = Slot(level: Level, prefs: Group)

  datatype Kind = Succeeds | Fails | Dies

  /** The outcome of one atomic step; `left` is what setters that did not finish leave behind. */
  datatype Outcome = Outcome(kind: Kind, left: Slot)

  /** The outcomes of the steps still to come. */
  datatype Script = End | Then(outcome: Outcome, rest: Script)

  /**
   * The levels in `now`, the journal and `conf` survive a process death; the rest does not.
   * `writes` counts the device writes started on each control, and `stray` holds the controls
   * that an unfinished restore left, without a journal entry, on neither their previous nor their
   * saved setting.
   */
  datatype World = World(
    now: map<Control, Slot>,
    journal: map<Control, Slot>,
    conf: map<Control, Group>,
    originals: map<Control, Slot>,
    captured: map<Control, Slot>,
    alive: bool,
    script: Script,
    writes: multiset<Control>,
    stray: set<Control>)

  /** A process acts while it lives; a script that has run out stands for a death at that point. */
  predicate Acts(w: World) {
    w.alive && w.script.Then?
  }

  function Stop(w: World): World {
    w.(alive := false)
  }

  /** The user's own preferences for `c`: its original's when one is held, else the effective ones. */
  function UserGroup(originals: map<Control, Slot>, now: map<Control, Slot>, c: Control): Group
    requires c in now
  {
    if c in originals then originals[c].prefs else now[c].prefs
  }

  /** Refresh rate zero asks for the ROM's own behaviour, which is the captured original. */
  function Effect(t: Target, original: Level): Level {
    if t == RefreshRate(0) then original else Holds(t)
  }

  // ---------- atomic steps ----------

  /** Writes the whole journal; memory follows only when the file was replaced. */
  function Journal(w: World, entries: map<Control, Slot>): (World, bool) {
    if !Acts(w) then (Stop(w), false)
    else
      var o := w.script.outcome;
      var kept := if o.kind.Succeeds? then (entries, entries) else (w.journal, w.originals);
      (w.(journal := kept.0, originals := kept.1, alive := !o.kind.Dies?, script := w.script.rest), o.kind.Succeeds?)
  }

  /** Reads a control's live level and the user's preferences behind the effective ones. */
  function Capture(w: World, c: Control): (World, Option<Slot>) {
    if !Acts(w) then (Stop(w), None)
    else
      var o := w.script.outcome;
      var read := if o.kind.Succeeds? && c in w.now
                  then Some(Slot(w.now[c].level, UserGroup(w.originals, w.now, c))) else None;
      (w.(captured := if read.Some? then w.captured[c := read.value] else w.captured,
          alive := !o.kind.Dies?, script := w.script.rest),
       read)
  }

  /** The setter calls of an apply, once the original is journaled. */
  function Program(w: World, c: Control, t: Target): (World, bool)
    requires c in w.originals
  {
    if !Acts(w) then (Stop(w), false)
    else
      var o := w.script.outcome;
      var s := if o.kind.Succeeds? then Slot(Effect(t, w.originals[c].level), o.left.prefs) else o.left;
      (w.(now := w.now[c := s], writes := w.writes + multiset{c},
          alive := !o.kind.Dies?, script := w.script.rest),
       o.kind.Succeeds?)
  }

  /** Makes the original of `c` durable unless it is already. */
  function Secure(w: World, c: Control): (World, bool) {
    if c in w.originals then (w, true)
    else if c !in w.captured then (w, false)
    else Journal(w, w.originals[c := w.captured[c]])
  }

  function Apply(w: World, c: Control, t: Target): (World, bool) {
    var (n, ready) := Secure(w, c);
    if !ready || c !in n.originals || !Matches(c, t) then (n, false) else Program(n, c, t)
  }

  /** The setter calls of a restore, and the copy of the saved preferences after them. */
  function PutBack(w: World, c: Control, s: Slot): (World, bool) {
    if !Acts(w) then (Stop(w), false)
    else
      var o := w.script.outcome;
      var n := if o.kind.Succeeds? then s else o.left;
      (w.(now := w.now[c := n], writes := w.writes + multiset{c},
          stray := if c !in w.originals && n != s && (c in w.now ==> n != w.now[c]) then w.stray + {c} else w.stray,
          alive := !o.kind.Dies?, script := w.script.rest),
       o.kind.Succeeds?)
  }

  function Restore(w: World, c: Control, s: Slot): (World, bool) {
    var (n, written) := PutBack(w, c, s);
    if written then Journal(n, n.originals - {c}) else (n, false)
  }

  // ---------- what every step keeps ----------

  /** The user's own setting of every control: what must survive every loan. */
  type User = map<Control, Slot>

  ghost predicate TrueToken(s: Slot, c: Control, u: User) {
    c in u && s == u[c]
  }

  /** What the disk and the device owe control `c` if the process dies now. */
  ghost predicate SafeFor(w: World, u: User, c: Control) {
    && c in w.now && c in u && c in w.conf
    && w.conf[c] == u[c].prefs
    && (c in w.journal ==> w.journal[c] == u[c])
    && (c !in w.journal ==> w.now[c].level == u[c].level)
  }

  /**
   * A control may differ from the user's setting only while the disk holds its original, and the
   * saved preferences on disk are always the user's own.
   */
  ghost predicate CrashSafe(w: World, u: User) {
    forall c: Control :: SafeFor(w, u, c)
  }

  ghost predicate Untouched(w: World, u: User, c: Control) {
    c in w.now && c in u && w.now[c] == u[c]
  }

  /** The loan invariant for control `c`; `lent` are the controls whose originals are held. */
  ghost predicate LoanOf(w: World, u: User, lent: set<Control>, c: Control) {
    && c in w.now && c in u
    && (c in w.journal ==> w.journal[c] == u[c])
    && (c in w.originals ==> c in lent && w.originals[c] == u[c])
    && (c in w.captured ==> w.captured[c] == u[c])
    && (c !in lent ==> w.now[c] == u[c])
    && (c !in w.stray && c !in w.originals ==> w.now[c] == u[c])
    && (c !in w.stray ==> SafeFor(w, u, c))
  }

  /** The loan invariant of a living process. */
  ghost predicate Loans(w: World, u: User, lent: set<Control>) {
    && (forall c: Control :: LoanOf(w, u, lent, c))
    && (w.alive ==> w.journal == w.originals)
  }

  /** `w` and `n` are alike as far as control `d` is concerned. */
  ghost predicate SameAt(w: World, n: World, d: Control) {
    && (d in w.now ==> d in n.now && n.now[d] == w.now[d])
    && (d in n.journal <==> d in w.journal) && (d in w.journal ==> n.journal[d] == w.journal[d])
    && (d in n.originals <==> d in w.originals) && (d in w.originals ==> n.originals[d] == w.originals[d])
    && (d in n.captured ==> d in w.captured && n.captured[d] == w.captured[d])
  }

  /** A step that is about control `c` alone. */
  ghost predicate OnlyAt(w: World, n: World, c: Control) {
    && (forall d: Control :: d != c ==> SameAt(w, n, d))
    && n.conf == w.conf
    && w.stray <= n.stray <= w.stray + {c}
    && (n.alive ==> w.alive)
  }

  lemma Chain(w: World, m: World, n: World, c: Control)
    requires OnlyAt(w, m, c) && OnlyAt(m, n, c)
    ensures OnlyAt(w, n, c)
  {
    forall d: Control | d != c ensures SameAt(w, n, d) { assert SameAt(w, m, d) && SameAt(m, n, d); }
  }

  lemma Still(w: World, c: Control)
    ensures OnlyAt(w, w, c)
  {
  }

  lemma FrameOf(w: World, n: World, u: User, lent: set<Control>, d: Control)
    requires LoanOf(w, u, lent, d) && SameAt(w, n, d) && n.conf == w.conf && w.stray <= n.stray
    ensures LoanOf(n, u, lent, d)
  {
  }

  /** A step about `c` alone keeps the loans if it keeps the loan of `c`. */
  lemma Frame(w: World, n: World, u: User, lent: set<Control>, c: Control)
    requires Loans(w, u, lent) && OnlyAt(w, n, c) && LoanOf(n, u, lent, c)
    requires n.alive ==> n.journal == n.originals
    ensures Loans(n, u, lent)
  {
    forall d: Control ensures LoanOf(n, u, lent, d) {
      if d != c { FrameOf(w, n, u, lent, d); }
    }
  }

  lemma Known(w: World, u: User, lent: set<Control>, c: Control)
    requires Loans(w, u, lent)
    ensures LoanOf(w, u, lent, c) && c in w.now && c in u
  {
    assert LoanOf(w, u, lent, c);
  }

  lemma CaptureAt(w: World, c: Control)
    requires c in w.now
    ensures OnlyAt(w, Capture(w, c).0, c)
  {
    var n := Capture(w, c).0;
    forall d: Control | d != c ensures SameAt(w, n, d) {}
  }

  lemma CaptureKeeps(w: World, u: User, lent: set<Control>, c: Control)
    requires Loans(w, u, lent) && c !in lent
    ensures LoanOf(w, u, lent, c)
    ensures var (n, s) := Capture(w, c);
      && Loans(n, u, lent) && OnlyAt(w, n, c) && n.now == w.now && n.originals == w.originals && n.stray == w.stray
      && (n.alive ==> w.alive)
      && (s.Some? ==> n.alive && TrueToken(s.value, c, u))
  {
    Known(w, u, lent, c);
    CaptureOwn(w, u, lent, c);
    hide LoanOf, UserGroup;
    CaptureAt(w, c);
    hide OnlyAt;
    Frame(w, Capture(w, c).0, u, lent, c);
  }

  lemma CaptureOwn(w: World, u: User, lent: set<Control>, c: Control)
    requires LoanOf(w, u, lent, c) && c !in lent
    ensures var (n, s) := Capture(w, c); LoanOf(n, u, lent, c) && (s.Some? ==> TrueToken(s.value, c, u))
  {
  }

  lemma JournalAt(w: World, c: Control, entries: map<Control, Slot>)
    requires entries == (if c in entries then w.originals[c := entries[c]] else w.originals - {c})
    requires w.alive ==> w.journal == w.originals
    ensures OnlyAt(w, Journal(w, entries).0, c)
  {
    var n := Journal(w, entries).0;
    forall d: Control | d != c ensures SameAt(w, n, d) {}
  }

  lemma JournalKeeps(w: World, u: User, lent: set<Control>, c: Control, entries: map<Control, Slot>)
    requires Loans(w, u, lent) && c in lent
    requires entries == (if c in entries then w.originals[c := entries[c]] else w.originals - {c})
    requires if c in entries then TrueToken(entries[c], c, u) else Untouched(w, u, c)
    ensures var (n, ok) := Journal(w, entries);
      && Loans(n, u, lent) && OnlyAt(w, n, c) && n.now == w.now && n.conf == w.conf && n.stray == w.stray
      && (n.alive ==> w.alive)
      && (if ok then n.alive && n.originals == n.journal == entries
          else n.originals == w.originals && n.journal == w.journal)
  {
    Known(w, u, lent, c);
    JournalOwn(w, u, lent, c, entries);
    hide LoanOf, Untouched, TrueToken;
    JournalAt(w, c, entries);
    hide OnlyAt;
    Frame(w, Journal(w, entries).0, u, lent, c);
  }

  lemma JournalOwn(w: World, u: User, lent: set<Control>, c: Control, entries: map<Control, Slot>)
    requires LoanOf(w, u, lent, c) && c in lent
    requires if c in entries then TrueToken(entries[c], c, u) else Untouched(w, u, c)
    ensures LoanOf(Journal(w, entries).0, u, lent, c)
  {
  }

  lemma ProgramAt(w: World, c: Control, t: Target)
    requires c in w.originals
    ensures OnlyAt(w, Program(w, c, t).0, c)
  {
    var n := Program(w, c, t).0;
    forall d: Control | d != c ensures SameAt(w, n, d) {}
  }

  lemma ProgramKeeps(w: World, u: User, lent: set<Control>, c: Control, t: Target)
    requires Loans(w, u, lent) && c in w.originals
    ensures LoanOf(w, u, lent, c)
    ensures var (n, ok) := Program(w, c, t);
      && Loans(n, u, lent) && OnlyAt(w, n, c)
      && n.originals == w.originals && n.journal == w.journal && n.stray == w.stray
      && (n.now != w.now ==> w.alive)
      && (ok ==> n.alive && c in n.now && n.now[c].level == Effect(t, u[c].level))
  {
    Known(w, u, lent, c);
    ProgramOwn(w, u, lent, c, t);
    hide LoanOf;
    ProgramAt(w, c, t);
    hide OnlyAt;
    Frame(w, Program(w, c, t).0, u, lent, c);
  }

  lemma ProgramOwn(w: World, u: User, lent: set<Control>, c: Control, t: Target)
    requires LoanOf(w, u, lent, c) && c in w.originals && (w.alive ==> c in w.journal)
    ensures var (n, ok) := Program(w, c, t); LoanOf(n, u, lent, c) && w.originals[c] == u[c]
  {
  }

  lemma CapturedIsTrue(w: World, u: User, lent: set<Control>, c: Control)
    requires LoanOf(w, u, lent, c) && c in w.captured
    ensures TrueToken(w.captured[c], c, u)
  {
  }

  lemma SecureKeeps(w: World, u: User, lent: set<Control>, c: Control)
    requires Loans(w, u, lent) && c in lent
    ensures LoanOf(w, u, lent, c)
    ensures var (n, ok) := Secure(w, c);
      && Loans(n, u, lent) && OnlyAt(w, n, c) && n.now == w.now && n.stray == w.stray
      && w.originals.Keys <= n.originals.Keys
      && (ok ==> c in n.originals)
  {
    Known(w, u, lent, c);
    Still(w, c);
    if c in w.captured { CapturedIsTrue(w, u, lent, c); }
    hide LoanOf, TrueToken, Journal, OnlyAt;
    if c !in w.originals && c in w.captured {
      JournalKeeps(w, u, lent, c, w.originals[c := w.captured[c]]);
    }
  }

  /**
   * An apply never programs a control whose original is not durable, whatever fails; on success
   * the control holds its target, and in every case every other control is left alone.
   */
  lemma ApplyKeeps(w: World, u: User, lent: set<Control>, c: Control, t: Target)
    requires Loans(w, u, lent) && c in lent
    ensures LoanOf(w, u, lent, c)
    ensures var (n, ok) := Apply(w, c, t);
      && Loans(n, u, lent) && OnlyAt(w, n, c)
      && n.stray == w.stray
      && w.originals.Keys <= n.originals.Keys
      && (n.now != w.now ==> c in n.originals && n.journal == n.originals)
      && (ok ==> n.alive && c in n.originals && c in n.now && n.now[c].level == Effect(t, u[c].level))
  {
    hide LoanOf, Program, Secure, OnlyAt;
    SecureKeeps(w, u, lent, c);
    var (m, ready) := Secure(w, c);
    if ready && Matches(c, t) {
      ProgramKeeps(m, u, lent, c, t);
      Chain(w, m, Program(m, c, t).0, c);
    }
  }

  lemma PutBackAt(w: World, c: Control, s: Slot)
    requires c in w.now
    ensures OnlyAt(w, PutBack(w, c, s).0, c)
  {
    var n := PutBack(w, c, s).0;
    forall d: Control | d != c ensures SameAt(w, n, d) {}
  }

  lemma PutBackKeeps(w: World, u: User, lent: set<Control>, c: Control, s: Slot)
    requires Loans(w, u, lent) && c in lent && TrueToken(s, c, u)
    ensures LoanOf(w, u, lent, c)
    ensures var (n, ok) := PutBack(w, c, s);
      && Loans(n, u, lent) && OnlyAt(w, n, c)
      && n.originals == w.originals
      && (ok || c in w.originals ==> n.stray == w.stray)
      && (ok ==> n.alive && Untouched(n, u, c))
  {
    Known(w, u, lent, c);
    PutBackOwn(w, u, lent, c, s);
    hide LoanOf, TrueToken;
    PutBackAt(w, c, s);
    hide OnlyAt;
    Frame(w, PutBack(w, c, s).0, u, lent, c);
  }

  lemma PutBackOwn(w: World, u: User, lent: set<Control>, c: Control, s: Slot)
    requires LoanOf(w, u, lent, c) && c in lent && TrueToken(s, c, u) && (w.alive && c in w.originals ==> c in w.journal)
    ensures var (n, ok) := PutBack(w, c, s); LoanOf(n, u, lent, c) && (ok ==> Untouched(n, u, c))
  {
  }

  /**
   * A successful restore gives the control back exactly and drops its journal entry; a failed one
   * leaves every other control alone and keeps whatever entry there was.
   */
  lemma RestoreKeeps(w: World, u: User, lent: set<Control>, c: Control, s: Slot)
    requires Loans(w, u, lent) && c in lent && TrueToken(s, c, u)
    ensures LoanOf(w, u, lent, c)
    ensures var (n, ok) := Restore(w, c, s);
      && OnlyAt(w, n, c)
      && (ok || c in w.originals ==> n.stray == w.stray)
      && (if ok then Loans(n, u, lent - {c}) && n.alive && n.originals == w.originals - {c}
          else Loans(n, u, lent) && n.originals == w.originals)
  {
    hide LoanOf, TrueToken, PutBack, Journal, OnlyAt;
    PutBackKeeps(w, u, lent, c, s);
    Known(w, u, lent, c);
    var (m, written) := PutBack(w, c, s);
    if written {
      JournalKeeps(m, u, lent, c, m.originals - {c});
      var (n, ok) := Journal(m, m.originals - {c});
      Chain(w, m, n, c);
      if ok {
        Released(n, u, lent, c);
      }
    }
  }

  lemma Released(w: World, u: User, lent: set<Control>, c: Control)
    requires Loans(w, u, lent) && Untouched(w, u, c) && c !in w.originals
    ensures Loans(w, u, lent - {c})
  {
    forall d: Control ensures LoanOf(w, u, lent - {c}, d) { assert LoanOf(w, u, lent, d); }
  }

  /** Any setting but the given one. */
  function Elsewhere(s: Slot): Slot {
    Slot(if s.level == Native(0) then Native(1) else Native(0), s.prefs)
  }

  /**
   * A restore write is safe whatever becomes of it, also if it is cut short, exactly when the
   * control has a journal entry: without one, an unfinished restore can leave a setting that
   * nothing durable remembers.
   */
  lemma PutBackIsSafeWhenJournaled(w: World, u: User, lent: set<Control>, c: Control, s: Slot)
    requires Loans(w, u, lent) && w.alive && c in lent && TrueToken(s, c, u) && c !in w.stray
    ensures (forall k, d: Control :: d !in w.stray ==> SafeFor(PutBack(w.(script := k), c, s).0, u, d)) <==> c in w.originals
  {
    if c in w.originals {
      forall k, d: Control | d !in w.stray ensures SafeFor(PutBack(w.(script := k), c, s).0, u, d) {
        RescriptedLoans(w, k, u, lent);
        PutBackKeeps(w.(script := k), u, lent, c, s);
        Known(PutBack(w.(script := k), c, s).0, u, lent, d);
      }
    } else {
      Known(w, u, lent, c);
      var k := Then(Outcome(Fails, Elsewhere(s)), End);
      assert !SafeFor(PutBack(w.(script := k), c, s).0, u, c);
    }
  }

  lemma RescriptedLoans(w: World, k: Script, u: User, lent: set<Control>)
    requires Loans(w, u, lent)
    ensures Loans(w.(script := k), u, lent)
  {
    forall d: Control ensures LoanOf(w.(script := k), u, lent, d) { assert LoanOf(w, u, lent, d); }
  }
}

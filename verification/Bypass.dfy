// Threshold bypass charging: the latch, its release band, and how often it can flip.
module Bypass {
  import opened Wrappers

  const RETRY_MS := 5000

  predicate ValidThreshold(value: int) {
    value == 0 || value == 20 || value == 40 || value == 80 || value == 90
  }

  /** Whether charging should be paused; `None` is an error. */
  function Target(enabled: bool, threshold: int, capacity: Option<int>, held: bool): Option<bool> {
    if !ValidThreshold(threshold) then None
    else if !enabled then Some(false)
    else if threshold == 0 then Some(true)
    else if capacity.None? || !(0 <= capacity.value <= 100) then None
    else Some(if held then capacity.value > threshold - 2 else capacity.value >= threshold)
  }

  datatype Selection = Selection(enabled: bool, threshold: int)

  /** `live` is what the hardware reads: 1 paused, 0 charging, negative unsupported; `writes` counts the writes. */
  datatype Policy = Policy(selection: Option<Selection>, held: bool, lastWrite: Option<int>, live: int, writes: nat)

  /**
   * What one reconciliation meets: the battery reading, what the hardware reads by then (a vendor
   * may have changed it), the time, and what a write leaves and reports.
   */
  datatype Reading = Reading(capacity: Option<int>, live: int, now: int, explicit: bool, lands: int, written: bool)

  function Reselect(p: Policy, s: Selection): Policy {
    if p.selection != Some(s) then p.(held := p.live == 1, selection := Some(s)) else p
  }

  predicate TooSoon(p: Policy, desired: bool, r: Reading) {
    !r.explicit && desired == p.held && p.lastWrite.Some? && r.now - p.lastWrite.value < RETRY_MS
  }

  function Number(b: bool): int {
    if b then 1 else 0
  }

  /** One reconciliation; the flag is its success. */
  function Reconcile(was: Policy, s: Selection, r: Reading): (Policy, bool) {
    var p := was.(live := r.live);
    if p.live < 0 then (p, false)
    else
      var q := Reselect(p, s);
      var desired := Target(s.enabled, s.threshold, r.capacity, q.held);
      if desired.None? then (q, false)
      else if q.live == Number(desired.value) then (q.(held := desired.value), true)
      else if TooSoon(q, desired.value, r) then (q, true)
      else
        var w := q.(lastWrite := Some(r.now), writes := q.writes + 1, live := if r.written then Number(desired.value) else r.lands);
        if r.written then (w.(held := desired.value), true) else (w, false)
  }

  // ---------- what one reconciliation comes to ----------

  /** The latch a reconciliation starts from: the one it kept, or for a new selection what the hardware shows. */
  function Before(was: Policy, s: Selection, r: Reading): bool {
    if was.selection == Some(s) then was.held else r.live == 1
  }

  /** Bypass charging is there, the threshold is one of those offered, and a level it needs is known. */
  predicate Answerable(s: Selection, r: Reading) {
    && r.live >= 0 && s.threshold in {0, 20, 40, 80, 90}
    && (s.enabled && s.threshold > 0 ==> r.capacity.Some? && 0 <= r.capacity.value <= 100)
  }

  /** Off charges; on without a threshold pauses; a threshold pauses from its level, resumes two points below, and keeps to what was in between. */
  predicate Decided(s: Selection, r: Reading, before: bool, held: bool)
    requires Answerable(s, r)
  {
    && (!s.enabled ==> !held)
    && (s.enabled && s.threshold == 0 ==> held)
    && (s.enabled && s.threshold > 0 ==>
          && (r.capacity.value >= s.threshold ==> held)
          && (r.capacity.value <= s.threshold - 2 ==> !held)
          && (r.capacity.value == s.threshold - 1 ==> held == before))
  }

  /** A repeat of what is held, against a vendor, was put off because the last write is too recent. */
  predicate PutOff(was: Policy, s: Selection, r: Reading, n: Policy) {
    && !r.explicit && n.held == Before(was, s, r) && n.live == r.live && n.writes == was.writes
    && was.lastWrite.Some? && r.now - was.lastWrite.value < RETRY_MS
  }

  /**
   * What a reconciliation does. It fails without a write exactly when the request cannot be
   * answered, and else only when its one write fails. When it succeeds the latch is what the
   * selection and the level ask for, and the hardware agrees unless a repeat was put off.
   */
  predicate Meant(was: Policy, s: Selection, r: Reading, n: Policy, ok: bool) {
    && (!Answerable(s, r) ==> !ok && n.writes == was.writes && n.live == r.live)
    && (Answerable(s, r) && ok ==>
          && n.selection == Some(s) && Decided(s, r, Before(was, s, r), n.held)
          && (n.live == (if n.held then 1 else 0) || PutOff(was, s, r, n)))
    && (Answerable(s, r) && !ok ==>
          && !r.written && n.writes == was.writes + 1 && n.live == r.lands && n.held == Before(was, s, r)
          && n.lastWrite == Some(r.now))
    && (n.writes != was.writes ==> n.writes == was.writes + 1 && n.lastWrite == Some(r.now))
    && (ok && n.writes != was.writes ==> r.live != n.live)
  }

  lemma ReconcileMeans(was: Policy, s: Selection, r: Reading)
    ensures Meant(was, s, r, Reconcile(was, s, r).0, Reconcile(was, s, r).1)
  {
    var q := Reselect(was.(live := r.live), s);
    assert q.held == Before(was, s, r) && q.selection == Some(s);
  }

  // ---------- runs ----------

  function After(p: Policy, s: Selection, rs: seq<Reading>): Policy {
    if rs == [] then p else Reconcile(After(p, s, rs[..|rs| - 1]), s, rs[|rs| - 1]).0
  }

  /** How often the latch changed. */
  function Flips(p: Policy, s: Selection, rs: seq<Reading>): nat {
    if rs == [] then 0
    else
      var front := rs[..|rs| - 1];
      Flips(p, s, front) + (if After(p, s, rs).held != After(p, s, front).held then 1 else 0)
  }

  predicate Usable(c: Option<int>) {
    c.Some? && 0 <= c.value <= 100
  }

  /** The readings that are usable levels, in order. */
  function Levels(rs: seq<Reading>): seq<int> {
    if rs == [] then []
    else
      var c := rs[|rs| - 1].capacity;
      if Usable(c) then Levels(rs[..|rs| - 1]) + [c.value] else Levels(rs[..|rs| - 1])
  }

  function Distance(a: int, b: int): nat {
    if a < b then b - a else a - b
  }

  /** How far the level travelled in all. */
  function Variation(levels: seq<int>): nat {
    if |levels| < 2 then 0
    else Variation(levels[..|levels| - 1]) + Distance(levels[|levels| - 2], levels[|levels| - 1])
  }

  /** What the flips so far imply about the level travelled since. */
  ghost predicate Spaced(s: Selection, held: bool, flips: nat, levels: seq<int>, at: int) {
    if !s.enabled || s.threshold == 0 then flips <= 1 && (flips == 1 ==> held == s.enabled)
    else flips > 0 ==>
      && levels != []
      && 2 * (flips - 1) + Distance(at, levels[|levels| - 1]) <= Variation(levels)
      && (if held then at >= s.threshold else at <= s.threshold - 2)
  }

  /** One more usable level can only add to the distance travelled. */
  lemma OneMore(levels: seq<int>, c: int, at: int)
    requires levels != []
    ensures Variation(levels + [c]) == Variation(levels) + Distance(levels[|levels| - 1], c)
    ensures Distance(at, c) <= Distance(at, levels[|levels| - 1]) + Distance(levels[|levels| - 1], c)
  {
    assert (levels + [c])[..|levels|] == levels;
  }

  /** What a change of the latch says about the reading that caused it. */
  predicate FlipFits(s: Selection, was: bool, now: bool, c: Option<int>) {
    was != now ==>
      if s.enabled && s.threshold != 0 then
        Usable(c) && (if now then c.value >= s.threshold else c.value <= s.threshold - 2)
      else now == s.enabled
  }

  /** A flip needs a usable level on the other side of the band. */
  lemma FlipNeeds(p: Policy, s: Selection, r: Reading)
    requires p.selection == Some(s)
    ensures var n := Reconcile(p, s, r).0;
      && n.selection == Some(s) && FlipFits(s, p.held, n.held, r.capacity)
      && (n.held != p.held ==> ValidThreshold(s.threshold))
  {
  }

  /** The level at the last flip. */
  function FlipLevel(s: Selection, was: bool, now: bool, c: Option<int>, at: int): int {
    if was != now && s.enabled && s.threshold != 0 && c.Some? then c.value else at
  }

  lemma SpacedNext(s: Selection, was: bool, now: bool, flips: nat, levels: seq<int>, c: Option<int>, at: int)
    requires Spaced(s, was, flips, levels, at) && FlipFits(s, was, now, c)
    ensures Spaced(s, now, flips + Number(was != now), if Usable(c) then levels + [c.value] else levels, FlipLevel(s, was, now, c, at))
  {
    hide Variation;
    if Usable(c) && levels != [] {
      OneMore(levels, c.value, at);
    }
  }

  lemma {:induction false} FlipsAreSpaced(p: Policy, s: Selection, rs: seq<Reading>) returns (at: int)
    requires p.selection == Some(s)
    ensures After(p, s, rs).selection == Some(s)
    ensures Spaced(s, After(p, s, rs).held, Flips(p, s, rs), Levels(rs), at)
    decreases |rs|
  {
    hide Reconcile, Spaced, Variation, FlipFits;
    at := 0;
    if rs != [] {
      var front, r := rs[..|rs| - 1], rs[|rs| - 1];
      at := FlipsAreSpaced(p, s, front);
      var was, now := After(p, s, front), After(p, s, rs);
      FlipNeeds(was, s, r);
      SpacedNext(s, was.held, now.held, Flips(p, s, front), Levels(front), r.capacity, at);
      at := FlipLevel(s, was.held, now.held, r.capacity, at);
    } else {
      NoFlips(s, p.held);
    }
  }

  lemma NoFlips(s: Selection, held: bool)
    ensures Spaced(s, held, 0, [], 0)
  {
  }

  /**
   * For any selection, any sequence of readings (unusable ones and failed writes included) and any
   * interference with the hardware, the latch flips at most once plus once for every two points
   * the battery level travels.
   */
  lemma FlipsAreBounded(p: Policy, s: Selection, rs: seq<Reading>)
    requires p.selection == Some(s)
    ensures 2 * (Flips(p, s, rs) - 1) <= Variation(Levels(rs))
  {
    var at := FlipsAreSpaced(p, s, rs);
    hide Reconcile, Flips, After, Levels, Variation;
  }

  /** Reading number `n` of a level that swings between a threshold and two points below it. */
  function Turning(threshold: int, n: nat): Reading {
    var high := n % 2 == 1;
    Reading(Some(if high then threshold else threshold - 2), if high then 0 else 1, 0, true, 0, true)
  }

  function Swing(threshold: int, n: nat): seq<Reading> {
    if n == 0 then [] else Swing(threshold, n - 1) + [Turning(threshold, n)]
  }

  lemma TurningFlips(p: Policy, threshold: int, n: nat)
    requires ValidThreshold(threshold) && threshold != 0 && n > 0
    requires p.selection == Some(Selection(true, threshold)) && p.held == (n % 2 == 0)
    ensures var q := Reconcile(p, Selection(true, threshold), Turning(threshold, n)).0;
      q.selection == p.selection && q.held == (n % 2 == 1)
  {
  }

  lemma Thresholds(threshold: int)
    requires ValidThreshold(threshold) && threshold != 0
    ensures 20 <= threshold <= 90
  {
  }

  lemma NoTravel(levels: seq<int>)
    requires |levels| < 2
    ensures Variation(levels) == 0
  {
  }

  /** The bound is reached: at every threshold a run of any length flips on each reading, two points apart. */
  lemma {:induction false} BoundIsReached(threshold: int, n: nat)
    requires ValidThreshold(threshold) && threshold != 0
    ensures var s := Selection(true, threshold);
      var p := Policy(Some(s), false, None, 0, 0);
      var rs := Swing(threshold, n);
      && After(p, s, rs).selection == Some(s) && After(p, s, rs).held == (n % 2 == 1)
      && Flips(p, s, rs) == n
      && |Levels(rs)| == n && (n > 0 ==> Levels(rs)[n - 1] == Turning(threshold, n).capacity.value)
      && (n > 0 ==> 2 * (n - 1) == Variation(Levels(rs)))
  {
    hide Reconcile, Variation, ValidThreshold;
    if n > 0 {
      BoundIsReached(threshold, n - 1);
      var s := Selection(true, threshold);
      var rs, before := Swing(threshold, n), Swing(threshold, n - 1);
      assert rs[..|rs| - 1] == before && rs[|rs| - 1] == Turning(threshold, n);
      TurningFlips(After(Policy(Some(s), false, None, 0, 0), s, before), threshold, n);
      assert Levels(rs) == Levels(before) + [Turning(threshold, n).capacity.value] by {
        Thresholds(threshold);
      }
      if n > 1 {
        OneMore(Levels(before), Turning(threshold, n).capacity.value, 0);
      } else {
        NoTravel(Levels(rs));
      }
    }
  }

  /** The reading asks for what is already held. */
  predicate Repeats(p: Policy, s: Selection, r: Reading) {
    p.selection == Some(s) && Target(s.enabled, s.threshold, r.capacity, p.held) == Some(p.held)
  }

  /** A repeated request is written, whether or not the write works, only on demand or after five seconds. */
  lemma RetriesAreRare(p: Policy, s: Selection, r: Reading)
    requires Repeats(p, s, r)
    ensures var n := Reconcile(p, s, r).0;
      && n.held == p.held && n.selection == p.selection && p.writes <= n.writes <= p.writes + 1
      && (n.writes == p.writes ==> n.lastWrite == p.lastWrite)
      && (n.writes > p.writes ==>
            n.lastWrite == Some(r.now) && (r.explicit || p.lastWrite.None? || r.now - p.lastWrite.value >= RETRY_MS))
  {
  }

  /** A request that stays the same while time goes on, with nothing asked for explicitly. */
  predicate Steady(p: Policy, s: Selection, rs: seq<Reading>) {
    && (forall i :: 0 <= i < |rs| ==> Repeats(p, s, rs[i]) && !rs[i].explicit)
    && (forall i, j :: 0 <= i < j < |rs| ==> rs[i].now <= rs[j].now)
  }

  /** Against any vendor conflict and any failures, a steady request is written at most once in five seconds. */
  lemma {:induction false} SteadyWritesAreBounded(p: Policy, s: Selection, rs: seq<Reading>)
    requires Steady(p, s, rs)
    ensures var n := After(p, s, rs);
      && n.held == p.held && n.selection == (if rs == [] then p.selection else Some(s)) && n.writes >= p.writes
      && (n.writes == p.writes ==> n.lastWrite == p.lastWrite)
      && (n.writes > p.writes ==> n.lastWrite.Some? && n.lastWrite.value <= rs[|rs| - 1].now)
      && (n.writes > p.writes && p.lastWrite.Some? ==> RETRY_MS * (n.writes - p.writes) <= n.lastWrite.value - p.lastWrite.value)
      && (n.writes > p.writes && p.lastWrite.None? ==> RETRY_MS * (n.writes - p.writes - 1) <= n.lastWrite.value - rs[0].now)
  {
    hide Reconcile, Target;
    if rs != [] {
      var front, r := rs[..|rs| - 1], rs[|rs| - 1];
      assert forall i :: 0 <= i < |front| ==> front[i] == rs[i];
      SteadyWritesAreBounded(p, s, front);
      var m := After(p, s, front);
      assert Repeats(p, s, r) && Repeats(m, s, r);
      RetriesAreRare(m, s, r);
    }
  }

  class BypassPolicy {
    var selection: Option<Selection>
    var held: bool
    var lastWrite: Option<int>
    var live: int
    var writes: nat

    ghost function State(): Policy
      reads this
    {
      Policy(selection, held, lastWrite, live, writes)
    }

    method Reconciled(s: Selection, r: Reading) returns (ok: bool)
      modifies this
      ensures (State(), ok) == Reconcile(old(State()), s, r)
      ensures Meant(old(State()), s, r, State(), ok)
    {
      ReconcileMeans(State(), s, r);
      hide Meant;
      live := r.live;
      if live < 0 {
        return false;
      }
      if selection != Some(s) {
        held := live == 1;
        selection := Some(s);
      }
      var desired := Target(s.enabled, s.threshold, r.capacity, held);
      if desired.None? {
        return false;
      }
      if live != Number(desired.value) {
        if !r.explicit && desired.value == held && lastWrite.Some? && r.now - lastWrite.value < RETRY_MS {
          return true;
        }
        lastWrite := Some(r.now);
        writes := writes + 1;
        if r.written {
          live := Number(desired.value);
        } else {
          live := r.lands;
          return false;
        }
      }
      held := desired.value;
      ok := true;
    }

    /** Reconciles against each reading in turn. */
    method Follow(s: Selection, rs: seq<Reading>) returns (flips: nat)
      requires selection == Some(s)
      modifies this
      ensures State() == After(old(State()), s, rs)
      ensures flips == Flips(old(State()), s, rs)
      ensures 2 * (flips - 1) <= Variation(Levels(rs))
    {
      ghost var p := State();
      flips := 0;
      assert rs[..0] == [];
      for i := 0 to |rs|
        invariant State() == After(p, s, rs[..i])
        invariant flips == Flips(p, s, rs[..i])
      {
        var was := held;
        var ok := Reconciled(s, rs[i]);
        assert rs[..i + 1][..i] == rs[..i] && rs[..i + 1][i] == rs[i];
        flips := if held != was then flips + 1 else flips;
      }
      assert rs[..|rs|] == rs;
      FlipsAreBounded(p, s, rs);
    }
  }
}

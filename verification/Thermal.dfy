// Borrowing the vendor's CPU thermal mode while custom frequency ranges are saved.
module Thermal {
  import opened Wrappers

  datatype Policy = P0 | P4 | P7

  /** The outcome of one atomic step; a failed or interrupted mode write leaves any raw mode. */
  datatype Outcome = Fine | Fails(raw: int) | Dies(raw: int)

  datatype Script = End | Then(outcome: Outcome, rest: Script)

  /**
   * `mode` is the raw kernel value. `prev` and `ranges` are the persisted record, which memory
   * follows after every save; `ranges` are the clusters with a saved range.
   */
  datatype World = World(mode: int, prev: int, ranges: set<Policy>, alive: bool, script: Script)

  const NO_LIMITS := 6

  predicate ValidMode(mode: int) {
    0 <= mode <= 0x800
  }

  /** An unset mode reads as the normal one; anything out of range is an error. */
  function Normal(raw: int): Option<int> {
    if raw == -1 then Some(0) else if ValidMode(raw) then Some(raw) else None
  }

  predicate Acts(w: World) {
    w.alive && w.script.Then?
  }

  function Advance(w: World): World
    requires w.script.Then?
  {
    w.(alive := !w.script.outcome.Dies?, script := w.script.rest)
  }

  function ReadMode(w: World): (World, Option<int>) {
    if !Acts(w) then (w.(alive := false), None)
    else (Advance(w), if w.script.outcome.Fine? then Normal(w.mode) else None)
  }

  /** Writes a mode and reads it back. */
  function WriteMode(w: World, mode: int): (World, bool) {
    if !ValidMode(mode) then (w, false)
    else if !Acts(w) then (w.(alive := false), false)
    else
      var o := w.script.outcome;
      (Advance(w).(mode := match o case Fine => mode case Fails(r) => r case Dies(r) => r), o.Fine?)
  }

  /** Saves a new record; memory keeps the old one if the save fails. */
  function Persist(w: World, prev: int, ranges: set<Policy>): (World, bool) {
    if !Acts(w) then (w.(alive := false), false)
    else if w.script.outcome.Fine? then (Advance(w).(prev := prev, ranges := ranges), true)
    else (Advance(w), false)
  }

  /** Everything else a command does to the device; only its success matters here. */
  function Other(w: World): (World, bool) {
    if !Acts(w) then (w.(alive := false), false) else (Advance(w), w.script.outcome.Fine?)
  }

  function Ensure(w: World): (World, bool) {
    var (a, current) := ReadMode(w);
    if current.None? then (a, false)
    else
      var (b, recorded) := if a.prev < 0 then Persist(a, current.value, a.ranges) else (a, true);
      if !recorded then (b, false)
      else if current.value != NO_LIMITS then WriteMode(b, NO_LIMITS)
      else (b, true)
  }

  function Restore(w: World): (World, bool) {
    if w.prev < 0 then (w, true)
    else
      var (a, current) := ReadMode(w);
      if current.None? then (a, false)
      else
        var (b, written) := if current.value != a.prev then WriteMode(a, a.prev) else (a, true);
        if !written then (b, false) else Persist(b, -1, b.ranges)
  }

  /** Sets a range; a first range that fails gives the mode back at once. */
  function SetRange(w: World, p: Policy, valid: bool): (World, bool) {
    var had := w.ranges != {};
    var (a, ensured) := if valid then Ensure(w) else (w, false);
    var (b, applied) := if ensured then Other(a) else (a, false);
    if applied then Persist(b, b.prev, b.ranges + {p})
    else if !had then (Restore(b).0, false)
    else (b, false)
  }

  function ResetRange(w: World, p: Policy): (World, bool) {
    var (a, ensured) := if w.ranges != {} then Ensure(w) else (w, true);
    var (b, applied) := if ensured then Other(a) else (a, false);
    if !applied then (b, false)
    else
      var (c, saved) := Persist(b, b.prev, b.ranges - {p});
      if !saved then (c, false)
      else if c.ranges == {} then Restore(c) else (c, true)
  }

  function Guard(w: World): World {
    if w.ranges != {} then
      var (a, ensured) := Ensure(w);
      if ensured then Other(a).0 else a
    else if w.prev >= 0 then Restore(w).0
    else w
  }

  // ---------- the invariant ----------

  /** A changed mode is backed by a durable record of the vendor's own, and the record is never another. */
  ghost predicate Inv(w: World, vendor: int) {
    && ValidMode(vendor)
    && (w.prev < 0 ==> Normal(w.mode) == Some(vendor))
    && (w.prev >= 0 ==> w.prev == vendor)
  }

  /** After borrowing, the record is durable before the first write, and success means no limits. */
  lemma EnsureKeeps(w: World, vendor: int)
    requires Inv(w, vendor)
    ensures var (n, ok) := Ensure(w);
      && Inv(n, vendor) && n.ranges == w.ranges && (w.prev >= 0 ==> n.prev == w.prev)
      && (ok ==> n.prev == vendor && Normal(n.mode) == Some(NO_LIMITS) && n.alive)
  {
  }

  /** A restore that succeeds leaves the vendor's mode and no record; one that fails keeps the record. */
  lemma RestoreKeeps(w: World, vendor: int)
    requires Inv(w, vendor)
    ensures var (n, ok) := Restore(w);
      && Inv(n, vendor) && n.ranges == w.ranges
      && (ok ==> n.prev < 0 && Normal(n.mode) == Some(vendor))
      && (!ok ==> n.prev == w.prev)
  {
  }

  lemma SetRangeKeeps(w: World, p: Policy, valid: bool, vendor: int)
    requires Inv(w, vendor)
    ensures var (n, ok) := SetRange(w, p, valid);
      && Inv(n, vendor)
      && (ok ==> n.ranges == w.ranges + {p} && n.prev == vendor && Normal(n.mode) == Some(NO_LIMITS))
      && (!ok ==> n.ranges == w.ranges)
  {
    EnsureKeeps(w, vendor);
    var (a, ensured) := if valid then Ensure(w) else (w, false);
    var (b, applied) := if ensured then Other(a) else (a, false);
    RestoreKeeps(b, vendor);
    hide Ensure, Restore, Normal;
  }

  /** Resetting the last range gives the vendor's mode back and clears the record. */
  lemma ResetRangeKeeps(w: World, p: Policy, vendor: int)
    requires Inv(w, vendor)
    ensures var (n, ok) := ResetRange(w, p);
      && Inv(n, vendor)
      && (ok ==> n.ranges == w.ranges - {p})
      && (ok && n.ranges == {} ==> n.prev < 0 && Normal(n.mode) == Some(vendor))
  {
    EnsureKeeps(w, vendor);
    var (a, ensured) := if w.ranges != {} then Ensure(w) else (w, true);
    var (b, applied) := if ensured then Other(a) else (a, false);
    var (c, saved) := Persist(b, b.prev, b.ranges - {p});
    RestoreKeeps(c, vendor);
    hide Ensure, Restore, Normal;
  }

  // ---------- when nothing fails ----------

  predicate FineFor(s: Script, steps: nat) {
    steps == 0 || (s.Then? && s.outcome.Fine? && FineFor(s.rest, steps - 1))
  }

  ghost predicate Goes(w: World, steps: nat) {
    w.alive && FineFor(w.script, steps)
  }

  lemma {:induction false} FineLess(s: Script, steps: nat, fewer: nat)
    requires FineFor(s, steps) && fewer <= steps
    ensures FineFor(s, fewer)
  {
    if fewer > 0 { FineLess(s.rest, steps - 1, fewer - 1); }
  }

  lemma ReadGoes(w: World, steps: nat)
    requires Goes(w, steps + 1)
    ensures var (n, m) := ReadMode(w); Goes(n, steps) && m == Normal(w.mode) && n == w.(script := n.script)
  {
  }

  lemma WriteGoes(w: World, mode: int, steps: nat)
    requires Goes(w, steps + 1) && ValidMode(mode)
    ensures var (n, ok) := WriteMode(w, mode); ok && Goes(n, steps) && n == w.(mode := mode, script := n.script)
  {
  }

  lemma PersistGoes(w: World, prev: int, ranges: set<Policy>, steps: nat)
    requires Goes(w, steps + 1)
    ensures var (n, ok) := Persist(w, prev, ranges); ok && Goes(n, steps) && n == w.(prev := prev, ranges := ranges, script := n.script)
  {
  }

  lemma OtherGoes(w: World, steps: nat)
    requires Goes(w, steps + 1)
    ensures var (n, ok) := Other(w); ok && Goes(n, steps) && n == w.(script := n.script)
  {
  }

  lemma GoesLess(w: World, steps: nat, fewer: nat)
    requires Goes(w, steps) && fewer <= steps
    ensures Goes(w, fewer)
  {
    FineLess(w.script, steps, fewer);
  }

  /** An unset mode, or one the kernel can have. */
  predicate Readable(raw: int) {
    raw == -1 || 0 <= raw <= 2048
  }

  /** Without failures the mode is lifted exactly when the kernel shows one that can be recorded. */
  lemma EnsureExactly(w: World, vendor: int, steps: nat)
    requires Inv(w, vendor) && Goes(w, steps + 3)
    ensures var (n, ok) := Ensure(w);
      && (ok <==> Readable(w.mode))
      && (ok ==> Goes(n, steps) && n.prev == vendor && n.mode == 6 && n.ranges == w.ranges)
      && (ok && w.prev < 0 ==> n.prev == if w.mode == -1 then 0 else w.mode)
  {
    ReadGoes(w, steps + 2);
    var (a, current) := ReadMode(w);
    if current.Some? {
      PersistGoes(a, current.value, a.ranges, steps + 1);
      GoesLess(a, steps + 2, steps + 1);
      var (b, recorded) := if a.prev < 0 then Persist(a, current.value, a.ranges) else (a, true);
      WriteGoes(b, NO_LIMITS, steps);
      GoesLess(b, steps + 1, steps);
    }
    hide ReadMode, WriteMode, Persist, Goes;
  }

  /** Without failures a borrowed mode is given back exactly when the kernel shows one at all. */
  lemma RestoreExactly(w: World, vendor: int, steps: nat)
    requires Inv(w, vendor) && Goes(w, steps + 3)
    ensures var (n, ok) := Restore(w);
      && (ok <==> w.prev < 0 || Readable(w.mode))
      && (ok ==> Goes(n, steps) && n.prev < 0 && Normal(n.mode) == Some(vendor) && n.ranges == w.ranges)
  {
    GoesLess(w, steps + 3, steps);
    if w.prev >= 0 {
      ReadGoes(w, steps + 2);
      var (a, current) := ReadMode(w);
      if current.Some? {
        WriteGoes(a, a.prev, steps + 1);
        GoesLess(a, steps + 2, steps + 1);
        var (b, written) := if current.value != a.prev then WriteMode(a, a.prev) else (a, true);
        PersistGoes(b, -1, b.ranges, steps);
      }
    }
    hide ReadMode, WriteMode, Persist, Goes;
  }

  /** Without failures a range is set exactly when it is valid and the mode can be lifted. */
  lemma SetRangeExactly(w: World, p: Policy, valid: bool, vendor: int)
    requires Inv(w, vendor) && Goes(w, 5)
    ensures SetRange(w, p, valid).1 <==> valid && Readable(w.mode)
  {
    EnsureExactly(w, vendor, 2);
    hide Ensure, Restore, Persist, Goes;
    if valid && Normal(w.mode).Some? {
      var a := Ensure(w).0;
      OtherGoes(a, 1);
      var b := Other(a).0;
      PersistGoes(b, b.prev, b.ranges + {p}, 0);
    }
  }

  /**
   * A first range that cannot be applied once the limits are lifted does not leave them lifted: if
   * the steps after that failure work, the vendor's mode is back and nothing is recorded.
   */
  lemma FirstRangeUndone(w: World, p: Policy, vendor: int)
    requires Inv(w, vendor) && w.ranges == {} && Ensure(w).1
    requires var a := Ensure(w).0; Acts(a) && a.script.outcome.Fails? && FineFor(a.script.rest, 3)
    ensures var (n, ok) := SetRange(w, p, true); !ok && n.prev < 0 && Normal(n.mode) == Some(vendor) && n.ranges == {}
  {
    EnsureKeeps(w, vendor);
    var a := Ensure(w).0;
    var b := Other(a).0;
    assert b == a.(script := a.script.rest);
    RestoreExactly(b, vendor, 0);
    hide Ensure, Restore;
  }

  /** Without failures a range is reset whenever the mode can be read. */
  lemma ResetRangeSucceeds(w: World, p: Policy, vendor: int)
    requires Inv(w, vendor) && Goes(w, 8) && Readable(w.mode)
    ensures ResetRange(w, p).1
  {
    EnsureExactly(w, vendor, 5);
    EnsureKeeps(w, vendor);
    GoesLess(w, 8, 5);
    hide Ensure, Restore, Persist, Other, Goes;
    var a := if w.ranges != {} then Ensure(w).0 else w;
    OtherGoes(a, 4);
    var b := Other(a).0;
    PersistGoes(b, b.prev, b.ranges - {p}, 3);
    var c := Persist(b, b.prev, b.ranges - {p}).0;
    RestoreExactly(c, vendor, 0);
  }

  /**
   * One guard step keeps the record true. Without failures, and if the mode can be read, it lifts
   * the limits while ranges are saved, and gives the vendor's mode back when none are.
   */
  lemma GuardKeeps(w: World, vendor: int)
    requires Inv(w, vendor)
    ensures Inv(Guard(w), vendor) && Guard(w).ranges == w.ranges
    ensures Goes(w, 4) && Readable(w.mode) ==>
      if w.ranges == {} then Guard(w).prev < 0 && Normal(Guard(w).mode) == Some(vendor)
      else Guard(w).prev == vendor && Guard(w).mode == 6
  {
    EnsureKeeps(w, vendor);
    RestoreKeeps(w, vendor);
    if Goes(w, 4) {
      EnsureExactly(w, vendor, 1);
      RestoreExactly(w, vendor, 1);
    }
    hide Ensure, Restore, Normal, Goes;
  }

  datatype Event =
    | Setting(policy: Policy, valid: bool)
    | Resetting(policy: Policy)
    | Guarding
    | Restarting(script: Script)
    | VendorChanges(raw: int)

  /** The vendor changes its own mode only while it is not borrowed. */
  function Step(w: World, vendor: int, e: Event): (World, int) {
    match e
    case Setting(p, valid) => (SetRange(w, p, valid).0, vendor)
    case Resetting(p) => (ResetRange(w, p).0, vendor)
    case Guarding => (Guard(w), vendor)
    case Restarting(script) => (w.(alive := true, script := script), vendor)
    case VendorChanges(raw) => if w.prev < 0 && Normal(raw).Some? then (w.(mode := raw), Normal(raw).value) else (w, vendor)
  }

  function Run(w: World, vendor: int, es: seq<Event>): (World, int)
    decreases |es|
  {
    if es == [] then (w, vendor) else Run(Step(w, vendor, es[0]).0, Step(w, vendor, es[0]).1, es[1..])
  }

  /**
   * Over every run of range commands, guard steps and restarts, with failures and process deaths
   * at any step: whenever the mode is not the vendor's own, the durable record holds the vendor's
   * own mode, so a no-limits mode the daemon itself chose is never recorded as the one to restore.
   */
  lemma {:induction false} EveryRunKeeps(w: World, vendor: int, es: seq<Event>)
    requires Inv(w, vendor)
    ensures var (n, v) := Run(w, vendor, es);
      Inv(n, v) && (Normal(n.mode) != Some(v) ==> n.prev == v)
    decreases |es|
  {
    if es != [] {
      match es[0]
      case Setting(p, valid) => SetRangeKeeps(w, p, valid, vendor);
      case Resetting(p) => ResetRangeKeeps(w, p, vendor);
      case Guarding => GuardKeeps(w, vendor);
      case _ =>
    }
    hide SetRange, ResetRange, Guard;
    if es != [] {
      EveryRunKeeps(Step(w, vendor, es[0]).0, Step(w, vendor, es[0]).1, es[1..]);
    }
  }

  // ---------- the daemon's form ----------

  class ThermalGuard {
    var mode: int
    var prev: int
    var ranges: set<Policy>
    var alive: bool
    var script: Script

    ghost function State(): World
      reads this
    {
      World(mode, prev, ranges, alive, script)
    }

    method Draw() returns (o: Option<Outcome>)
      modifies this`alive, this`script
      ensures if Acts(old(State())) then o == Some(old(script).outcome) && State() == Advance(old(State()))
              else o == None && State() == old(State()).(alive := false)
    {
      if alive && script.Then? {
        o := Some(script.outcome);
        alive := !script.outcome.Dies?;
        script := script.rest;
      } else {
        o := None;
        alive := false;
      }
    }

    method Read() returns (current: Option<int>)
      modifies this`alive, this`script
      ensures (State(), current) == ReadMode(old(State()))
    {
      var o := Draw();
      current := if o.Some? && o.value.Fine? then Normal(mode) else None;
    }

    method Write(to: int) returns (ok: bool)
      modifies this`mode, this`alive, this`script
      ensures (State(), ok) == WriteMode(old(State()), to)
    {
      if !ValidMode(to) {
        return false;
      }
      var o := Draw();
      ok := o.Some? && o.value.Fine?;
      if o.Some? {
        mode := if ok then to else o.value.raw;
      }
    }

    method Save(p: int, rs: set<Policy>) returns (ok: bool)
      modifies this`prev, this`ranges, this`alive, this`script
      ensures (State(), ok) == Persist(old(State()), p, rs)
    {
      var o := Draw();
      ok := o.Some? && o.value.Fine?;
      if ok {
        prev, ranges := p, rs;
      }
    }

    method EnsureUnrestricted() returns (ok: bool)
      modifies this
      ensures (State(), ok) == Ensure(old(State()))
    {
      var current := Read();
      if current.None? {
        return false;
      }
      if prev < 0 {
        ok := Save(current.value, ranges);
        if !ok {
          return;
        }
      }
      ok := true;
      if current.value != NO_LIMITS {
        ok := Write(NO_LIMITS);
      }
    }

    method RestoreMode() returns (ok: bool)
      modifies this
      ensures (State(), ok) == Restore(old(State()))
    {
      if prev < 0 {
        return true;
      }
      var current := Read();
      if current.None? {
        return false;
      }
      if current.value != prev {
        ok := Write(prev);
        if !ok {
          return;
        }
      }
      ok := Save(-1, ranges);
    }

    method SetClusterRange(p: Policy, valid: bool) returns (ok: bool)
      modifies this
      ensures (State(), ok) == SetRange(old(State()), p, valid)
    {
      var had := ranges != {};
      ok := valid;
      if ok {
        ok := EnsureUnrestricted();
      }
      if ok {
        var o := Draw();
        ok := o.Some? && o.value.Fine?;
      }
      if ok {
        ok := Save(prev, ranges + {p});
      } else if !had {
        var _ := RestoreMode();
      }
    }

    method ResetClusterRange(p: Policy) returns (ok: bool)
      modifies this
      ensures (State(), ok) == ResetRange(old(State()), p)
    {
      ok := true;
      if ranges != {} {
        ok := EnsureUnrestricted();
      }
      if ok {
        var o := Draw();
        ok := o.Some? && o.value.Fine?;
      }
      if !ok {
        return;
      }
      ok := Save(prev, ranges - {p});
      if ok && ranges == {} {
        ok := RestoreMode();
      }
    }

    method GuardStep()
      modifies this
      ensures State() == Guard(old(State()))
    {
      if ranges != {} {
        var ok := EnsureUnrestricted();
        if ok {
          var _ := Draw();
        }
      } else if prev >= 0 {
        var _ := RestoreMode();
      }
    }
  }
}

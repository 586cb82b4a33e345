// Memory and storage clock sessions: journaled range locks, timed trials and their expiry, with
// a latch that stops everything after a failed restore.
module Clocks {
  import opened RangeOrder

  datatype Kind = Memory | Storage

  /** What the kernel offers for one device: its states in rising order, and whether locks are allowed. */
  datatype Driver = Driver(levels: seq<nat>, supported: bool)

  type Drivers = map<Kind, Driver>

  /**
   * The outcome of one atomic step. A write that drifts succeeds but leaves another value than the
   * requested one; a write that fails, or that the process dies in, leaves any value.
   */
  datatype Outcome = Fine | Drifts(hz: nat) | Fails(hz: nat) | Dies(hz: nat)

  datatype Script = End | Then(outcome: Outcome, rest: Script)

  /** `now` and `journal` survive a process death. */
  datatype World = World(
    now: map<Kind, Range>,
    journal: map<Kind, Range>,
    originals: map<Kind, Range>,
    deadlines: map<Kind, int>,
    targets: map<Kind, Range>,
    error: bool,
    journalInvalid: bool,
    alive: bool,
    script: Script)

  const TRIAL_SECONDS := 30

  // ---------- atomic steps ----------

  predicate Acts(w: World) {
    w.alive && w.script.Then?
  }

  function Stop(w: World): World {
    w.(alive := false)
  }

  predicate Works(o: Outcome) {
    o.Fine? || o.Drifts?
  }

  /** Reading a device node. */
  function Look(w: World): (World, bool) {
    if !Acts(w) then (Stop(w), false)
    else (w.(alive := !w.script.outcome.Dies?, script := w.script.rest), Works(w.script.outcome))
  }

  function Left(o: Outcome, hz: nat): nat {
    match o case Fine => hz case Drifts(h) => h case Fails(h) => h case Dies(h) => h
  }

  /** Writing one bound of a device. */
  function WriteBound(w: World, k: Kind, floor: bool, hz: nat): (World, bool)
    requires k in w.now
  {
    if !Acts(w) then (Stop(w), false)
    else
      var o := w.script.outcome;
      var r := if floor then w.now[k].(min := Left(o, hz)) else w.now[k].(max := Left(o, hz));
      (w.(now := w.now[k := r], alive := !o.Dies?, script := w.script.rest), Works(o))
  }

  function Journal(w: World, entries: map<Kind, Range>): (World, bool) {
    if !Acts(w) then (Stop(w), false)
    else
      var o := w.script.outcome;
      (w.(journal := if Works(o) then entries else w.journal, alive := !o.Dies?, script := w.script.rest), Works(o))
  }

  // ---------- range writes ----------

  function WriteFloor(w: World, k: Kind, hz: nat): (World, bool)
    requires k in w.now
  {
    var (a, ok) := WriteBound(w, k, true, hz);
    if !ok then (a, false)
    else
      var (b, read) := Look(a);
      (b, read && b.now[k].min == hz)
  }

  function CeilingThenFloor(w: World, k: Kind, to: Range): (World, bool)
    requires k in w.now
  {
    var (a, ok) := WriteBound(w, k, false, to.max);
    if ok && k in a.now then WriteFloor(a, k, to.min) else (a, false)
  }

  function FloorThenCeiling(w: World, k: Kind, to: Range): (World, bool)
    requires k in w.now
  {
    var (a, ok) := WriteFloor(w, k, to.min);
    if ok && k in a.now then WriteBound(a, k, false, to.max) else (a, false)
  }

  /** Writes both bounds in the order that keeps the range open, and checks the result. */
  function WriteRange(w: World, k: Kind, to: Range): (World, bool)
    requires k in w.now
  {
    if !Ordered(to) then (w, false)
    else
      var (a, read) := Look(w);
      if !read || k !in a.now then (a, false)
      else
        var (b, written) := if to.min > a.now[k].max then CeilingThenFloor(a, k, to) else FloorThenCeiling(a, k, to);
        if !written || k !in b.now then (b, false)
        else
          var (c, checked) := Look(b);
          (c, checked && k in c.now && c.now[k] == to)
  }

  // ---------- restoring ----------

  /** Whether a bound is one the restore code will write: unset, or within the device's table. */
  predicate InTable(hz: nat, d: Driver) {
    hz == 0 || (d.levels != [] && d.levels[0] <= hz <= d.levels[|d.levels| - 1])
  }

  predicate Restorable(r: Range, d: Driver) {
    d.levels != [] && InTable(r.min, d) && InTable(r.max, d) && Ordered(r)
  }

  function Drop(w: World, k: Kind): World {
    w.(originals := w.originals - {k}, deadlines := w.deadlines - {k}, targets := w.targets - {k})
  }

  function RestoreOne(w: World, drivers: Drivers, k: Kind): (World, bool)
    requires k in w.now && k in drivers
  {
    if k !in w.originals then (w, true)
    else
      var original, d := w.originals[k], drivers[k];
      var (a, seen) := Look(w);
      if !seen || d.levels == [] || !InTable(original.min, d) || !InTable(original.max, d) then (a, false)
      else
        var (b, written) := WriteRange(a, k, original);
        if !written then (b, false)
        else
          var (c, saved) := Journal(b, b.originals - {k});
          if !saved then (c, false) else (Drop(c, k), true)
  }

  function RestoreAll(w: World, drivers: Drivers): (World, bool)
    requires Memory in w.now && Storage in w.now && Memory in drivers && Storage in drivers
  {
    if w.journalInvalid then (w, false)
    else
      var (a, memory) := RestoreOne(w, drivers, Memory);
      if !memory || Storage !in a.now then (a, false)
      else
        var (b, storage) := RestoreOne(a, drivers, Storage);
        if !storage then (b, false) else (b.(error := false), true)
  }

  // ---------- commands ----------

  /** Records the bounds in force before the first write of a session, in memory and on disk. */
  function Capture(w: World, k: Kind): (World, bool)
    requires k in w.now
  {
    var (a, seen) := Look(w);
    if seen && k in a.now then Record(a, k) else (a, false)
  }

  function Record(w: World, k: Kind): (World, bool)
    requires k in w.now
  {
    var (b, saved) := Journal(w, w.originals[k := w.now[k]]);
    (b.(originals := if saved then w.originals[k := w.now[k]] else w.originals), saved)
  }

  /** A failed lock is undone at once; if that fails too, the latch closes. */
  function Undo(w: World, drivers: Drivers, k: Kind): World
    requires k in w.now && k in drivers
  {
    var (n, restored) := RestoreOne(w, drivers, k);
    if restored then n else n.(error := true)
  }

  /** The request is validated once more right before it is written. */
  function ApplyRange(w: World, k: Kind, to: Range): (World, bool)
    requires k in w.now
  {
    var (a, seen) := Look(w);
    if seen && k in a.now then WriteRange(a, k, to) else (a, false)
  }

  function ApplyMax(w: World, k: Kind, top: nat): (World, bool)
    requires k in w.now
  {
    var (a, seen) := Look(w);
    if !seen || k !in a.now || top > a.now[k].max then (a, false) else WriteFloor(a, k, top)
  }

  /** Reads the ceiling and the device, and rejects a malformed request before anything is written. */
  function Admit(w: World, drivers: Drivers, k: Kind, to: Range): (World, bool)
    requires k in w.now && k in drivers
  {
    var (a, seen) := if k in w.originals then (w, true) else Look(w);
    if !seen || k !in a.now then (a, false)
    else
      var ceiling := if k in a.originals then a.originals[k].max else a.now[k].max;
      var (b, inspected) := Look(a);
      var d := drivers[k];
      (b, inspected && d.supported && Ordered(to) && to.min in d.levels && to.max in d.levels && to.max <= ceiling)
  }

  function Hold(w: World, k: Kind): (World, bool)
    requires k in w.now
  {
    if k in w.originals then (w, true) else Capture(w, k)
  }

  /** Applies a lock whose original is durable; it ends any timed trial of the device. */
  function Lock(w: World, drivers: Drivers, k: Kind, to: Range): (World, bool)
    requires k in w.now && k in drivers
  {
    var (e, written) := ApplyRange(w, k, to);
    if k !in e.now then (e, false)
    else if !written then (Undo(e, drivers, k), false)
    else (e.(deadlines := e.deadlines - {k}, targets := e.targets[k := to]), true)
  }

  function Level(w: World, drivers: Drivers, k: Kind, to: Range, enabled: bool): (World, bool)
    requires k in w.now && k in drivers
  {
    if !enabled || w.journalInvalid || w.error then (w, false)
    else
      var (a, admitted) := Admit(w, drivers, k, to);
      if !admitted || k !in a.now then (a, false)
      else
        var (b, held) := Hold(a, k);
        if !held || k !in b.now then (b, false) else Lock(b, drivers, k, to)
  }

  /** Applies the highest state for a while; the original is durable. */
  function Time(w: World, drivers: Drivers, k: Kind, top: nat, until: int): (World, bool)
    requires k in w.now && k in drivers
  {
    var (c, written) := ApplyMax(w, k, top);
    if k !in c.now then (c, false)
    else if !written then (Undo(c, drivers, k), false)
    else (c.(deadlines := c.deadlines[k := until]), true)
  }

  function StartTrial(w: World, drivers: Drivers, k: Kind, top: nat, until: int): (World, bool)
    requires k in w.now && k in drivers
  {
    var (b, held) := Capture(w, k);
    if held && k in b.now then Time(b, drivers, k, top, until) else (b, false)
  }

  function Trial(w: World, drivers: Drivers, k: Kind, enabled: bool, time: int): (World, bool)
    requires k in w.now && k in drivers
  {
    if !enabled || w.error then (w, false)
    else
      var (a, seen) := Look(w);
      var d := drivers[k];
      if !seen || !d.supported || d.levels == [] || k in a.originals || k !in a.now then (a, false)
      else StartTrial(a, drivers, k, d.levels[|d.levels| - 1], time + TRIAL_SECONDS)
  }

  function Oem(w: World, drivers: Drivers, k: Kind): (World, bool)
    requires k in w.now && k in drivers
  {
    if w.journalInvalid then (w, false)
    else
      var (n, restored) := RestoreOne(w, drivers, k);
      if restored then (n.(error := false), true) else (n, false)
  }

  /** One expired trial: restored, or given up with its journal entry kept. */
  function ExpireOne(w: World, drivers: Drivers, k: Kind): World
    requires k in w.now && k in drivers
  {
    var (n, restored) := RestoreOne(w, drivers, k);
    if restored then n else n.(error := true, deadlines := n.deadlines - {k})
  }

  function Due(w: World, k: Kind, time: int): bool {
    k in w.deadlines && w.deadlines[k] <= time
  }

  /** The trials whose deadline has passed, collected before any of them is touched. */
  function Expired(w: World, time: int): seq<Kind> {
    (if Due(w, Memory, time) then [Memory] else []) + (if Due(w, Storage, time) then [Storage] else [])
  }

  function ExpireEach(ks: seq<Kind>, w: World, drivers: Drivers): World {
    if ks == [] || ks[0] !in w.now || ks[0] !in drivers then w
    else ExpireEach(ks[1..], ExpireOne(w, drivers, ks[0]), drivers)
  }

  function Expire(w: World, drivers: Drivers, time: int): World {
    ExpireEach(Expired(w, time), w, drivers)
  }

  /** A new process reads the journal; one it cannot read closes the latch for good. */
  function Restart(w: World, drivers: Drivers, script: Script): World
    requires Memory in w.now && Storage in w.now && Memory in drivers && Storage in drivers
  {
    var blank := w.(originals := map[], deadlines := map[], targets := map[], error := false, journalInvalid := false,
                    alive := true, script := script);
    var (a, read) := Look(blank);
    if !read then a.(error := true, journalInvalid := true)
    else
      var (b, restored) := RestoreAll(a.(originals := a.journal), drivers);
      if restored then b else b.(error := true)
  }

  // ---------- what each part may do ----------

  /** Nothing changed but the device `k`, and the process may have died. */
  ghost predicate OnlyDevice(w: World, n: World, k: Kind) {
    && n == w.(now := n.now, alive := n.alive, script := n.script)
    && (n.alive ==> w.alive)
    && k in w.now && k in n.now && n.now == w.now[k := n.now[k]]
  }

  lemma OnlyDeviceChain(a: World, b: World, c: World, k: Kind)
    requires OnlyDevice(a, b, k) && OnlyDevice(b, c, k)
    ensures OnlyDevice(a, c, k)
  {
  }

  lemma LookEffect(w: World, k: Kind)
    requires k in w.now
    ensures var (n, ok) := Look(w); OnlyDevice(w, n, k) && n.now == w.now && (ok ==> n.alive)
  {
    assert w.now == w.now[k := w.now[k]];
  }

  lemma WriteBoundEffect(w: World, k: Kind, floor: bool, hz: nat)
    requires k in w.now
    ensures var (n, ok) := WriteBound(w, k, floor, hz);
      OnlyDevice(w, n, k) && (ok ==> n.alive) && (floor ==> n.now[k].max == w.now[k].max) && (!floor ==> n.now[k].min == w.now[k].min)
  {
    assert w.now == w.now[k := w.now[k]];
  }

  lemma WriteFloorEffect(w: World, k: Kind, hz: nat)
    requires k in w.now
    ensures var (n, ok) := WriteFloor(w, k, hz);
      OnlyDevice(w, n, k) && (ok ==> n.alive && n.now[k].min == hz) && n.now[k].max == w.now[k].max
  {
    WriteBoundEffect(w, k, true, hz);
    var (a, written) := WriteBound(w, k, true, hz);
    hide WriteBound, Look;
    if written {
      LookEffect(a, k);
      OnlyDeviceChain(w, a, Look(a).0, k);
    }
  }

  lemma BothBoundsEffect(w: World, k: Kind, to: Range)
    requires k in w.now
    ensures OnlyDevice(w, CeilingThenFloor(w, k, to).0, k) && OnlyDevice(w, FloorThenCeiling(w, k, to).0, k)
  {
    WriteBoundEffect(w, k, false, to.max);
    WriteFloorEffect(w, k, to.min);
    var a, b := WriteBound(w, k, false, to.max).0, WriteFloor(w, k, to.min).0;
    WriteFloorEffect(a, k, to.min);
    WriteBoundEffect(b, k, false, to.max);
    OnlyDeviceChain(w, a, WriteFloor(a, k, to.min).0, k);
    OnlyDeviceChain(w, b, WriteBound(b, k, false, to.max).0, k);
    hide WriteBound, WriteFloor, OnlyDevice;
  }

  /** A range write touches one device, and reports success only when both bounds are exactly right. */
  lemma WriteRangeEffect(w: World, k: Kind, to: Range)
    requires k in w.now
    ensures var (n, ok) := WriteRange(w, k, to); OnlyDevice(w, n, k) && (ok ==> n.alive && k in n.now && n.now[k] == to)
  {
    hide CeilingThenFloor, FloorThenCeiling, Look, OnlyDevice;
    OnlyDeviceSelf(w, k);
    LookEffect(w, k);
    var (a, read) := Look(w);
    BothBoundsEffect(a, k, to);
    var (b, written) := if to.min > a.now[k].max then CeilingThenFloor(a, k, to) else FloorThenCeiling(a, k, to);
    OnlyDeviceChain(w, a, b, k);
    LookEffect(b, k);
    OnlyDeviceChain(w, b, Look(b).0, k);
  }

  lemma OnlyDeviceSelf(w: World, k: Kind)
    requires k in w.now
    ensures OnlyDevice(w, w, k)
  {
    assert w.now == w.now[k := w.now[k]];
  }

  // ---------- the invariant ----------

  /** The bounds in force before any session touched the devices. */
  type Bounds = map<Kind, Range>

  ghost predicate SafeFor(w: World, oem: Bounds, k: Kind) {
    && k in w.now && k in oem
    && (k in w.journal ==> w.journal[k] == oem[k])
    && (k !in w.journal ==> w.now[k] == oem[k])
  }

  /** A device may differ from its OEM bounds only while the disk holds them. */
  ghost predicate CrashSafe(w: World, oem: Bounds) {
    forall k: Kind :: SafeFor(w, oem, k)
  }

  /** Timed trials and fixed locks are disjoint, and both have their original. */
  ghost predicate Indexed(w: World) {
    forall k: Kind ::
      && (k in w.deadlines || k in w.targets ==> k in w.originals)
      && !(k in w.deadlines && k in w.targets)
  }

  ghost predicate Inv(w: World, oem: Bounds) {
    && CrashSafe(w, oem)
    && Indexed(w)
    && (w.alive && !w.journalInvalid ==> w.journal == w.originals)
    && (w.journalInvalid ==> w.error && w.originals == map[])
  }

  lemma DeviceKeeps(w: World, n: World, oem: Bounds, k: Kind)
    requires Inv(w, oem) && OnlyDevice(w, n, k) && (n.now == w.now || k in w.journal)
    ensures Inv(n, oem)
  {
    forall j: Kind ensures SafeFor(n, oem, j) { assert SafeFor(w, oem, j); }
  }

  lemma Known(w: World, oem: Bounds, k: Kind)
    requires Inv(w, oem)
    ensures k in w.now && k in oem && (k in w.journal ==> w.journal[k] == oem[k]) && (k !in w.journal ==> w.now[k] == oem[k])
  {
    assert SafeFor(w, oem, k);
  }

  /** A restore that succeeds puts both OEM bounds back and forgets the session; one that fails keeps the record. */
  ghost predicate RestoreOutcome(w: World, n: World, oem: Bounds, k: Kind, ok: bool) {
    && Inv(n, oem) && n.error == w.error && n.journalInvalid == w.journalInvalid
    && (n.alive ==> w.alive)
    && (forall j: Kind :: j != k && j in w.now ==> j in n.now && n.now[j] == w.now[j])
    && k in n.now && k in oem
    && (if ok then
          && n.originals == w.originals - {k} && n.deadlines.Keys == w.deadlines.Keys - {k} && n.targets.Keys == w.targets.Keys - {k}
          && (w.alive ==> n.now[k] == oem[k] && n.alive)
        else n.originals == w.originals && n.journal == w.journal && n.deadlines == w.deadlines && n.targets == w.targets)
  }

  lemma RestoreOneKeeps(w: World, drivers: Drivers, oem: Bounds, k: Kind)
    requires Inv(w, oem) && k in w.now && k in drivers && !w.journalInvalid
    ensures RestoreOutcome(w, RestoreOne(w, drivers, k).0, oem, k, RestoreOne(w, drivers, k).1)
  {
    Known(w, oem, k);
    if k !in w.originals {
      NothingToRestore(w, oem, k);
    } else {
      var original := w.originals[k];
      LookEffect(w, k);
      var (a, seen) := Look(w);
      WriteRangeEffect(a, k, original);
      var (b, written) := WriteRange(a, k, original);
      OnlyDeviceChain(w, a, b, k);
      UnfinishedRestore(w, a, oem, k);
      if w.alive {
        UnfinishedRestore(w, b, oem, k);
        if seen && written { FinishedRestore(w, b, oem, k); }
      }
      hide RestoreOutcome, OnlyDevice, Inv, WriteRange, Look, InTable, Journal, Drop;
    }
  }

  lemma NothingToRestore(w: World, oem: Bounds, k: Kind)
    requires Inv(w, oem) && k !in w.originals && !w.journalInvalid
    ensures RestoreOutcome(w, w, oem, k, true)
  {
    Known(w, oem, k);
    assert k !in w.deadlines && k !in w.targets by { assert Indexed(w); }
    assert w.originals - {k} == w.originals;
  }

  lemma UnfinishedRestore(w: World, n: World, oem: Bounds, k: Kind)
    requires Inv(w, oem) && OnlyDevice(w, n, k) && (n.now == w.now || k in w.journal)
    ensures RestoreOutcome(w, n, oem, k, false)
  {
    DeviceKeeps(w, n, oem, k);
    Known(w, oem, k);
    hide CrashSafe, Indexed;
  }

  lemma FinishedRestore(w: World, b: World, oem: Bounds, k: Kind)
    requires Inv(w, oem) && w.alive && !w.journalInvalid && k in w.originals
    requires OnlyDevice(w, b, k) && b.alive && b.now[k] == w.originals[k]
    ensures var (c, saved) := Journal(b, b.originals - {k});
      RestoreOutcome(w, if saved then Drop(c, k) else c, oem, k, saved)
  {
    Known(w, oem, k);
    DeviceKeeps(w, b, oem, k);
    JournaledDrop(b, oem, k);
    hide CrashSafe, Indexed;
  }

  lemma JournaledDrop(w: World, oem: Bounds, k: Kind)
    requires Inv(w, oem) && w.alive && !w.journalInvalid && k in w.originals && k in w.now && k in oem && w.now[k] == oem[k]
    ensures var (c, saved) := Journal(w, w.originals - {k});
      if saved then Inv(Drop(c, k), oem) && c.alive else Inv(c, oem) && c.journal == w.journal
  {
    var (c, saved) := Journal(w, w.originals - {k});
    forall j: Kind ensures SafeFor(c, oem, j) { assert SafeFor(w, oem, j); }
    if saved {
      forall j: Kind ensures SafeFor(Drop(c, k), oem, j) { assert SafeFor(c, oem, j); }
    }
  }

  // ---------- commands keep the invariant ----------

  /** A step of a session on device `k`: the invariant holds and the other device is left alone. */
  ghost predicate OnSession(w: World, n: World, oem: Bounds, k: Kind) {
    && Inv(n, oem) && n.journalInvalid == w.journalInvalid && (n.alive ==> w.alive)
    && (forall j: Kind :: j != k && j in w.now ==> j in n.now && n.now[j] == w.now[j])
    && (forall j: Kind :: j != k ==> (j in n.originals <==> j in w.originals))
    && k in n.now && k in oem
  }

  lemma SessionChain(a: World, b: World, c: World, oem: Bounds, k: Kind)
    requires OnSession(a, b, oem, k) && OnSession(b, c, oem, k)
    ensures OnSession(a, c, oem, k)
  {
    hide Inv;
  }

  lemma SessionKnows(w: World, n: World, oem: Bounds, k: Kind)
    requires OnSession(w, n, oem, k)
    ensures k in n.now && k in oem
  {
  }

  lemma SessionSelf(w: World, oem: Bounds, k: Kind)
    requires Inv(w, oem)
    ensures OnSession(w, w, oem, k)
  {
    Known(w, oem, k);
  }

  lemma LookSession(w: World, oem: Bounds, k: Kind)
    requires Inv(w, oem)
    ensures k in w.now
    ensures var (n, ok) := Look(w); OnSession(w, n, oem, k) && OnlyDevice(w, n, k) && n.now == w.now && (ok ==> n.alive && w.alive)
  {
    Known(w, oem, k);
    LookEffect(w, k);
    DeviceKeeps(w, Look(w).0, oem, k);
  }

  lemma DeviceSession(w: World, n: World, oem: Bounds, k: Kind)
    requires Inv(w, oem) && OnlyDevice(w, n, k) && (n.now == w.now || k in w.journal)
    ensures OnSession(w, n, oem, k)
  {
    DeviceKeeps(w, n, oem, k);
    Known(w, oem, k);
    hide Inv;
  }

  lemma LatchSession(w: World, n: World, oem: Bounds, k: Kind)
    requires OnSession(w, n, oem, k)
    ensures OnSession(w, n.(error := true), oem, k)
  {
    forall j: Kind ensures SafeFor(n.(error := true), oem, j) { assert SafeFor(n, oem, j); }
  }

  /** The first write of a session is preceded by a durable record of the bounds in force. */
  lemma CaptureKeeps(w: World, oem: Bounds, k: Kind)
    requires Inv(w, oem) && k !in w.originals && !w.journalInvalid
    ensures k in w.now
    ensures var (n, ok) := Capture(w, k);
      && OnSession(w, n, oem, k) && n.now == w.now
      && (ok ==> n.alive && n.journal == n.originals && k in n.originals && n.originals[k] == oem[k])
  {
    LookSession(w, oem, k);
    var (a, seen) := Look(w);
    if seen {
      RecordKeeps(a, oem, k);
      SessionChain(w, a, Record(a, k).0, oem, k);
    }
    hide Inv, OnSession, Look, Journal;
  }

  lemma RecordKeeps(w: World, oem: Bounds, k: Kind)
    requires Inv(w, oem) && k !in w.originals && !w.journalInvalid && w.alive && k in w.now
    ensures var (n, ok) := Record(w, k);
      && OnSession(w, n, oem, k) && n.now == w.now
      && (ok ==> n.alive && n.journal == n.originals && k in n.originals && k in oem && n.originals[k] == oem[k])
  {
    var (n, ok) := Record(w, k);
    Known(w, oem, k);
    forall j: Kind ensures SafeFor(n, oem, j) { assert SafeFor(w, oem, j); }
  }

  lemma UndoKeeps(w: World, drivers: Drivers, oem: Bounds, k: Kind)
    requires Inv(w, oem) && k in w.now && k in drivers && !w.journalInvalid
    ensures OnSession(w, Undo(w, drivers, k), oem, k)
  {
    RestoreOneKeeps(w, drivers, oem, k);
    var (n, ok) := RestoreOne(w, drivers, k);
    hide RestoreOne, Inv, RestoreOutcome;
    LatchSession(w, n, oem, k);
  }

  lemma ApplyRangeEffect(w: World, k: Kind, to: Range)
    requires k in w.now
    ensures var (n, ok) := ApplyRange(w, k, to); OnlyDevice(w, n, k) && (ok ==> n.alive && k in n.now && n.now[k] == to)
  {
    LookEffect(w, k);
    var (a, seen) := Look(w);
    WriteRangeEffect(a, k, to);
    OnlyDeviceChain(w, a, WriteRange(a, k, to).0, k);
    hide OnlyDevice, WriteRange, Look;
  }

  lemma ApplyMaxEffect(w: World, k: Kind, top: nat)
    requires k in w.now
    ensures var (n, ok) := ApplyMax(w, k, top);
      OnlyDevice(w, n, k) && (ok ==> n.alive && k in n.now && n.now[k] == Range(top, w.now[k].max) && top <= w.now[k].max)
  {
    LookEffect(w, k);
    var (a, seen) := Look(w);
    WriteFloorEffect(a, k, top);
    OnlyDeviceChain(w, a, WriteFloor(a, k, top).0, k);
    hide OnlyDevice, WriteFloor, Look;
  }

  /** A lock that was applied replaces any timed trial of the same device. */
  lemma LockedKeeps(w: World, oem: Bounds, k: Kind, to: Range)
    requires Inv(w, oem) && k in w.originals && w.alive
    ensures var n := w.(deadlines := w.deadlines - {k}, targets := w.targets[k := to]); OnSession(w, n, oem, k)
  {
    var n := w.(deadlines := w.deadlines - {k}, targets := w.targets[k := to]);
    Known(w, oem, k);
    forall j: Kind ensures SafeFor(n, oem, j) { assert SafeFor(w, oem, j); }
  }

  lemma TimedKeeps(w: World, oem: Bounds, k: Kind, until: int)
    requires Inv(w, oem) && k in w.originals && k !in w.targets && w.alive
    ensures OnSession(w, w.(deadlines := w.deadlines[k := until]), oem, k)
  {
    var n := w.(deadlines := w.deadlines[k := until]);
    Known(w, oem, k);
    forall j: Kind ensures SafeFor(n, oem, j) { assert SafeFor(w, oem, j); }
  }

  lemma LockKeeps(w: World, drivers: Drivers, oem: Bounds, k: Kind, to: Range)
    requires Inv(w, oem) && k in w.originals && k in w.journal && k in w.now && k in drivers && !w.journalInvalid
    ensures var (n, ok) := Lock(w, drivers, k, to);
      OnSession(w, n, oem, k) && (ok ==> n.now[k] == to && k in n.targets && n.targets[k] == to && n.alive && k in n.originals)
  {
    ApplyRangeEffect(w, k, to);
    var (e, written) := ApplyRange(w, k, to);
    DeviceSession(w, e, oem, k);
    if written {
      LockedKeeps(e, oem, k, to);
      SessionChain(w, e, e.(deadlines := e.deadlines - {k}, targets := e.targets[k := to]), oem, k);
    } else {
      UndoKeeps(e, drivers, oem, k);
      SessionChain(w, e, Undo(e, drivers, k), oem, k);
    }
    hide Inv, ApplyRange, Undo;
  }

  lemma AdmitKeeps(w: World, drivers: Drivers, oem: Bounds, k: Kind, to: Range)
    requires Inv(w, oem) && !w.journalInvalid && k in drivers
    ensures k in w.now
    ensures var (n, ok) := Admit(w, drivers, k, to);
      && OnSession(w, n, oem, k) && n.originals == w.originals && n.journal == w.journal && !n.journalInvalid
      && (ok ==> to.max <= oem[k].max && n.alive)
      && (ok ==> drivers[k].supported && Ordered(to) && to.min in drivers[k].levels && to.max in drivers[k].levels)
  {
    Known(w, oem, k);
    SessionSelf(w, oem, k);
    LookSession(w, oem, k);
    var (a, seen) := if k in w.originals then (w, true) else Look(w);
    LookSession(a, oem, k);
    Known(a, oem, k);
    SessionChain(w, a, Look(a).0, oem, k);
    assert a.alive ==> a.journal == a.originals;
    hide Inv, CrashSafe, Look;
  }

  lemma HoldKeeps(w: World, oem: Bounds, k: Kind)
    requires Inv(w, oem) && !w.journalInvalid && w.alive
    ensures k in w.now
    ensures var (n, ok) := Hold(w, k);
      OnSession(w, n, oem, k) && n.now == w.now && (ok ==> n.alive && k in n.originals && k in n.journal)
  {
    Known(w, oem, k);
    if k in w.originals { SessionSelf(w, oem, k); } else { CaptureKeeps(w, oem, k); }
    assert w.journal == w.originals;
    hide Inv, Capture;
  }

  /**
   * A lock command, whatever fails: the invariant holds, the other device is untouched, and when
   * it succeeds the device shows exactly the requested bounds, which the driver advertises and which
   * do not exceed the ceiling in force before any session.
   */
  lemma LevelKeeps(w: World, drivers: Drivers, oem: Bounds, k: Kind, to: Range, enabled: bool)
    requires Inv(w, oem) && k in w.now && k in drivers
    ensures var (n, ok) := Level(w, drivers, k, to, enabled);
      && OnSession(w, n, oem, k)
      && (ok ==> n.now[k] == to && to.max <= oem[k].max && n.alive && k in n.originals)
      && (ok ==> drivers[k].supported && Ordered(to) && to.min in drivers[k].levels && to.max in drivers[k].levels)
      && (w.journalInvalid ==> n == w)
  {
    SessionSelf(w, oem, k);
    if enabled && !w.journalInvalid && !w.error {
      AdmitKeeps(w, drivers, oem, k, to);
      var (a, admitted) := Admit(w, drivers, k, to);
      if admitted {
        HoldKeeps(a, oem, k);
        var (b, held) := Hold(a, k);
        SessionChain(w, a, b, oem, k);
        if held {
          LockKeeps(b, drivers, oem, k, to);
          SessionChain(w, b, Lock(b, drivers, k, to).0, oem, k);
        }
      }
    }
    hide Inv, Admit, Hold, Lock;
  }

  lemma TimeKeeps(w: World, drivers: Drivers, oem: Bounds, k: Kind, top: nat, until: int)
    requires Inv(w, oem) && k in w.originals && k in w.journal && k !in w.targets && k in drivers && !w.journalInvalid
    ensures k in w.now
    ensures var (n, ok) := Time(w, drivers, k, top, until);
      && OnSession(w, n, oem, k)
      && (ok ==> n.now[k] == Range(top, w.now[k].max) && top <= w.now[k].max && k in n.deadlines && n.deadlines[k] == until && n.alive)
  {
    Known(w, oem, k);
    ApplyMaxEffect(w, k, top);
    var (c, written) := ApplyMax(w, k, top);
    DeviceSession(w, c, oem, k);
    if written {
      TimedKeeps(c, oem, k, until);
      SessionChain(w, c, c.(deadlines := c.deadlines[k := until]), oem, k);
    } else {
      UndoKeeps(c, drivers, oem, k);
      SessionChain(w, c, Undo(c, drivers, k), oem, k);
    }
    hide Inv, ApplyMax, Undo;
  }

  lemma StartTrialKeeps(w: World, drivers: Drivers, oem: Bounds, k: Kind, top: nat, until: int)
    requires Inv(w, oem) && k !in w.originals && k in drivers && !w.journalInvalid && w.alive
    ensures k in w.now
    ensures var (n, ok) := StartTrial(w, drivers, k, top, until);
      && OnSession(w, n, oem, k)
      && (ok ==> n.now[k] == Range(top, oem[k].max) && top <= oem[k].max && k in n.deadlines && n.deadlines[k] == until && n.alive)
  {
    Known(w, oem, k);
    assert k !in w.targets by { assert Indexed(w); }
    assert k !in w.journal;
    hide Inv, CrashSafe, Indexed, Capture, Time;
    CaptureKeeps(w, oem, k);
    var (b, held) := Capture(w, k);
    if held {
      TimeKeeps(b, drivers, oem, k, top, until);
      SessionChain(w, b, Time(b, drivers, k, top, until).0, oem, k);
    }
  }

  /**
   * A trial only starts on an idle device, raises only the floor, to the highest state, under the
   * ceiling in force before any session, and gets a deadline.
   */
  lemma TrialKeeps(w: World, drivers: Drivers, oem: Bounds, k: Kind, enabled: bool, time: int)
    requires Inv(w, oem) && k in w.now && k in drivers
    ensures var (n, ok) := Trial(w, drivers, k, enabled, time);
      && OnSession(w, n, oem, k)
      && (ok ==>
            && k !in w.originals && k in n.deadlines && n.deadlines[k] == time + 30 && n.alive
            && var levels := drivers[k].levels;
               levels != [] && n.now[k] == Range(levels[|levels| - 1], oem[k].max) && levels[|levels| - 1] <= oem[k].max)
      && (w.journalInvalid ==> n == w)
  {
    hide CrashSafe, Indexed, Look, StartTrial;
    SessionSelf(w, oem, k);
    if enabled && !w.error {
      LookSession(w, oem, k);
      var (a, seen) := Look(w);
      var d := drivers[k];
      if seen && d.supported && d.levels != [] && k !in a.originals {
        StartTrialKeeps(a, drivers, oem, k, d.levels[|d.levels| - 1], time + TRIAL_SECONDS);
        SessionChain(w, a, StartTrial(a, drivers, k, d.levels[|d.levels| - 1], time + TRIAL_SECONDS).0, oem, k);
      }
    }
  }

  /** OEM reset gives both captured bounds back, leaves the other device alone, and reopens the latch. */
  lemma OemKeeps(w: World, drivers: Drivers, oem: Bounds, k: Kind)
    requires Inv(w, oem) && k in w.now && k in drivers
    ensures var (n, ok) := Oem(w, drivers, k);
      && OnSession(w, n, oem, k)
      && (ok && w.alive ==> n.now[k] == oem[k] && k !in n.originals && k !in n.journal && !n.error)
      && (w.journalInvalid ==> n == w && !ok)
  {
    SessionSelf(w, oem, k);
    if !w.journalInvalid {
      RestoreOneKeeps(w, drivers, oem, k);
      var (n, ok) := RestoreOne(w, drivers, k);
      ReopenSession(w, n, oem, k);
      if ok && w.alive { assert n.journal == n.originals; }
    }
    hide CrashSafe, Indexed, RestoreOne;
  }

  lemma ReopenSession(w: World, n: World, oem: Bounds, k: Kind)
    requires OnSession(w, n, oem, k) && !n.journalInvalid
    ensures OnSession(w, n.(error := false), oem, k)
  {
    forall j: Kind ensures SafeFor(n.(error := false), oem, j) { assert SafeFor(n, oem, j); }
  }

  /** A complete reset leaves both devices at their OEM bounds and nothing on record. */
  lemma RestoreAllKeeps(w: World, drivers: Drivers, oem: Bounds)
    requires Inv(w, oem) && Memory in w.now && Storage in w.now && Memory in drivers && Storage in drivers
    ensures var (n, ok) := RestoreAll(w, drivers);
      && Inv(n, oem) && n.journalInvalid == w.journalInvalid && (n.alive ==> w.alive)
      && (ok && w.alive ==>
            && n.originals == map[] && n.journal == map[] && !n.error
            && forall k: Kind :: k in n.now && k in oem && n.now[k] == oem[k])
      && (w.journalInvalid ==> n == w && !ok)
  {
    if !w.journalInvalid {
      RestoreOneKeeps(w, drivers, oem, Memory);
      var (a, memory) := RestoreOne(w, drivers, Memory);
      Known(a, oem, Storage);
      if memory {
        RestoreOneKeeps(a, drivers, oem, Storage);
        var (b, storage) := RestoreOne(a, drivers, Storage);
        ReopenSession(a, b, oem, Storage);
        if storage && w.alive {
          assert b.originals == map[] by {
            assert b.originals == a.originals - {Storage} && a.originals == w.originals - {Memory};
            assert forall k: Kind :: k != Memory && k != Storage ==> k !in b.originals;
          }
          assert b.journal == b.originals;
          EverythingBack(b.(error := false), oem);
        }
      }
    }
    hide CrashSafe, Indexed, RestoreOne;
  }

  lemma EverythingBack(w: World, oem: Bounds)
    requires Inv(w, oem) && w.journal == map[]
    ensures forall k: Kind :: k in w.now && k in oem && w.now[k] == oem[k]
  {
    forall k: Kind ensures k in w.now && k in oem && w.now[k] == oem[k] { Known(w, oem, k); }
  }

  lemma ExpireOneKeeps(w: World, drivers: Drivers, oem: Bounds, k: Kind)
    requires Inv(w, oem) && k in w.now && k in drivers && k in w.deadlines
    ensures OnSession(w, ExpireOne(w, drivers, k), oem, k)
    ensures k !in ExpireOne(w, drivers, k).deadlines
  {
    assert k in w.originals by { assert Indexed(w); }
    RestoreOneKeeps(w, drivers, oem, k);
    var (n, ok) := RestoreOne(w, drivers, k);
    if !ok {
      LatchSession(w, n, oem, k);
      UntimedSession(w, n.(error := true), oem, k);
    }
    hide CrashSafe, Indexed, RestoreOne;
  }

  lemma UntimedSession(w: World, n: World, oem: Bounds, k: Kind)
    requires OnSession(w, n, oem, k)
    ensures OnSession(w, n.(deadlines := n.deadlines - {k}), oem, k)
  {
    var m := n.(deadlines := n.deadlines - {k});
    forall j: Kind ensures SafeFor(m, oem, j) { assert SafeFor(n, oem, j); }
  }

  lemma {:induction false} ExpireEachKeeps(ks: seq<Kind>, w: World, drivers: Drivers, oem: Bounds)
    requires Inv(w, oem) && Memory in drivers && Storage in drivers
    requires forall i, j :: 0 <= i < j < |ks| ==> ks[i] != ks[j]
    requires forall k :: k in ks ==> k in w.deadlines
    ensures Inv(ExpireEach(ks, w, drivers), oem)
  {
    if ks != [] {
      var k := ks[0];
      assert k == Memory || k == Storage;
      Known(w, oem, k);
      hide Inv, ExpireOne;
      ExpireOneKeeps(w, drivers, oem, k);
      ExpireSpares(w, drivers, oem, k);
      assert forall j :: j in ks[1..] ==> j in ks && j != k;
      ExpireEachKeeps(ks[1..], ExpireOne(w, drivers, k), drivers, oem);
    }
  }

  lemma ExpireKeeps(w: World, drivers: Drivers, oem: Bounds, time: int)
    requires Inv(w, oem) && Memory in drivers && Storage in drivers
    ensures Inv(Expire(w, drivers, time), oem)
    ensures w.journalInvalid ==> Expire(w, drivers, time) == w
  {
    if w.journalInvalid { InvalidIsIdle(w, oem); }
    hide Inv;
    ExpireEachKeeps(Expired(w, time), w, drivers, oem);
  }

  lemma InvalidIsIdle(w: World, oem: Bounds)
    requires Inv(w, oem) && w.journalInvalid
    ensures w.deadlines == map[]
  {
  }

  lemma ExpireSpares(w: World, drivers: Drivers, oem: Bounds, k: Kind)
    requires Inv(w, oem) && k in w.now && k in drivers && k in w.deadlines
    ensures forall j: Kind :: j != k && j in w.deadlines ==> j in ExpireOne(w, drivers, k).deadlines
  {
    assert k in w.originals by { assert Indexed(w); }
    RestoreOneKeeps(w, drivers, oem, k);
    hide Inv, RestoreOne;
  }

  // ---------- every run ----------

  datatype Event =
    | Locking(kind: Kind, range: Range, enabled: bool)
    | Trying(kind: Kind, enabled: bool, time: int)
    | Resetting(kind: Kind)
    | ResettingAll
    | Expiring(time: int)
    | Restarting(script: Script)

  ghost predicate Complete(w: World, drivers: Drivers) {
    forall k: Kind :: k in w.now && k in drivers
  }

  function Step(w: World, drivers: Drivers, e: Event): World
    requires Complete(w, drivers)
  {
    match e
    case Locking(k, range, enabled) => Level(w, drivers, k, range, enabled).0
    case Trying(k, enabled, time) => Trial(w, drivers, k, enabled, time).0
    case Resetting(k) => Oem(w, drivers, k).0
    case ResettingAll => RestoreAll(w, drivers).0
    case Expiring(time) => Expire(w, drivers, time)
    case Restarting(script) => Restart(w, drivers, script)
  }

  lemma FreshKeeps(w: World, oem: Bounds, script: Script)
    requires CrashSafe(w, oem)
    ensures Inv(w.(originals := w.journal, deadlines := map[], targets := map[], error := false, journalInvalid := false,
                    alive := true, script := script), oem)
    ensures Inv(w.(originals := map[], deadlines := map[], targets := map[], error := true, journalInvalid := true,
                    alive := true, script := script), oem)
  {
    var n := w.(originals := w.journal, deadlines := map[], targets := map[], error := false, journalInvalid := false,
                alive := true, script := script);
    var m := w.(originals := map[], deadlines := map[], targets := map[], error := true, journalInvalid := true,
                alive := true, script := script);
    forall j: Kind ensures SafeFor(n, oem, j) && SafeFor(m, oem, j) { assert SafeFor(w, oem, j); }
  }

  lemma RestartKeeps(w: World, drivers: Drivers, oem: Bounds, script: Script)
    requires CrashSafe(w, oem) && Complete(w, drivers)
    ensures Inv(Restart(w, drivers, script), oem)
  {
    FreshKeeps(w, oem, script);
    var blank := w.(originals := map[], deadlines := map[], targets := map[], error := false, journalInvalid := false,
                    alive := true, script := script);
    var (a, read) := Look(blank);
    if read {
      var n := a.(originals := a.journal);
      FreshKeeps(w, oem, script.rest);
      RestoreAllKeeps(n, drivers, oem);
      var (b, restored) := RestoreAll(n, drivers);
      if !restored { LatchInv(b, oem); }
    } else {
      FreshKeeps(w, oem, a.script);
      DeadInv(w.(originals := map[], deadlines := map[], targets := map[], error := true, journalInvalid := true,
                 alive := true, script := a.script), oem);
    }
    hide Inv, RestoreAll;
  }

  lemma DeadInv(w: World, oem: Bounds)
    requires Inv(w, oem)
    ensures Inv(w.(alive := false), oem)
  {
    forall j: Kind ensures SafeFor(w.(alive := false), oem, j) { assert SafeFor(w, oem, j); }
  }

  lemma LatchInv(w: World, oem: Bounds)
    requires Inv(w, oem)
    ensures Inv(w.(error := true), oem)
  {
    forall j: Kind ensures SafeFor(w.(error := true), oem, j) { assert SafeFor(w, oem, j); }
  }

  lemma StepKeeps(w: World, drivers: Drivers, oem: Bounds, e: Event)
    requires Inv(w, oem) && Complete(w, drivers)
    ensures Inv(Step(w, drivers, e), oem)
    ensures w.journalInvalid && !e.Restarting? ==> Step(w, drivers, e) == w
  {
    match e
    case Locking(k, range, enabled) => LevelKeeps(w, drivers, oem, k, range, enabled);
    case Trying(k, enabled, time) => TrialKeeps(w, drivers, oem, k, enabled, time);
    case Resetting(k) => OemKeeps(w, drivers, oem, k);
    case ResettingAll => RestoreAllKeeps(w, drivers, oem);
    case Expiring(time) => ExpireKeeps(w, drivers, oem, time);
    case Restarting(script) => RestartKeeps(w, drivers, oem, script);
      hide Inv, Level, Trial, Oem, RestoreAll, Expire, Restart;
  }

  ghost function Run(w: World, drivers: Drivers, es: seq<Event>): World
    decreases |es|
  {
    if es == [] || !Complete(w, drivers) then w else Run(Step(w, drivers, es[0]), drivers, es[1..])
  }

  lemma InvComplete(w: World, drivers: Drivers, oem: Bounds)
    requires Inv(w, oem) && forall k: Kind :: k in drivers
    ensures Complete(w, drivers)
  {
    forall k: Kind ensures k in w.now && k in drivers { Known(w, oem, k); }
  }

  /**
   * Over every run of locks, trials, resets, expiries and restarts, with any step failing, any
   * write drifting, and the process dying between any two steps: a device differs from its OEM
   * bounds only while the disk holds them, the first capture is never replaced, and trials and
   * locks stay disjoint and backed by an original.
   */
  lemma {:induction false} EveryRunKeeps(w: World, drivers: Drivers, oem: Bounds, es: seq<Event>)
    requires Inv(w, oem) && forall k: Kind :: k in drivers
    ensures Inv(Run(w, drivers, es), oem)
    decreases |es|
  {
    hide Inv, Step;
    if es != [] {
      InvComplete(w, drivers, oem);
      StepKeeps(w, drivers, oem, es[0]);
      EveryRunKeeps(Step(w, drivers, es[0]), drivers, oem, es[1..]);
    }
  }

  /** An unreadable journal blocks every write for the rest of the process. */
  lemma {:induction false} UnreadableJournalBlocks(w: World, drivers: Drivers, oem: Bounds, es: seq<Event>)
    requires Inv(w, oem) && (forall k: Kind :: k in drivers) && w.journalInvalid
    requires forall e :: e in es ==> !e.Restarting?
    ensures Run(w, drivers, es) == w
    decreases |es|
  {
    hide Inv, Step;
    if es != [] {
      InvComplete(w, drivers, oem);
      assert es[0] in es;
      StepKeeps(w, drivers, oem, es[0]);
      assert forall e :: e in es[1..] ==> e in es;
      UnreadableJournalBlocks(w, drivers, oem, es[1..]);
    }
  }

  // ---------- when a session can be undone ----------

  predicate FineFor(s: Script, steps: nat) {
    steps == 0 || (s.Then? && s.outcome.Fine? && FineFor(s.rest, steps - 1))
  }

  lemma FineLook(w: World, steps: nat)
    requires w.alive && FineFor(w.script, steps + 1)
    ensures var (n, ok) := Look(w); ok && n.alive && n.now == w.now && n.originals == w.originals && FineFor(n.script, steps)
  {
  }

  lemma FineWrite(w: World, k: Kind, floor: bool, hz: nat, steps: nat)
    requires w.alive && FineFor(w.script, steps + 1) && k in w.now
    ensures var (n, ok) := WriteBound(w, k, floor, hz);
      && ok && n.alive && FineFor(n.script, steps) && n.originals == w.originals && k in n.now
      && n.now[k] == if floor then w.now[k].(min := hz) else w.now[k].(max := hz)
  {
  }

  lemma FineFloor(w: World, k: Kind, hz: nat, steps: nat)
    requires w.alive && FineFor(w.script, steps + 2) && k in w.now
    ensures var (n, ok) := WriteFloor(w, k, hz);
      ok && n.alive && FineFor(n.script, steps) && n.originals == w.originals && k in n.now && n.now[k] == w.now[k].(min := hz)
  {
    FineWrite(w, k, true, hz, steps + 1);
    FineLook(WriteBound(w, k, true, hz).0, steps);
    hide WriteBound, Look, FineFor;
  }

  lemma FineBoth(w: World, k: Kind, to: Range, steps: nat)
    requires w.alive && FineFor(w.script, steps + 3) && k in w.now
    ensures var (n, ok) := CeilingThenFloor(w, k, to);
      ok && n.alive && FineFor(n.script, steps) && n.originals == w.originals && k in n.now && n.now[k] == to
    ensures var (n, ok) := FloorThenCeiling(w, k, to);
      ok && n.alive && FineFor(n.script, steps) && n.originals == w.originals && k in n.now && n.now[k] == to
  {
    hide WriteBound, WriteFloor, FineFor;
    FineWrite(w, k, false, to.max, steps + 2);
    FineFloor(WriteBound(w, k, false, to.max).0, k, to.min, steps);
    FineFloor(w, k, to.min, steps + 1);
    FineWrite(WriteFloor(w, k, to.min).0, k, false, to.max, steps);
  }

  lemma FineRange(w: World, k: Kind, to: Range, steps: nat)
    requires w.alive && FineFor(w.script, steps + 5) && k in w.now && Ordered(to)
    ensures var (n, ok) := WriteRange(w, k, to); ok && n.alive && FineFor(n.script, steps) && n.originals == w.originals
  {
    hide Look, CeilingThenFloor, FloorThenCeiling, FineFor;
    FineLook(w, steps + 4);
    var a := Look(w).0;
    FineBoth(a, k, to, steps + 1);
    FineLook(if to.min > a.now[k].max then CeilingThenFloor(a, k, to).0 else FloorThenCeiling(a, k, to).0, steps);
  }

  /**
   * Exactly when a session can be undone: if a captured bound is outside the device's table, or
   * the captured pair is crossed, no restore ever succeeds or writes anything; otherwise a restore
   * that meets no failure succeeds. A lock does not check this before it captures.
   */
  lemma RestoreIsExact(w: World, drivers: Drivers, k: Kind)
    requires k in w.now && k in drivers && k in w.originals
    ensures !Restorable(w.originals[k], drivers[k]) ==> !RestoreOne(w, drivers, k).1 && RestoreOne(w, drivers, k).0.now == w.now
    ensures Restorable(w.originals[k], drivers[k]) && w.alive && FineFor(w.script, 7) ==> RestoreOne(w, drivers, k).1
  {
    var original, d := w.originals[k], drivers[k];
    LookEffect(w, k);
    if Restorable(original, d) && w.alive && FineFor(w.script, 7) {
      FineLook(w, 6);
      FineRange(Look(w).0, k, original, 1);
      assert FineFor(WriteRange(Look(w).0, k, original).0.script, 1);
      hide Look, WriteRange;
    }
  }

  function Fines(n: nat): (s: Script)
    ensures FineFor(s, n)
  {
    if n == 0 then End else Then(Fine, Fines(n - 1))
  }

  lemma CapturedFound(w: World, k: Kind)
    requires k in w.now && w.alive
    ensures FineFor(w.script, 2) ==> Capture(w, k).1
    ensures var (n, ok) := Capture(w, k); ok ==> k in n.originals && n.originals[k] == w.now[k] && n.now == w.now && n.alive
  {
    if FineFor(w.script, 2) {
      FineLook(w, 1);
    }
  }

  lemma SomeRestore(w: World, drivers: Drivers, k: Kind)
    requires k in w.now && k in drivers && k in w.originals && w.alive
    ensures (exists script :: RestoreOne(w.(script := script), drivers, k).1) <==> Restorable(w.originals[k], drivers[k])
  {
    hide Restorable, RestoreOne;
    forall script ensures RestoreOne(w.(script := script), drivers, k).1 ==> Restorable(w.originals[k], drivers[k]) {
      RestoreIsExact(w.(script := script), drivers, k);
    }
    if Restorable(w.originals[k], drivers[k]) {
      RestoreIsExact(w.(script := Fines(7)), drivers, k);
      assert RestoreOne(w.(script := Fines(7)), drivers, k).1;
    }
  }

  /**
   * A lock captures whatever bounds it finds: with nothing failing it always succeeds, and after it
   * some future restores the session if and only if the captured bounds are restorable.
   */
  lemma CaptureMayBeFinal(w: World, drivers: Drivers, k: Kind)
    requires k in w.now && k in drivers && w.alive
    ensures FineFor(w.script, 2) ==> Capture(w, k).1
    ensures var (n, ok) := Capture(w, k);
      ok ==> k in n.now && ((exists script :: RestoreOne(n.(script := script), drivers, k).1) <==> Restorable(w.now[k], drivers[k]))
  {
    hide Capture, Restorable, RestoreOne, FineFor;
    CapturedFound(w, k);
    var (n, ok) := Capture(w, k);
    if ok {
      SomeRestore(n, drivers, k);
    }
  }

  // ---------- every write of a range ----------

  /** Nothing fails; the script may still run out, and the process stop, at any step. */
  predicate NoFailures(s: Script) {
    s.Then? ==> s.outcome.Fine? && NoFailures(s.rest)
  }

  lemma BoundStops(w: World, k: Kind, floor: bool, hz: nat)
    requires k in w.now && NoFailures(w.script)
    ensures var (n, ok) := WriteBound(w, k, floor, hz);
      && k in n.now && NoFailures(n.script) && (Acts(w) <==> ok)
      && n.now[k] == if !ok then w.now[k] else if floor then w.now[k].(min := hz) else w.now[k].(max := hz)
  {
  }

  lemma FloorStops(w: World, k: Kind, hz: nat)
    requires k in w.now && NoFailures(w.script)
    ensures var (n, ok) := WriteFloor(w, k, hz);
      && k in n.now && NoFailures(n.script) && n.now[k] in [w.now[k], w.now[k].(min := hz)]
      && (ok ==> n.now[k] == w.now[k].(min := hz))
  {
    BoundStops(w, k, true, hz);
    hide WriteBound;
  }

  lemma BothBoundsStop(w: World, k: Kind, to: Range)
    requires k in w.now && NoFailures(w.script)
    ensures var n := CeilingThenFloor(w, k, to).0;
      k in n.now && n.now[k] in [w.now[k], w.now[k].(max := to.max), to]
    ensures var n := FloorThenCeiling(w, k, to).0;
      k in n.now && n.now[k] in [w.now[k], w.now[k].(min := to.min), to]
  {
    hide WriteBound, WriteFloor, NoFailures;
    BoundStops(w, k, false, to.max);
    FloorStops(WriteBound(w, k, false, to.max).0, k, to.min);
    FloorStops(w, k, to.min);
    BoundStops(WriteFloor(w, k, to.min).0, k, false, to.max);
  }

  lemma LookStops(w: World)
    ensures Look(w).0.now == w.now && (NoFailures(w.script) ==> NoFailures(Look(w).0.script))
  {
  }

  /**
   * Wherever a failure-free range write stops, the device shows one of the ranges the devfreq order
   * goes through; so from an ordered range it shows an ordered range at every moment.
   */
  lemma RangeWriteStaysOrdered(w: World, k: Kind, to: Range)
    requires k in w.now && NoFailures(w.script)
    ensures var n := WriteRange(w, k, to).0;
      && k in n.now && (n.now[k] == w.now[k] || (Ordered(to) && n.now[k] in DevfreqWrites(w.now[k], to)))
      && (Ordered(w.now[k]) ==> Ordered(n.now[k]))
  {
    hide CeilingThenFloor, FloorThenCeiling, NoFailures, Look;
    if Ordered(to) {
      LookStops(w);
      var a := Look(w).0;
      BothBoundsStop(a, k, to);
      var (b, written) := if to.min > a.now[k].max then CeilingThenFloor(a, k, to) else FloorThenCeiling(a, k, to);
      LookStops(b);
      if Ordered(w.now[k]) { EveryWriteStaysOrdered(w.now[k], to); }
    }
  }
}

// Which clock commands are accepted, what a refused one leaves alone, and what happens when
// nothing fails.
module ClockCommands {
  import opened Clocks
  import opened RangeOrder

  // ---------- locks ----------

  /** The driver allows locks and advertises both bounds, in order and under the ceiling. */
  predicate Allowed(d: Driver, to: Range, ceiling: nat) {
    d.supported && to.min <= to.max <= ceiling && to.min in d.levels && to.max in d.levels
  }

  /** Nothing on the device, on disk or in the session changed. */
  ghost predicate Refused(w: World, n: World) {
    n == w.(alive := n.alive, script := n.script)
  }

  lemma LookRefused(w: World)
    ensures Refused(w, Look(w).0) && (Look(w).1 ==> w.alive && Look(w).0.alive)
  {
  }

  /** A request is admitted only if the driver advertises both bounds under the ceiling in force; admission changes nothing. */
  lemma AdmitAnswers(w: World, drivers: Drivers, k: Kind, to: Range)
    requires k in w.now && k in drivers
    ensures var (n, ok) := Admit(w, drivers, k, to);
      Refused(w, n) && (ok ==> Allowed(drivers[k], to, if k in w.originals then w.originals[k].max else w.now[k].max))
  {
    LookRefused(w);
    LookRefused(Look(w).0);
  }

  lemma CeilingIsOem(w: World, oem: Bounds, k: Kind)
    requires Inv(w, oem) && w.alive && !w.journalInvalid
    ensures k in w.now && k in oem && (if k in w.originals then w.originals[k].max else w.now[k].max) == oem[k].max
  {
    Known(w, oem, k);
  }

  lemma DeadIsRefused(w: World, drivers: Drivers, k: Kind, to: Range, enabled: bool)
    requires k in w.now && k in drivers && !w.alive
    ensures Refused(w, Level(w, drivers, k, to, enabled).0) && !Level(w, drivers, k, to, enabled).1
  {
  }

  /**
   * A lock succeeds only with the service enabled, no earlier failure outstanding, and bounds the
   * driver advertises, in order, under the ceiling in force before any session. Any other request
   * is refused and leaves the device, the journal and the session as they were.
   */
  lemma LevelAnswers(w: World, drivers: Drivers, oem: Bounds, k: Kind, to: Range, enabled: bool)
    requires Inv(w, oem) && k in w.now && k in drivers
    ensures k in oem
    ensures var (n, ok) := Level(w, drivers, k, to, enabled);
      && (ok ==> enabled && !w.error && !w.journalInvalid && Allowed(drivers[k], to, oem[k].max))
      && (ok ==> k in n.now && n.now[k] == to && k in n.targets && n.targets[k] == to && k !in n.deadlines
                 && k in n.originals && n.originals[k] == oem[k])
      && (!(enabled && !w.error && !w.journalInvalid && Allowed(drivers[k], to, oem[k].max)) ==> !ok && Refused(w, n))
  {
    Known(w, oem, k);
    LevelKeeps(w, drivers, oem, k, to, enabled);
    if w.alive && enabled && !w.error && !w.journalInvalid {
      CeilingIsOem(w, oem, k);
      AdmitAnswers(w, drivers, k, to);
      var (n, ok) := Level(w, drivers, k, to, enabled);
      if ok { LevelRecords(w, drivers, k, to, enabled); OriginalIsOem(n, oem, k); }
    } else {
      if !w.alive { DeadIsRefused(w, drivers, k, to, enabled); }
    }
    hide Inv, Admit, Hold, Lock, Look, OnSession;
  }

  /**
   * A lock that fails leaves the device and its session as they were, or gives the device back and
   * forgets the session, or closes the latch.
   */
  lemma LevelFails(w: World, drivers: Drivers, oem: Bounds, k: Kind, to: Range, enabled: bool)
    requires Inv(w, oem) && k in w.now && k in drivers
    ensures var (n, ok) := Level(w, drivers, k, to, enabled);
      !ok ==>
        || (n.now == w.now && n.targets == w.targets && n.deadlines == w.deadlines)
        || n.error
        || (k in n.now && k in oem && n.now[k] == oem[k] && k !in n.originals && k !in n.targets && k !in n.deadlines)
  {
    if enabled && !w.journalInvalid && !w.error {
      AdmitKeeps(w, drivers, oem, k, to);
      AdmitAnswers(w, drivers, k, to);
      var (a, admitted) := Admit(w, drivers, k, to);
      if admitted {
        HoldKeeps(a, oem, k);
        HoldRecords(a, k);
        var (b, held) := Hold(a, k);
        if held { LockFails(b, drivers, oem, k, to); }
      }
    }
    hide Inv, Admit, Hold, Lock, OnSession;
  }

  lemma HoldRecords(w: World, k: Kind)
    requires k in w.now
    ensures var n := Hold(w, k).0; n.targets == w.targets && n.deadlines == w.deadlines
  {
    hide Look, Journal;
    LookRefused(w);
    var a := Look(w).0;
    JournalEffect(a, a.originals[k := a.now[k]]);
  }

  lemma LockFails(w: World, drivers: Drivers, oem: Bounds, k: Kind, to: Range)
    requires Inv(w, oem) && k in w.originals && k in w.journal && k in w.now && k in drivers && !w.journalInvalid && w.alive
    ensures var (n, ok) := Lock(w, drivers, k, to);
      !ok ==> n.error || (k in n.now && k in oem && n.now[k] == oem[k] && k !in n.originals && k !in n.targets && k !in n.deadlines)
  {
    ApplyRangeEffect(w, k, to);
    var (e, written) := ApplyRange(w, k, to);
    DeviceSession(w, e, oem, k);
    RestoreOneKeeps(e, drivers, oem, k);
    if !e.alive { DeadRestores(e, drivers, k); }
    hide Inv, ApplyRange, RestoreOne;
  }

  lemma LevelRecords(w: World, drivers: Drivers, k: Kind, to: Range, enabled: bool)
    requires k in w.now && k in drivers && Level(w, drivers, k, to, enabled).1
    ensures var n := Level(w, drivers, k, to, enabled).0; k in n.targets && n.targets[k] == to && k !in n.deadlines
  {
    hide ApplyRange, Undo, Admit, Hold;
  }

  lemma OriginalIsOem(w: World, oem: Bounds, k: Kind)
    requires Inv(w, oem) && w.alive && k in w.originals
    ensures k in oem && w.originals[k] == oem[k]
  {
    Known(w, oem, k);
  }

  // ---------- when nothing fails ----------

  lemma {:induction false} FineLess(s: Script, steps: nat, fewer: nat)
    requires FineFor(s, steps) && fewer <= steps
    ensures FineFor(s, fewer)
  {
    if fewer > 0 { FineLess(s.rest, steps - 1, fewer - 1); }
  }

  ghost predicate Goes(w: World, steps: nat) {
    w.alive && FineFor(w.script, steps)
  }

  lemma GoesLess(w: World, steps: nat, fewer: nat)
    requires Goes(w, steps) && fewer <= steps
    ensures Goes(w, fewer)
  {
    FineLess(w.script, steps, fewer);
  }

  lemma LookGoes(w: World, steps: nat)
    requires Goes(w, steps + 1)
    ensures var (n, ok) := Look(w); ok && Goes(n, steps) && Refused(w, n)
  {
    LookRefused(w);
  }

  lemma JournalGoes(w: World, entries: map<Kind, Range>, steps: nat)
    requires Goes(w, steps + 1)
    ensures var (n, ok) := Journal(w, entries); ok && Goes(n, steps) && n.now == w.now && n.originals == w.originals
  {
  }

  lemma RecordGoes(w: World, k: Kind, steps: nat)
    requires Goes(w, steps + 1) && k in w.now
    ensures var (n, ok) := Record(w, k); ok && Goes(n, steps) && n.now == w.now && k in n.originals
  {
    hide Journal;
    JournalGoes(w, w.originals[k := w.now[k]], steps);
  }

  lemma HoldGoes(w: World, k: Kind, steps: nat)
    requires Goes(w, steps + 2) && k in w.now
    ensures var (n, ok) := Hold(w, k); ok && Goes(n, steps) && n.now == w.now
  {
    if k in w.originals {
      GoesLess(w, steps + 2, steps);
    } else {
      LookGoes(w, steps + 1);
      RecordGoes(Look(w).0, k, steps);
    }
    hide Look, Record, Goes;
  }

  lemma AdmitGoes(w: World, drivers: Drivers, k: Kind, to: Range, steps: nat)
    requires Goes(w, steps + 2) && k in w.now && k in drivers
    requires Allowed(drivers[k], to, if k in w.originals then w.originals[k].max else w.now[k].max)
    ensures var (n, ok) := Admit(w, drivers, k, to); ok && Goes(n, steps) && n.now == w.now && n.originals == w.originals
  {
    hide Look, Goes;
    if k in w.originals {
      GoesLess(w, steps + 2, steps + 1);
      LookGoes(w, steps);
    } else {
      LookGoes(w, steps + 1);
      LookGoes(Look(w).0, steps);
    }
  }

  lemma ApplyRangeGoes(w: World, k: Kind, to: Range)
    requires Goes(w, 6) && k in w.now && Ordered(to)
    ensures ApplyRange(w, k, to).1 && k in ApplyRange(w, k, to).0.now
  {
    LookGoes(w, 5);
    var a := Look(w).0;
    FineRange(a, k, to, 0);
    ApplyRangeEffect(w, k, to);
    hide Look, WriteRange;
  }

  /** When nothing fails, every allowed lock succeeds. */
  lemma LevelSucceeds(w: World, drivers: Drivers, oem: Bounds, k: Kind, to: Range)
    requires Inv(w, oem) && k in w.now && k in drivers && k in oem && Goes(w, 10)
    requires !w.error && !w.journalInvalid && Allowed(drivers[k], to, oem[k].max)
    ensures Level(w, drivers, k, to, true).1
  {
    hide Inv, Admit, Hold, ApplyRange, Goes, Undo;
    CeilingIsOem(w, oem, k) by { GoesLess(w, 10, 0); LivesWhileGoing(w, 10); }
    AdmitGoes(w, drivers, k, to, 8);
    var a := Admit(w, drivers, k, to).0;
    HoldGoes(a, k, 6);
    ApplyRangeGoes(Hold(a, k).0, k, to);
  }

  lemma LivesWhileGoing(w: World, steps: nat)
    requires Goes(w, steps)
    ensures w.alive
  {
  }

  // ---------- trials ----------

  /** A trial is refused, and changes nothing, unless the device is idle and the driver allows it. */
  lemma TrialAnswers(w: World, drivers: Drivers, k: Kind, enabled: bool, time: int)
    requires k in w.now && k in drivers
    ensures var (n, ok) := Trial(w, drivers, k, enabled, time);
      !(enabled && !w.error && drivers[k].supported && drivers[k].levels != [] && k !in w.originals) ==> !ok && Refused(w, n)
  {
    LookRefused(w);
    hide Look, StartTrial;
  }

  lemma ApplyMaxGoes(w: World, k: Kind, top: nat)
    requires Goes(w, 3) && k in w.now && top <= w.now[k].max
    ensures ApplyMax(w, k, top).1 && k in ApplyMax(w, k, top).0.now
  {
    LookGoes(w, 2);
    var a := Look(w).0;
    FineFloor(a, k, top, 0);
    ApplyMaxEffect(w, k, top);
    hide Look, WriteFloor;
  }

  /** When nothing fails, a trial of an idle, supported device starts if and only if its ceiling admits the highest state. */
  lemma TrialExactly(w: World, drivers: Drivers, k: Kind, time: int)
    requires k in w.now && k in drivers && Goes(w, 6)
    requires !w.error && drivers[k].supported && drivers[k].levels != [] && k !in w.originals
    ensures Trial(w, drivers, k, true, time).1 <==> drivers[k].levels[|drivers[k].levels| - 1] <= w.now[k].max
  {
    hide Look, Record, Goes, ApplyMax, Undo;
    LookGoes(w, 5);
    var a := Look(w).0;
    LookGoes(a, 4);
    RecordGoes(Look(a).0, k, 3);
    var b := Record(Look(a).0, k).0;
    var top := drivers[k].levels[|drivers[k].levels| - 1];
    if top <= w.now[k].max {
      ApplyMaxGoes(b, k, top);
    } else {
      ApplyMaxRefuses(b, k, top);
    }
  }

  lemma ApplyMaxRefuses(w: World, k: Kind, top: nat)
    requires k in w.now && top > w.now[k].max
    ensures !ApplyMax(w, k, top).1
  {
    LookRefused(w);
    hide Look;
  }

  // ---------- expiry ----------

  /** What expiry does with one device: nothing before its deadline; then a restore, or the record kept and the latch closed. */
  ghost predicate ExpiryOf(w: World, n: World, oem: Bounds, k: Kind, time: int) {
    if k in w.deadlines && w.deadlines[k] <= time then
      && k !in n.deadlines
      && (if k in n.originals then n.error && k in w.originals && w.originals[k] == n.originals[k]
          else k in n.now && k in oem && n.now[k] == oem[k] && k !in n.journal)
    else
      && (k in n.deadlines <==> k in w.deadlines) && (k in w.deadlines ==> n.deadlines[k] == w.deadlines[k])
      && (k in n.originals <==> k in w.originals) && (k in n.targets <==> k in w.targets)
      && (k in w.now ==> k in n.now && n.now[k] == w.now[k])
  }

  /** The session's record of device `j`, and the device, are as they were. */
  ghost predicate Alone(w: World, n: World, j: Kind) {
    && (j in n.deadlines <==> j in w.deadlines) && (j in w.deadlines ==> n.deadlines[j] == w.deadlines[j])
    && (j in n.originals <==> j in w.originals) && (j in w.originals ==> n.originals[j] == w.originals[j])
    && (j in n.targets <==> j in w.targets)
    && (j in n.journal <==> j in w.journal)
    && (j in w.now ==> j in n.now && n.now[j] == w.now[j])
  }

  lemma OnlyDeviceAlone(w: World, n: World, k: Kind, j: Kind)
    requires OnlyDevice(w, n, k) && j != k
    ensures Alone(w, n, j)
  {
  }

  lemma JournalEffect(w: World, entries: map<Kind, Range>)
    ensures var n := Journal(w, entries).0;
      && n.now == w.now && n.originals == w.originals && n.deadlines == w.deadlines && n.targets == w.targets
      && (n.journal == w.journal || (w.alive && n.journal == entries))
  {
  }

  lemma JournalAlone(w: World, k: Kind, j: Kind)
    requires j != k && (w.alive ==> w.journal == w.originals)
    ensures Alone(w, Journal(w, w.originals - {k}).0, j)
  {
    hide Journal;
    JournalEffect(w, w.originals - {k});
  }

  lemma DropAlone(w: World, k: Kind, j: Kind)
    requires j != k
    ensures Alone(w, Drop(w, k), j)
  {
  }

  lemma AloneChain(a: World, b: World, c: World, j: Kind)
    requires Alone(a, b, j) && Alone(b, c, j)
    ensures Alone(a, c, j)
  {
  }

  lemma AloneSelf(w: World, j: Kind)
    ensures Alone(w, w, j)
  {
  }

  /** A restore of one device leaves the other, and everything the session knows of it, alone. */
  lemma RestoreOneAlone(w: World, drivers: Drivers, oem: Bounds, k: Kind, j: Kind)
    requires Inv(w, oem) && !w.journalInvalid && k in w.now && k in drivers && j != k
    ensures Alone(w, RestoreOne(w, drivers, k).0, j)
  {
    AloneSelf(w, j);
    if k in w.originals {
      var original := w.originals[k];
      LookEffect(w, k);
      var a := Look(w).0;
      OnlyDeviceAlone(w, a, k, j);
      WriteRangeEffect(a, k, original);
      var b := WriteRange(a, k, original).0;
      OnlyDeviceChain(w, a, b, k);
      OnlyDeviceAlone(w, b, k, j);
      JournalAlone(b, k, j);
      var c := Journal(b, b.originals - {k}).0;
      DropAlone(c, k, j);
      AloneChain(w, b, c, j);
      AloneChain(w, c, Drop(c, k), j);
      hide Look, WriteRange, Journal, Drop, Alone, OnlyDevice, Inv, InTable;
    }
  }

  lemma DeadRestores(w: World, drivers: Drivers, k: Kind)
    requires k in w.now && k in drivers && k in w.originals && !w.alive
    ensures !RestoreOne(w, drivers, k).1
  {
  }

  lemma ExpireOneAnswers(w: World, drivers: Drivers, oem: Bounds, k: Kind, j: Kind)
    requires Inv(w, oem) && k in w.now && k in drivers && k in w.deadlines && j != k
    ensures var n := ExpireOne(w, drivers, k);
      && Alone(w, n, j) && k !in n.deadlines && (w.error ==> n.error) && (n.alive ==> w.alive) && k in n.now && k in oem
      && (if k in n.originals then n.error && k in w.originals && w.originals[k] == n.originals[k]
          else n.now[k] == oem[k] && k !in n.journal)
  {
    assert k in w.originals && !w.journalInvalid by { assert Indexed(w); }
    RestoreOneKeeps(w, drivers, oem, k);
    RestoreOneAlone(w, drivers, oem, k, j);
    var (n, ok) := RestoreOne(w, drivers, k);
    if !w.alive { DeadRestores(w, drivers, k); }
    if !ok {
      LatchedAlone(w, n, k, j);
    } else {
      assert n.journal == n.originals;
    }
    hide CrashSafe, Indexed, RestoreOne, Alone;
  }

  lemma LatchedAlone(w: World, n: World, k: Kind, j: Kind)
    requires Alone(w, n, j) && j != k
    ensures Alone(w, n.(error := true, deadlines := n.deadlines - {k}), j)
  {
  }

  lemma DueIsListed(w: World, time: int)
    ensures Expired(w, time) ==
      if Due(w, Memory, time) then (if Due(w, Storage, time) then [Memory] + [Storage] else [Memory])
      else if Due(w, Storage, time) then [Storage] else []
  {
  }

  lemma ExpireEachFirst(k: Kind, ks: seq<Kind>, w: World, drivers: Drivers)
    requires k in w.now && k in drivers
    ensures ExpireEach([k] + ks, w, drivers) == ExpireEach(ks, ExpireOne(w, drivers, k), drivers)
    ensures ExpireEach([k], w, drivers) == ExpireOne(w, drivers, k)
  {
    hide ExpireOne;
    assert ([k] + ks)[1..] == ks && [k][1..] == [];
    assert ExpireEach([], ExpireOne(w, drivers, k), drivers) == ExpireOne(w, drivers, k);
  }

  /** Both trials are due: the storage restore leaves the memory device as its own left it. */
  lemma SecondExpiry(w: World, drivers: Drivers, oem: Bounds, time: int)
    requires Inv(w, oem) && Memory in drivers && Storage in drivers && Memory in w.now
    requires Due(w, Memory, time) && Due(w, Storage, time)
    ensures var m := ExpireOne(w, drivers, Memory);
      Storage in m.now && var n := ExpireOne(m, drivers, Storage); ExpiryOf(w, n, oem, Memory, time) && ExpiryOf(w, n, oem, Storage, time)
  {
    hide Inv, ExpireOne;
    ExpireOneAnswers(w, drivers, oem, Memory, Storage);
    ExpireOneKeeps(w, drivers, oem, Memory);
    var m := ExpireOne(w, drivers, Memory);
    Known(m, oem, Storage);
    ExpireOneAnswers(m, drivers, oem, Storage, Memory);
  }

  /**
   * Expiry, whatever fails: a device whose deadline has passed is restored and forgotten, or keeps
   * its record while the latch closes, and its deadline is gone; every other is left alone.
   */
  lemma ExpireAnswers(w: World, drivers: Drivers, oem: Bounds, time: int, k: Kind)
    requires Inv(w, oem) && Memory in drivers && Storage in drivers
    ensures ExpiryOf(w, Expire(w, drivers, time), oem, k, time)
  {
    Known(w, oem, Memory);
    Known(w, oem, Storage);
    hide Inv, ExpireOne, Alone, ExpireEach, Due, Expired;
    DueIsListed(w, time);
    if Due(w, Memory, time) {
      var m := ExpireOne(w, drivers, Memory);
      ExpireEachFirst(Memory, [Storage], w, drivers);
      if Due(w, Storage, time) {
        SecondExpiry(w, drivers, oem, time);
        ExpireEachFirst(Storage, [], m, drivers);
      } else {
        OneExpiry(w, drivers, oem, time, Memory, Storage);
      }
    } else if Due(w, Storage, time) {
      ExpireEachFirst(Storage, [], w, drivers);
      OneExpiry(w, drivers, oem, time, Storage, Memory);
    } else {
      ExpireNone(w, drivers);
      AloneSelf(w, k);
      assert k == Memory || k == Storage;
      AloneIsExpiry(w, w, oem, k, time);
    }
    assert k == Memory || k == Storage;
  }

  lemma OneExpiry(w: World, drivers: Drivers, oem: Bounds, time: int, k: Kind, j: Kind)
    requires Inv(w, oem) && k in w.now && k in drivers && j != k && Due(w, k, time) && !Due(w, j, time)
    ensures ExpiryOf(w, ExpireOne(w, drivers, k), oem, k, time) && ExpiryOf(w, ExpireOne(w, drivers, k), oem, j, time)
  {
    hide Inv, ExpireOne, Alone;
    ExpireOneAnswers(w, drivers, oem, k, j);
    AloneIsExpiry(w, ExpireOne(w, drivers, k), oem, j, time);
  }

  lemma ExpireNone(w: World, drivers: Drivers)
    ensures ExpireEach([], w, drivers) == w
  {
  }

  lemma AloneIsExpiry(w: World, n: World, oem: Bounds, k: Kind, time: int)
    requires Alone(w, n, k) && !Due(w, k, time)
    ensures ExpiryOf(w, n, oem, k, time)
  {
  }

  // ---------- restores when nothing fails ----------

  /** A bound is unset, or between the lowest and the highest state of the driver. */
  predicate WithinTable(hz: nat, levels: seq<nat>)
    requires levels != []
  {
    hz == 0 || levels[0] <= hz <= levels[|levels| - 1]
  }

  /** A pair of bounds in order, each of them unset or within the driver's table. */
  predicate CanReturn(r: Range, d: Driver) {
    d.levels != [] && r.min <= r.max && WithinTable(r.min, d.levels) && WithinTable(r.max, d.levels)
  }

  ghost predicate AllRestorable(originals: map<Kind, Range>, drivers: Drivers) {
    forall k :: k in originals ==> k in drivers && CanReturn(originals[k], drivers[k])
  }

  lemma CanReturnIsRestorable(r: Range, d: Driver)
    ensures CanReturn(r, d) <==> Restorable(r, d)
  {
  }

  /** Without failures a device with a restorable original is given back, and the rest of the session kept. */
  lemma RestoreOneGoes(w: World, drivers: Drivers, k: Kind, steps: nat)
    requires Goes(w, 7 + steps) && k in w.now && k in drivers
    requires k in w.originals ==> CanReturn(w.originals[k], drivers[k])
    ensures var (n, ok) := RestoreOne(w, drivers, k);
      ok && Goes(n, steps) && n.originals == w.originals - {k} && n.error == w.error && n.journalInvalid == w.journalInvalid
  {
    if k in w.originals {
      var original := w.originals[k];
      CanReturnIsRestorable(original, drivers[k]);
      LookGoes(w, 6 + steps);
      var a := Look(w).0;
      FineRange(a, k, original, 1 + steps);
      WriteRangeEffect(a, k, original);
      var b := WriteRange(a, k, original).0;
      JournalGoes(b, b.originals - {k}, steps);
      var c := Journal(b, b.originals - {k}).0;
      JournalLatches(b, b.originals - {k});
      hide Look, WriteRange, Journal;
      assert Drop(c, k).originals == w.originals - {k};
    } else {
      GoesLess(w, 7 + steps, steps);
      assert w.originals - {k} == w.originals;
    }
  }

  lemma JournalLatches(w: World, entries: map<Kind, Range>)
    ensures Journal(w, entries).0.error == w.error && Journal(w, entries).0.journalInvalid == w.journalInvalid
  {
  }

  lemma ExpireOneGoes(w: World, drivers: Drivers, k: Kind, steps: nat)
    requires Goes(w, 7 + steps) && k in w.now && k in drivers && AllRestorable(w.originals, drivers)
    ensures var n := ExpireOne(w, drivers, k);
      && Goes(n, steps) && n.originals == w.originals - {k} && n.error == w.error && AllRestorable(n.originals, drivers)
  {
    hide RestoreOne;
    RestoreOneGoes(w, drivers, k, steps);
  }

  /** The devices whose deadline has passed, and no others, are forgotten, and no latch closed. */
  ghost predicate Emptied(w: World, n: World, time: int) {
    n.error == w.error && forall k :: k in n.originals <==> k in w.originals && !(k in w.deadlines && w.deadlines[k] <= time)
  }

  lemma OneEmptied(w: World, drivers: Drivers, time: int, k: Kind, j: Kind)
    requires k in w.now && k in drivers && Goes(w, 14) && AllRestorable(w.originals, drivers)
    requires j != k && Due(w, k, time) && !Due(w, j, time)
    ensures Emptied(w, ExpireOne(w, drivers, k), time)
  {
    hide ExpireOne, Goes, AllRestorable;
    ExpireOneGoes(w, drivers, k, 7);
    var n := ExpireOne(w, drivers, k);
    forall d: Kind ensures d in n.originals <==> d in w.originals && !Due(w, d, time) { assert d == k || d == j; }
  }

  lemma BothEmptied(w: World, drivers: Drivers, oem: Bounds, time: int)
    requires Inv(w, oem) && Memory in w.now && Memory in drivers && Storage in drivers && Goes(w, 14) && AllRestorable(w.originals, drivers)
    requires Due(w, Memory, time) && Due(w, Storage, time)
    ensures var m := ExpireOne(w, drivers, Memory); Storage in m.now && Emptied(w, ExpireOne(m, drivers, Storage), time)
  {
    hide Inv, ExpireOne, Goes, AllRestorable;
    ExpireOneGoes(w, drivers, Memory, 7);
    SecondExpiry(w, drivers, oem, time);
    var m := ExpireOne(w, drivers, Memory);
    ExpireOneGoes(m, drivers, Storage, 0);
    var n := ExpireOne(m, drivers, Storage);
    forall d: Kind ensures d in n.originals <==> d in w.originals && !Due(w, d, time) { assert d == Memory || d == Storage; }
  }

  /** When nothing fails, expiry restores every device whose deadline has passed, and closes no latch. */
  lemma ExpireSucceeds(w: World, drivers: Drivers, oem: Bounds, time: int)
    requires Inv(w, oem) && Memory in drivers && Storage in drivers && Goes(w, 14) && AllRestorable(w.originals, drivers)
    ensures Emptied(w, Expire(w, drivers, time), time)
  {
    Known(w, oem, Memory);
    Known(w, oem, Storage);
    DueIsListed(w, time);
    if !Due(w, Memory, time) && !Due(w, Storage, time) {
      forall d: Kind ensures d in w.originals <==> d in w.originals && !Due(w, d, time) { assert d == Memory || d == Storage; }
      ExpireNone(w, drivers);
    }
    hide Inv, ExpireOne, ExpireEach, Due, Expired, Goes, AllRestorable, Emptied;
    if Due(w, Memory, time) {
      ExpireEachFirst(Memory, [Storage], w, drivers);
      if Due(w, Storage, time) {
        BothEmptied(w, drivers, oem, time);
        ExpireEachFirst(Storage, [], ExpireOne(w, drivers, Memory), drivers);
      } else {
        OneEmptied(w, drivers, time, Memory, Storage);
      }
    } else if Due(w, Storage, time) {
      ExpireEachFirst(Storage, [], w, drivers);
      OneEmptied(w, drivers, time, Storage, Memory);
    }
  }

  /** When nothing fails, a complete reset succeeds. */
  lemma RestoreAllSucceeds(w: World, drivers: Drivers, oem: Bounds)
    requires Inv(w, oem) && Memory in w.now && Storage in w.now && Memory in drivers && Storage in drivers
    requires !w.journalInvalid && Goes(w, 14) && AllRestorable(w.originals, drivers)
    ensures RestoreAll(w, drivers).1 && RestoreAll(w, drivers).0.alive
  {
    hide RestoreOne, Goes, CanReturn;
    RestoreOneKeeps(w, drivers, oem, Memory);
    RestoreOneGoes(w, drivers, Memory, 7);
    var a := RestoreOne(w, drivers, Memory).0;
    hide Inv;
    Known(a, oem, Storage);
    RestoreOneGoes(a, drivers, Storage, 0);
    LivesWhileGoing(RestoreOne(a, drivers, Storage).0, 0);
  }

  lemma RestartReads(w: World, drivers: Drivers, script: Script)
    requires Complete(w, drivers) && script.Then? && script.outcome.Fine?
    ensures var a := w.(originals := w.journal, deadlines := map[], targets := map[], error := false, journalInvalid := false,
                        alive := true, script := script.rest);
      Restart(w, drivers, script) == if RestoreAll(a, drivers).1 then RestoreAll(a, drivers).0 else RestoreAll(a, drivers).0.(error := true)
  {
    hide RestoreAll;
  }

  /** A journal that cannot be read closes the latch for good, and nothing on the device or the disk is touched. */
  lemma RestartUnreadable(w: World, drivers: Drivers, script: Script)
    requires Complete(w, drivers) && (script.Then? ==> !Works(script.outcome))
    ensures var n := Restart(w, drivers, script); n.error && n.journalInvalid && n.now == w.now && n.journal == w.journal
  {
  }

  /** When nothing fails, a restart gives back everything the journal holds and reports no error. */
  lemma RestartSucceeds(w: World, drivers: Drivers, oem: Bounds, script: Script)
    requires CrashSafe(w, oem) && Complete(w, drivers) && FineFor(script, 15) && AllRestorable(w.journal, drivers)
    ensures var n := Restart(w, drivers, script);
      && n.alive && !n.error && !n.journalInvalid && n.journal == map[] && n.originals == map[]
      && forall k: Kind :: k in n.now && k in oem && n.now[k] == oem[k]
  {
    FreshKeeps(w, oem, script.rest);
    var a := w.(originals := w.journal, deadlines := map[], targets := map[], error := false, journalInvalid := false,
                alive := true, script := script.rest);
    RestoreAllSucceeds(a, drivers, oem);
    RestoreAllKeeps(a, drivers, oem);
    RestartReads(w, drivers, script);
    hide Inv, RestoreAll, Restart, CrashSafe, CanReturn;

  }
}

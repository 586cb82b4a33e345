// The clock sessions in the daemon's own form: one locked record of originals, deadlines, targets
// and the error latch, updated in place.
module ClockService {
  import opened RangeOrder
  import C = Clocks
  import Q = ClockCommands
  import opened Wrappers

  class Trials {
    const drivers: C.Drivers
    var now: map<C.Kind, Range>
    var journal: map<C.Kind, Range>
    var originals: map<C.Kind, Range>
    var deadlines: map<C.Kind, int>
    var targets: map<C.Kind, Range>
    var error: bool
    var journalInvalid: bool
    var alive: bool
    var script: C.Script

    ghost function State(): C.World
      reads this
    {
      C.World(now, journal, originals, deadlines, targets, error, journalInvalid, alive, script)
    }

    method Draw() returns (o: Option<C.Outcome>)
      modifies this
      ensures if C.Acts(old(State()))
        then o == Some(old(script).outcome)
          && State() == old(State()).(alive := !old(script).outcome.Dies?, script := old(script).rest)
        else o == None && State() == C.Stop(old(State()))
    {
      if alive && script.Then? {
        o := Some(script.outcome);
        alive := !script.outcome.Dies?;
        script := script.rest;
      } else {
        o := None;
        alive := false;
      }
    }

    method Look() returns (ok: bool)
      modifies this
      ensures (State(), ok) == C.Look(old(State()))
    {
      var o := Draw();
      ok := o.Some? && C.Works(o.value);
    }

    method WriteBound(k: C.Kind, floor: bool, hz: nat) returns (ok: bool)
      requires k in now
      modifies this
      ensures (State(), ok) == C.WriteBound(old(State()), k, floor, hz)
    {
      var o := Draw();
      ok := false;
      if o.Some? {
        var left := C.Left(o.value, hz);
        now := now[k := if floor then now[k].(min := left) else now[k].(max := left)];
        ok := C.Works(o.value);
      }
    }

    method Journal(entries: map<C.Kind, Range>) returns (ok: bool)
      modifies this
      ensures (State(), ok) == C.Journal(old(State()), entries)
    {
      var o := Draw();
      ok := o.Some? && C.Works(o.value);
      if ok {
        journal := entries;
      }
    }

    method WriteFloor(k: C.Kind, hz: nat) returns (ok: bool)
      requires k in now
      modifies this
      ensures (State(), ok) == C.WriteFloor(old(State()), k, hz) && k in now
    {
      ok := WriteBound(k, true, hz);
      if ok {
        ok := Look();
        ok := ok && now[k].min == hz;
      }
    }

    method CeilingThenFloor(k: C.Kind, to: Range) returns (ok: bool)
      requires k in now
      modifies this
      ensures (State(), ok) == C.CeilingThenFloor(old(State()), k, to) && k in now
    {
      ok := WriteBound(k, false, to.max);
      if ok {
        ok := WriteFloor(k, to.min);
      }
    }

    method FloorThenCeiling(k: C.Kind, to: Range) returns (ok: bool)
      requires k in now
      modifies this
      ensures (State(), ok) == C.FloorThenCeiling(old(State()), k, to) && k in now
    {
      ok := WriteFloor(k, to.min);
      if ok {
        ok := WriteBound(k, false, to.max);
      }
    }

    method WriteRange(k: C.Kind, to: Range) returns (ok: bool)
      requires k in now
      modifies this
      ensures (State(), ok) == C.WriteRange(old(State()), k, to) && k in now
    {
      if to.min > to.max {
        return false;
      }
      ok := Look();
      if ok {
        if to.min > now[k].max {
          ok := CeilingThenFloor(k, to);
        } else {
          ok := FloorThenCeiling(k, to);
        }
        if ok {
          ok := Look();
          ok := ok && now[k] == to;
        }
      }
    }

    method RestoreOne(k: C.Kind) returns (ok: bool)
      requires k in now && k in drivers
      modifies this
      ensures (State(), ok) == C.RestoreOne(old(State()), drivers, k) && k in now
    {
      if k !in originals {
        return true;
      }
      var original, d := originals[k], drivers[k];
      ok := Look();
      if !ok || d.levels == [] || !C.InTable(original.min, d) || !C.InTable(original.max, d) {
        return false;
      }
      ok := WriteRange(k, original);
      if !ok {
        return;
      }
      ok := Journal(originals - {k});
      if ok {
        originals := originals - {k};
        deadlines := deadlines - {k};
        targets := targets - {k};
      }
    }

    method RestoreAll() returns (ok: bool)
      requires C.Memory in now && C.Storage in now && C.Memory in drivers && C.Storage in drivers
      modifies this
      ensures (State(), ok) == C.RestoreAll(old(State()), drivers)
    {
      if journalInvalid {
        return false;
      }
      ok := RestoreOne(C.Memory);
      if !ok || C.Storage !in now {
        return false;
      }
      ok := RestoreOne(C.Storage);
      if ok {
        error := false;
      }
    }

    method Capture(k: C.Kind) returns (ok: bool)
      requires k in now
      modifies this
      ensures (State(), ok) == C.Capture(old(State()), k) && k in now
    {
      ok := Look();
      if ok {
        ok := Record(k);
      }
    }

    method Record(k: C.Kind) returns (ok: bool)
      requires k in now
      modifies this
      ensures (State(), ok) == C.Record(old(State()), k) && k in now
    {
      var previous := originals;
      originals := originals[k := now[k]];
      var entries := originals;
      ok := Journal(entries);
      if !ok {
        originals := previous;
      }
    }

    /** A fixed lock on one device. */
    method Level(k: C.Kind, to: Range, enabled: bool) returns (ok: bool)
      requires k in now && k in drivers
      modifies this
      ensures (State(), ok) == C.Level(old(State()), drivers, k, to, enabled)
      ensures forall oem: C.Bounds :: C.Inv(old(State()), oem) ==>
        && C.OnSession(old(State()), State(), oem, k)
        && (ok ==> k in now && k in oem && now[k] == to && to.max <= oem[k].max && k in originals)
        && (old(journalInvalid) ==> State() == old(State()))
        && (ok ==> Q.Allowed(drivers[k], to, oem[k].max))
        && (!(k in oem && Q.Allowed(drivers[k], to, oem[k].max)) ==> !ok && Q.Refused(old(State()), State()))
    {
      hide C.Inv, C.OnSession, C.Admit, C.Lock, C.Capture, Q.Refused, Q.Allowed;
      forall oem: C.Bounds | C.Inv(State(), oem)
        ensures var (n, done) := C.Level(State(), drivers, k, to, enabled);
          && C.OnSession(State(), n, oem, k)
          && (done ==> k in n.now && k in oem && n.now[k] == to && to.max <= oem[k].max && k in n.originals)
          && (journalInvalid ==> n == State())
          && (done ==> Q.Allowed(drivers[k], to, oem[k].max))
          && (!(k in oem && Q.Allowed(drivers[k], to, oem[k].max)) ==> !done && Q.Refused(State(), n))
      {
        Q.LevelAnswers(State(), drivers, oem, k, to, enabled);
        C.LevelKeeps(State(), drivers, oem, k, to, enabled);
        C.SessionKnows(State(), C.Level(State(), drivers, k, to, enabled).0, oem, k);
      }
      if !enabled || journalInvalid || error {
        return false;
      }
      ok := Admit(k, to);
      if !ok {
        return;
      }
      if k !in originals {
        ok := Capture(k);
        if !ok {
          return;
        }
      }
      ok := Lock(k, to);
    }

    method Admit(k: C.Kind, to: Range) returns (ok: bool)
      requires k in now && k in drivers
      modifies this
      ensures (State(), ok) == C.Admit(old(State()), drivers, k, to) && k in now
      ensures ok ==> drivers[k].supported && Ordered(to) && to.min in drivers[k].levels && to.max in drivers[k].levels
    {
      var ceiling := 0;
      if k in originals {
        ceiling := originals[k].max;
      } else {
        ok := Look();
        if !ok {
          return;
        }
        ceiling := now[k].max;
      }
      ok := Look();
      var d := drivers[k];
      ok := ok && d.supported && Ordered(to) && to.min in d.levels && to.max in d.levels && to.max <= ceiling;
    }

    method Lock(k: C.Kind, to: Range) returns (ok: bool)
      requires k in now && k in drivers
      modifies this
      ensures (State(), ok) == C.Lock(old(State()), drivers, k, to)
    {
      ok := Look();
      if ok {
        ok := WriteRange(k, to);
      }
      if !ok {
        var restored := RestoreOne(k);
        if !restored {
          error := true;
        }
        return;
      }
      deadlines := deadlines - {k};
      targets := targets[k := to];
    }

    /** Raises one device's floor to its highest state, if the state is within the ceiling. */
    method ApplyMax(k: C.Kind, top: nat) returns (ok: bool)
      requires k in now
      modifies this
      ensures (State(), ok) == C.ApplyMax(old(State()), k, top) && k in now
    {
      ok := Look();
      if !ok || top > now[k].max {
        return false;
      }
      ok := WriteFloor(k, top);
    }

    method Time(k: C.Kind, top: nat, until: int) returns (ok: bool)
      requires k in now && k in drivers
      modifies this
      ensures (State(), ok) == C.Time(old(State()), drivers, k, top, until)
    {
      hide C.ApplyMax, C.RestoreOne;
      ok := ApplyMax(k, top);
      if !ok {
        var restored := RestoreOne(k);
        if !restored {
          error := true;
        }
        return;
      }
      deadlines := deadlines[k := until];
    }

    /** A timed trial of one device's highest state. */
    method Trial(k: C.Kind, enabled: bool, time: int) returns (ok: bool)
      requires k in now && k in drivers
      modifies this
      ensures (State(), ok) == C.Trial(old(State()), drivers, k, enabled, time)
    {
      hide C.Capture, C.Time;
      if !enabled || error {
        return false;
      }
      ok := Look();
      var d := drivers[k];
      if !ok || !d.supported || d.levels == [] || k in originals {
        return false;
      }
      ok := Capture(k);
      if ok {
        ok := Time(k, d.levels[|d.levels| - 1], time + C.TRIAL_SECONDS);
      }
    }

    method Oem(k: C.Kind) returns (ok: bool)
      requires k in now && k in drivers
      modifies this
      ensures (State(), ok) == C.Oem(old(State()), drivers, k)
      ensures forall oem: C.Bounds :: C.Inv(old(State()), oem) ==>
        && C.OnSession(old(State()), State(), oem, k)
        && (ok && old(alive) ==> k in now && k in oem && now[k] == oem[k] && k !in originals && k !in journal && !error)
        && (old(journalInvalid) ==> State() == old(State()) && !ok)
    {
      hide C.Inv, C.OnSession, C.RestoreOne;
      forall oem: C.Bounds | C.Inv(State(), oem)
        ensures var (n, done) := C.Oem(State(), drivers, k);
          && C.OnSession(State(), n, oem, k)
          && (done && alive ==> k in n.now && k in oem && n.now[k] == oem[k] && k !in n.originals && k !in n.journal && !n.error)
          && (journalInvalid ==> n == State() && !done)
      {
        C.OemKeeps(State(), drivers, oem, k);
        C.SessionKnows(State(), C.Oem(State(), drivers, k).0, oem, k);
      }
      if journalInvalid {
        return false;
      }
      ok := RestoreOne(k);
      if ok {
        error := false;
      }
    }

    lemma ExpiryHolds(time: int)
      requires forall k: C.Kind :: k in now && k in drivers
      ensures forall oem: C.Bounds :: C.Inv(State(), oem) ==>
        var n := C.Expire(State(), drivers, time); C.Inv(n, oem) && forall k :: Q.ExpiryOf(State(), n, oem, k, time)
    {
      hide C.Inv, C.Expire, Q.ExpiryOf;
      forall oem: C.Bounds | C.Inv(State(), oem)
        ensures var n := C.Expire(State(), drivers, time); C.Inv(n, oem) && forall k :: Q.ExpiryOf(State(), n, oem, k, time)
      {
        C.ExpireKeeps(State(), drivers, oem, time);
        forall k ensures Q.ExpiryOf(State(), C.Expire(State(), drivers, time), oem, k, time) {
          Q.ExpireAnswers(State(), drivers, oem, time, k);
        }
      }
    }

    /** Restores every trial whose deadline has passed; one that cannot be restored closes the latch. */
    method Expire(time: int)
      requires forall k: C.Kind :: k in now && k in drivers
      modifies this
      ensures State() == C.Expire(old(State()), drivers, time)
      ensures forall oem: C.Bounds :: C.Inv(old(State()), oem) ==>
        C.Inv(State(), oem) && forall k :: Q.ExpiryOf(old(State()), State(), oem, k, time)
    {
      hide C.ExpireEach, C.Inv, Q.ExpiryOf;
      ExpiryHolds(time);
      var expired: seq<C.Kind> := [];
      if C.Memory in deadlines && deadlines[C.Memory] <= time {
        expired := expired + [C.Memory];
      }
      if C.Storage in deadlines && deadlines[C.Storage] <= time {
        expired := expired + [C.Storage];
      }
      assert expired == C.Expired(State(), time);
      RestoreExpired(expired);
    }

    method RestoreExpired(expired: seq<C.Kind>)
      requires forall k: C.Kind :: k in now && k in drivers
      modifies this
      ensures State() == C.ExpireEach(expired, old(State()), drivers)
    {
      hide C.RestoreOne;
      var i := 0;
      while i < |expired| && expired[i] in now
        invariant i <= |expired|
        invariant C.ExpireEach(expired, old(State()), drivers) == C.ExpireEach(expired[i..], State(), drivers)
      {
        assert expired[i..][0] == expired[i] && expired[i..][1..] == expired[i + 1..];
        var k := expired[i];
        var ok := RestoreOne(k);
        if !ok {
          error := true;
          deadlines := deadlines - {k};
        }
        i := i + 1;
      }
    }
  }
}

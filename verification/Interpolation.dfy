// The frames the touch resampler injects: bounded extrapolation, and recognising its own output.
module Interpolation {
  import opened Strings

  const EV_SYN := 0
  const EV_ABS := 3
  const SYN_REPORT := 0
  const SLOT := 0x2f
  const TOUCH_MAJOR := 0x30
  const WIDTH_MAJOR := 0x32
  const WIDTH_MINOR := 0x33
  const POSITION_X := 0x35
  const POSITION_Y := 0x36
  const WINDOW_NS := 50_000_000

  datatype Event = Event(kind: int, code: int, value: int)

  datatype Slot = Slot(
    active: bool, x: int, y: int, previousX: int, previousY: int, marker: int, pointTime: int, previousTime: int)

  datatype Range = Range(low: int, high: int)

  predicate Proper(r: Range) {
    r.low < r.high
  }

  predicate Within(v: int, r: Range) {
    r.low <= v <= r.high
  }

  function Clamp(v: int, r: Range): int {
    if v < r.low then r.low else if v > r.high then r.high else v
  }

  function Abs(v: int): nat {
    if v < 0 then -v else v
  }

  /** Division that truncates toward zero. */
  function Truncated(a: int, b: int): int
    requires b > 0
  {
    if a < 0 then -(-a / b) else a / b
  }

  predicate IsMarker(code: int) {
    code == WIDTH_MINOR || code == WIDTH_MAJOR || code == TOUCH_MAJOR
  }

  // ---------- one coordinate ----------

  /** A coordinate carried forward along its last movement, for at most as long as that movement took. */
  function Forward(v: int, previous: int, s: Slot, at: int): int {
    var source := s.pointTime - s.previousTime;
    var future := at - s.pointTime;
    if 0 < source < WINDOW_NS && future > 0 then
      var step := Truncated((v - previous) * (if future < source then future else source), source);
      Clamp(v + step, Range(I32_MIN, I32_MAX))
    else v
  }

  lemma DivAtMost(m: nat, s: int, d: nat)
    requires s > 0 && m <= d * s
    ensures 0 <= m / s <= d
    ensures m == d * s ==> m / s == d
  {
    var q, r := m / s, m % s;
    var e := q - d;
    assert e * s == m - r - d * s;
    assert e >= 1 ==> e * s >= s;
    assert e <= -1 ==> e * s <= -s;
  }

  lemma ScaledDown(d: nat, f: int, s: int)
    requires 0 < f <= s
    ensures 0 <= d * f / s <= d
    ensures f == s ==> d * f / s == d
    ensures 0 <= d * f <= d * s
  {
    DivAtMost(d * f, s, d);
  }

  lemma StepIsBounded(d: int, f: int, s: int)
    requires 0 < f <= s
    ensures d >= 0 ==> 0 <= Truncated(d * f, s) <= d
    ensures d <= 0 ==> d <= Truncated(d * f, s) <= 0
    ensures f == s ==> Truncated(d * f, s) == d
    ensures Abs(d * f) <= Abs(d) * s
  {
    if d >= 0 {
      ScaledDown(d, f, s);
    } else {
      ScaledDown(-d, f, s);
      assert (-d) * f == -(d * f);
    }
    assert d >= 0 ==> d * f >= 0;
  }

  /**
   * From a point inside its axis, the carried coordinate stays inside the axis and between the
   * point and one full source movement beyond it.
   */
  lemma ForwardIsBounded(v: int, previous: int, s: Slot, at: int, axis: Range)
    requires Proper(axis) && I32_MIN <= axis.low && axis.high <= I32_MAX && Within(v, axis)
    ensures var n := Clamp(Forward(v, previous, s, at), axis);
      && Within(n, axis)
      && Abs(n - v) <= Abs(v - previous)
      && (v >= previous ==> n >= v) && (v <= previous ==> n <= v)
      && (at - s.pointTime <= 0 ==> n == v)
  {
    var source := s.pointTime - s.previousTime;
    var future := at - s.pointTime;
    if 0 < source < WINDOW_NS && future > 0 {
      StepIsBounded(v - previous, if future < source then future else source, source);
    }
    hide Truncated;
  }

  /** A 32-bit movement times any usable interval fits 64 bits. */
  lemma ProductsFit(d: int, f: int, source: int)
    requires Within(d, Range(I32_MIN, I32_MAX)) && 0 < f <= source < WINDOW_NS
    ensures Abs(d * f) < 0x8000_0000_0000_0000
  {
    StepIsBounded(d, f, source);
  }

  // ---------- the injected frame ----------

  function Moved(s: Slot, at: int, xs: Range, ys: Range): (int, int) {
    (Clamp(Forward(s.x, s.previousX, s, at), xs), Clamp(Forward(s.y, s.previousY, s, at), ys))
  }

  /** The events for the active contacts among the first `n` slots. */
  function Contacts(slots: seq<Slot>, n: nat, at: int, xs: Range, ys: Range): seq<Event>
    requires n <= |slots|
  {
    if n == 0 then []
    else
      var s := slots[n - 1];
      var before := Contacts(slots, n - 1, at, xs, ys);
      if !s.active then before
      else
        before + [
          Event(EV_ABS, SLOT, n - 1),
          Event(EV_ABS, POSITION_X, Moved(s, at, xs, ys).0),
          Event(EV_ABS, POSITION_Y, Moved(s, at, xs, ys).1)]
  }

  predicate AnyActive(slots: seq<Slot>, n: nat)
    requires n <= |slots|
  {
    exists i :: 0 <= i < n && slots[i].active
  }

  function LastActive(slots: seq<Slot>, n: nat): (i: nat)
    requires n <= |slots| && AnyActive(slots, n)
    ensures i < n && slots[i].active && forall j :: i < j < n ==> !slots[j].active
  {
    if slots[n - 1].active then n - 1 else LastActive(slots, n - 1)
  }

  predicate AnyMoved(slots: seq<Slot>, n: nat, at: int, xs: Range, ys: Range)
    requires n <= |slots|
  {
    exists i :: 0 <= i < n && slots[i].active && Moved(slots[i], at, xs, ys) != (slots[i].x, slots[i].y)
  }

  function Original(s: Slot, ms: Range): int {
    Clamp(s.marker, ms)
  }

  function Temporary(s: Slot, ms: Range): int {
    if Original(s, ms) < ms.high then Original(s, ms) + 1 else Original(s, ms) - 1
  }

  function Ending(slot: nat, s: Slot, code: int, ms: Range): seq<Event> {
    [Event(EV_ABS, SLOT, slot),
     Event(EV_ABS, code, Temporary(s, ms)),
     Event(EV_ABS, code, Original(s, ms)),
     Event(EV_SYN, SYN_REPORT, 0)]
  }

  function Frame(slots: seq<Slot>, at: int, xs: Range, ys: Range, code: int, ms: Range): seq<Event>
    requires AnyActive(slots, |slots|)
  {
    var last := LastActive(slots, |slots|);
    Contacts(slots, |slots|, at, xs, ys) + Ending(last, slots[last], code, ms)
  }

  /** Builds and writes one frame, unless no contact is active or none would move. */
  method EmitInterpolated(slots: seq<Slot>, at: int, xs: Range, ys: Range, code: int, ms: Range, accepts: bool)
    returns (written: seq<Event>, ok: bool)
    ensures ok <==> AnyActive(slots, |slots|) && AnyMoved(slots, |slots|, at, xs, ys) && accepts
    ensures ok ==> written == Frame(slots, at, xs, ys, code, ms)
    ensures !ok ==> written == []
  {
    var events: seq<Event> := [];
    var changed := false;
    var active, final := false, 0;
    for i := 0 to |slots|
      invariant active == AnyActive(slots, i)
      invariant active ==> final == LastActive(slots, i)
      invariant events == Contacts(slots, i, at, xs, ys)
      invariant changed == AnyMoved(slots, i, at, xs, ys)
    {
      var s := slots[i];
      if s.active {
        var (x, y) := Moved(s, at, xs, ys);
        changed := changed || x != s.x || y != s.y;
        events := events + [Event(EV_ABS, SLOT, i), Event(EV_ABS, POSITION_X, x), Event(EV_ABS, POSITION_Y, y)];
        active, final := true, i;
      }
    }
    if !active || !changed || !accepts {
      return [], false;
    }
    var original := Clamp(slots[final].marker, ms);
    var temporary := if original < ms.high then original + 1 else original - 1;
    written := events + [
      Event(EV_ABS, SLOT, final), Event(EV_ABS, code, temporary), Event(EV_ABS, code, original), Event(EV_SYN, SYN_REPORT, 0)];
    ok := true;
  }

  ghost predicate AxisOk(r: Range) {
    Proper(r) && I32_MIN <= r.low && r.high <= I32_MAX
  }

  ghost predicate NamesContact(e: Event, slots: seq<Slot>) {
    e.kind == EV_ABS && e.code == SLOT && 0 <= e.value < |slots| && slots[e.value].active
  }

  /** On the axis, and at most one source movement away from where an in-range contact was read. */
  ghost predicate Near(value: int, read: int, previous: int, axis: Range) {
    Within(value, axis) && (Within(read, axis) ==> Abs(value - read) <= Abs(read - previous))
  }

  /** A position event follows the name of an active contact and is near that contact's point. */
  ghost predicate Bounded(events: seq<Event>, i: nat, slots: seq<Slot>, xs: Range, ys: Range)
    requires i < |events|
  {
    && (events[i].code == POSITION_X ==>
          && i >= 1 && NamesContact(events[i - 1], slots)
          && Near(events[i].value, slots[events[i - 1].value].x, slots[events[i - 1].value].previousX, xs))
    && (events[i].code == POSITION_Y ==>
          && i >= 2 && NamesContact(events[i - 2], slots)
          && Near(events[i].value, slots[events[i - 2].value].y, slots[events[i - 2].value].previousY, ys))
  }

  ghost predicate AllBounded(events: seq<Event>, slots: seq<Slot>, xs: Range, ys: Range) {
    forall i :: 0 <= i < |events| ==> Bounded(events, i, slots, xs, ys)
  }

  /** The contact at `slot` is reported, with both coordinates, at position `i`. */
  ghost predicate Reported(events: seq<Event>, i: nat, slot: nat) {
    && i + 2 < |events|
    && events[i] == Event(EV_ABS, SLOT, slot)
    && events[i + 1].kind == EV_ABS && events[i + 1].code == POSITION_X
    && events[i + 2].kind == EV_ABS && events[i + 2].code == POSITION_Y
  }

  lemma MovedIsNear(s: Slot, at: int, xs: Range, ys: Range)
    requires AxisOk(xs) && AxisOk(ys)
    ensures Near(Moved(s, at, xs, ys).0, s.x, s.previousX, xs) && Near(Moved(s, at, xs, ys).1, s.y, s.previousY, ys)
  {
    if Within(s.x, xs) { ForwardIsBounded(s.x, s.previousX, s, at, xs); }
    if Within(s.y, ys) { ForwardIsBounded(s.y, s.previousY, s, at, ys); }
    hide Forward;
  }

  lemma {:induction false} ContactsBounded(slots: seq<Slot>, n: nat, at: int, xs: Range, ys: Range)
    requires n <= |slots| && AxisOk(xs) && AxisOk(ys)
    ensures AllBounded(Contacts(slots, n, at, xs, ys), slots, xs, ys)
  {
    if n > 0 {
      ContactsBounded(slots, n - 1, at, xs, ys);
      MovedIsNear(slots[n - 1], at, xs, ys);
      hide Moved, Near;
      var before, events := Contacts(slots, n - 1, at, xs, ys), Contacts(slots, n, at, xs, ys);
      forall i | 0 <= i < |events| ensures Bounded(events, i, slots, xs, ys) {
        if i < |before| { assert Bounded(before, i, slots, xs, ys); }
      }
    }
  }

  lemma {:induction false} ContactReported(slots: seq<Slot>, n: nat, slot: nat, at: int, xs: Range, ys: Range) returns (i: nat)
    requires n <= |slots| && slot < n && slots[slot].active
    ensures Reported(Contacts(slots, n, at, xs, ys), i, slot)
  {
    hide Moved;
    if slot == n - 1 {
      i := |Contacts(slots, n - 1, at, xs, ys)|;
    } else {
      i := ContactReported(slots, n - 1, slot, at, xs, ys);
    }
  }

  /**
   * Every position in an injected frame, of whatever contact, is on its axis; it follows the name
   * of an active contact and, if that contact reads on the axis, is at most one source movement
   * away from it. And every active contact is reported.
   */
  lemma FrameIsBounded(slots: seq<Slot>, at: int, xs: Range, ys: Range, code: int, ms: Range)
    requires AnyActive(slots, |slots|) && AxisOk(xs) && AxisOk(ys) && IsMarker(code)
    ensures var events := Frame(slots, at, xs, ys, code, ms);
      && AllBounded(events, slots, xs, ys)
      && (forall e :: e in events ==> (e.code == POSITION_X ==> Within(e.value, xs)) && (e.code == POSITION_Y ==> Within(e.value, ys)))
      && (forall slot: nat :: slot < |slots| && slots[slot].active ==> exists i: nat :: Reported(events, i, slot))
  {
    ContactsBounded(slots, |slots|, at, xs, ys);
    var contacts, events := Contacts(slots, |slots|, at, xs, ys), Frame(slots, at, xs, ys, code, ms);
    hide Contacts;
    forall i | 0 <= i < |events| ensures Bounded(events, i, slots, xs, ys) {
      if i < |contacts| { assert Bounded(contacts, i, slots, xs, ys); }
    }
    forall slot: nat | slot < |slots| && slots[slot].active ensures exists i: nat :: Reported(events, i, slot) {
      var i := ContactReported(slots, |slots|, slot, at, xs, ys);
      assert Reported(events, i, slot);
    }
    forall e | e in events ensures (e.code == POSITION_X ==> Within(e.value, xs)) && (e.code == POSITION_Y ==> Within(e.value, ys)) {
      var i :| 0 <= i < |events| && events[i] == e;
      assert Bounded(events, i, slots, xs, ys);
    }
  }

  // ---------- where the contacts are carried ----------

  /** `q` is `a / b` without its fraction, toward zero. */
  predicate WithoutFraction(a: int, b: int, q: int) {
    Abs(q) * b <= Abs(a) < (Abs(q) + 1) * b && (a >= 0 ==> q >= 0) && (a <= 0 ==> q <= 0)
  }

  lemma TruncatedIs(a: int, b: int)
    requires b > 0
    ensures WithoutFraction(a, b, Truncated(a, b))
  {
    var m := Abs(a);
    assert m == b * (m / b) + m % b;
    assert (m / b) * b == b * (m / b) && (m / b + 1) * b == b * (m / b) + b;
  }

  /** `value` is `a / b` without its fraction beyond `read`, kept on the axis. */
  ghost predicate Beyond(read: int, a: int, b: int, axis: Range, value: int) {
    exists step :: WithoutFraction(a, b, step) && value == Clamp(read + step, axis)
  }

  /**
   * Where a coordinate belongs that was read as `read`, a movement of `read - previous` in `source`
   * nanoseconds ago, `future` nanoseconds on: it stays where the last movement was too slow, or there
   * is nothing to look ahead to; else it goes on as fast, for no longer than that movement took.
   */
  ghost predicate GoesOn(read: int, previous: int, source: int, future: int, axis: Range, value: int) {
    if 0 < source < 50_000_000 && future > 0 then
      Beyond(read, (read - previous) * (if future < source then future else source), source, axis, value)
    else value == Clamp(read, axis)
  }

  lemma ForwardGoesOn(v: int, previous: int, s: Slot, at: int, axis: Range)
    requires AxisOk(axis)
    ensures GoesOn(v, previous, s.pointTime - s.previousTime, at - s.pointTime, axis, Clamp(Forward(v, previous, s, at), axis))
  {
    var source, future := s.pointTime - s.previousTime, at - s.pointTime;
    if 0 < source < WINDOW_NS && future > 0 {
      var a := (v - previous) * (if future < source then future else source);
      TruncatedIs(a, source);
      hide Truncated, WithoutFraction;
      var step := Truncated(a, source);
      assert WithoutFraction(a, source, step);
      assert Clamp(Clamp(v + step, Range(I32_MIN, I32_MAX)), axis) == Clamp(v + step, axis);
    }
  }

  /** Contact `slot` is reported at position `i` of the frame, where its last movement takes it. */
  ghost predicate CarriedAt(events: seq<Event>, i: nat, slot: nat, s: Slot, at: int, xs: Range, ys: Range) {
    && Reported(events, i, slot)
    && GoesOn(s.x, s.previousX, s.pointTime - s.previousTime, at - s.pointTime, xs, events[i + 1].value)
    && GoesOn(s.y, s.previousY, s.pointTime - s.previousTime, at - s.pointTime, ys, events[i + 2].value)
  }

  lemma {:induction false} ContactCarried(slots: seq<Slot>, n: nat, slot: nat, at: int, xs: Range, ys: Range) returns (i: nat)
    requires n <= |slots| && slot < n && slots[slot].active && AxisOk(xs) && AxisOk(ys)
    ensures CarriedAt(Contacts(slots, n, at, xs, ys), i, slot, slots[slot], at, xs, ys)
  {
    var s := slots[slot];
    if slot == n - 1 {
      ForwardGoesOn(s.x, s.previousX, s, at, xs);
      ForwardGoesOn(s.y, s.previousY, s, at, ys);
      i := |Contacts(slots, n - 1, at, xs, ys)|;
    } else {
      i := ContactCarried(slots, n - 1, slot, at, xs, ys);
    }
    hide Forward, GoesOn, Clamp;
  }

  /** Every active contact is reported exactly where its last movement takes it. */
  lemma FrameCarries(slots: seq<Slot>, slot: nat, at: int, xs: Range, ys: Range, code: int, ms: Range)
    requires slot < |slots| && slots[slot].active && AxisOk(xs) && AxisOk(ys)
    ensures AnyActive(slots, |slots|)
    ensures exists i: nat :: CarriedAt(Frame(slots, at, xs, ys, code, ms), i, slot, slots[slot], at, xs, ys)
  {
    var i := ContactCarried(slots, |slots|, slot, at, xs, ys);
    hide Contacts, GoesOn;
    assert CarriedAt(Frame(slots, at, xs, ys, code, ms), i, slot, slots[slot], at, xs, ys);
  }

  /** A frame ends with the last active contact's own marker value, after another one on its axis, and one report. */
  lemma FrameRestoresMarker(slots: seq<Slot>, at: int, xs: Range, ys: Range, code: int, ms: Range)
    requires AnyActive(slots, |slots|) && Proper(ms)
    ensures var f, last := Frame(slots, at, xs, ys, code, ms), LastActive(slots, |slots|);
      && |f| >= 4 && f[|f| - 4] == Event(EV_ABS, SLOT, last)
      && f[|f| - 3].kind == EV_ABS && f[|f| - 3].code == code && Within(f[|f| - 3].value, ms) && f[|f| - 3].value != f[|f| - 2].value
      && f[|f| - 2] == Event(EV_ABS, code, Clamp(slots[last].marker, ms))
      && f[|f| - 1] == Event(EV_SYN, SYN_REPORT, 0)
  {
    var last := LastActive(slots, |slots|);
    var contacts, ending := Contacts(slots, |slots|, at, xs, ys), Ending(last, slots[last], code, ms);
    hide Contacts;
    assert Frame(slots, at, xs, ys, code, ms) == contacts + ending && |ending| == 4;
  }

  lemma {:induction false} ReportedIsMoved(slots: seq<Slot>, n: nat, at: int, xs: Range, ys: Range, i: nat, slot: nat)
    requires n <= |slots| && Reported(Contacts(slots, n, at, xs, ys), i, slot)
    ensures var events := Contacts(slots, n, at, xs, ys);
      slot < n && slots[slot].active && (events[i + 1].value, events[i + 2].value) == Moved(slots[slot], at, xs, ys)
  {
    hide Moved;
    var before := Contacts(slots, n - 1, at, xs, ys);
    if i + 2 < |before| {
      ReportedIsMoved(slots, n - 1, at, xs, ys, i, slot);
    } else {
      ContactsInThrees(slots, n - 1, at, xs, ys);
    }
  }

  /** Names of contacts stand at every third place only. */
  lemma {:induction false} ContactsInThrees(slots: seq<Slot>, n: nat, at: int, xs: Range, ys: Range)
    requires n <= |slots|
    ensures var events := Contacts(slots, n, at, xs, ys);
      |events| % 3 == 0 && forall i :: 0 <= i < |events| ==> (events[i].code == SLOT <==> i % 3 == 0)
  {
    if n > 0 {
      ContactsInThrees(slots, n - 1, at, xs, ys);
      hide Moved;
    }
  }

  /** A frame is worth writing exactly when it shows some contact elsewhere than it was read. */
  lemma WorthWriting(slots: seq<Slot>, at: int, xs: Range, ys: Range)
    ensures AnyMoved(slots, |slots|, at, xs, ys) <==>
      exists i: nat, slot: nat ::
        && slot < |slots| && slots[slot].active && Reported(Contacts(slots, |slots|, at, xs, ys), i, slot)
        && (|| Contacts(slots, |slots|, at, xs, ys)[i + 1].value != slots[slot].x
            || Contacts(slots, |slots|, at, xs, ys)[i + 2].value != slots[slot].y)
  {
    var events := Contacts(slots, |slots|, at, xs, ys);
    hide Moved;
    if AnyMoved(slots, |slots|, at, xs, ys) {
      var slot :| 0 <= slot < |slots| && slots[slot].active && Moved(slots[slot], at, xs, ys) != (slots[slot].x, slots[slot].y);
      var i := ContactReported(slots, |slots|, slot, at, xs, ys);
      ReportedIsMoved(slots, |slots|, at, xs, ys, i, slot);
    }
    if i: nat, slot: nat :|
      && slot < |slots| && slots[slot].active && Reported(events, i, slot)
      && (events[i + 1].value != slots[slot].x || events[i + 2].value != slots[slot].y)
    {
      ReportedIsMoved(slots, |slots|, at, xs, ys, i, slot);
    }
  }

  // ---------- recognising the frame ----------

  function StripReports(events: seq<Event>): seq<Event> {
    if events != [] && events[|events| - 1].kind == EV_SYN && events[|events| - 1].code == SYN_REPORT
    then StripReports(events[..|events| - 1])
    else events
  }

  predicate IsInjected(events: seq<Event>, code: int) {
    var p := StripReports(events);
    && |p| >= 2
    && p[|p| - 1].kind == EV_ABS && p[|p| - 1].code == code
    && p[|p| - 2].kind == EV_ABS && p[|p| - 2].code == code
    && p[|p| - 1].value != p[|p| - 2].value
  }

  /** The kernel's side: the selected slot, the slot last reported, and the values it holds. */
  datatype Kernel = Kernel(selected: int, reported: int, held: map<(int, int), int>)

  function Holds(k: Kernel, slot: int, code: int): int {
    if (slot, code) in k.held then k.held[(slot, code)] else 0
  }

  /** Values that do not change are dropped; a slot is reported only ahead of a value that passes. */
  function Pass(k: Kernel, e: Event): (Kernel, seq<Event>) {
    if e.kind != EV_ABS then (k, [e])
    else if e.code == SLOT then (k.(selected := e.value), [])
    else if Holds(k, k.selected, e.code) == e.value then (k, [])
    else
      (k.(held := k.held[(k.selected, e.code) := e.value], reported := k.selected),
       (if k.reported != k.selected then [Event(EV_ABS, SLOT, k.selected)] else []) + [e])
  }

  function PassAll(k: Kernel, events: seq<Event>): (Kernel, seq<Event>)
    decreases |events|
  {
    if events == [] then (k, [])
    else
      var front := PassAll(k, events[..|events| - 1]);
      var (n, more) := Pass(front.0, events[|events| - 1]);
      (n, front.1 + more)
  }

  lemma PassOne(k: Kernel, events: seq<Event>, e: Event)
    ensures PassAll(k, events + [e]) == (Pass(PassAll(k, events).0, e).0, PassAll(k, events).1 + Pass(PassAll(k, events).0, e).1)
  {
    assert (events + [e])[..|events|] == events;
  }

  predicate NoMarkers(events: seq<Event>) {
    forall e :: e in events ==> !IsMarker(e.code) && e.kind == EV_ABS
  }

  /** Positions and slot selections neither move a held marker nor deliver one. */
  lemma {:induction false} PositionsSpareMarkers(k: Kernel, events: seq<Event>, slot: int, code: int)
    requires NoMarkers(events) && IsMarker(code)
    ensures Holds(PassAll(k, events).0, slot, code) == Holds(k, slot, code)
    ensures NoMarkers(PassAll(k, events).1)
    decreases |events|
  {
    if events != [] {
      var front := events[..|events| - 1];
      assert forall e :: e in front ==> e in events;
      PositionsSpareMarkers(k, front, slot, code);
      var last := events[|events| - 1];
      assert last in events;
    }
  }

  lemma {:induction false} ContactsHaveNoMarkers(slots: seq<Slot>, n: nat, at: int, xs: Range, ys: Range)
    requires n <= |slots|
    ensures NoMarkers(Contacts(slots, n, at, xs, ys))
  {
    if n > 0 {
      ContactsHaveNoMarkers(slots, n - 1, at, xs, ys);
    }
    hide Moved;
  }

  lemma TemporaryDiffers(s: Slot, ms: Range)
    requires Proper(ms)
    ensures Temporary(s, ms) != Original(s, ms)
    ensures Within(Temporary(s, ms), ms) && Within(Original(s, ms), ms)
  {
  }

  /** Selecting a slot delivers nothing; the next value that passes reports it. */
  lemma SelectionPasses(k: Kernel, before: seq<Event>, slot: nat)
    ensures var (n, out) := PassAll(k, before + [Event(EV_ABS, SLOT, slot)]);
      n == PassAll(k, before).0.(selected := slot) && out == PassAll(k, before).1
  {
    PassOne(k, before, Event(EV_ABS, SLOT, slot));
    hide PassAll;
  }

  /** The two markers, from a kernel that has selected their slot. */
  function MarkersPassed(k: Kernel, code: int, first: int, second: int): seq<Event> {
    (if k.reported != k.selected then [Event(EV_ABS, SLOT, k.selected)] else [])
    + (if Holds(k, k.selected, code) != first then [Event(EV_ABS, code, first)] else [])
    + [Event(EV_ABS, code, second)]
  }

  lemma MarkersPass(k: Kernel, code: int, first: int, second: int)
    requires IsMarker(code) && first != second
    ensures var (a, one) := Pass(k, Event(EV_ABS, code, first));
      var (b, two) := Pass(a, Event(EV_ABS, code, second));
      one + two == MarkersPassed(k, code, first, second)
  {
  }

  lemma ReportPasses(k: Kernel)
    ensures Pass(k, Event(EV_SYN, SYN_REPORT, 0)) == (k, [Event(EV_SYN, SYN_REPORT, 0)])
  {
  }

  /** What the kernel delivers for the end of a frame. */
  lemma EndingPasses(k: Kernel, before: seq<Event>, slot: nat, s: Slot, code: int, ms: Range)
    requires IsMarker(code) && Proper(ms)
    ensures var mid := PassAll(k, before);
      PassAll(k, before + Ending(slot, s, code, ms)).1 ==
        mid.1 + MarkersPassed(mid.0.(selected := slot), code, Temporary(s, ms), Original(s, ms)) + [Event(EV_SYN, SYN_REPORT, 0)]
  {
    hide PassAll, Pass, Temporary, Original, MarkersPassed;
    TemporaryDiffers(s, ms);
    var t, o := Temporary(s, ms), Original(s, ms);
    var sel, tmp, org, syn := Event(EV_ABS, SLOT, slot), Event(EV_ABS, code, t), Event(EV_ABS, code, o), Event(EV_SYN, SYN_REPORT, 0);
    SelectionPasses(k, before, slot);
    PassOne(k, before + [sel], tmp);
    PassOne(k, before + [sel] + [tmp], org);
    PassOne(k, before + [sel] + [tmp] + [org], syn);
    assert before + Ending(slot, s, code, ms) == before + [sel] + [tmp] + [org] + [syn];
    var mid := PassAll(k, before);
    MarkersPass(mid.0.(selected := slot), code, t, o);
    var (a, one) := Pass(mid.0.(selected := slot), tmp);
    var two := Pass(a, org).1;
    assert mid.1 + one + two == mid.1 + (one + two);
    ReportPasses(Pass(a, org).0);
  }

  lemma InjectedAtTheEnd(p: seq<Event>, last: Event, code: int)
    requires last.kind == EV_ABS && last.code == code
    ensures IsInjected(p + [last, Event(EV_SYN, SYN_REPORT, 0)], code) <==>
      p != [] && p[|p| - 1].kind == EV_ABS && p[|p| - 1].code == code && p[|p| - 1].value != last.value
  {
    var all := p + [last, Event(EV_SYN, SYN_REPORT, 0)];
    assert all[..|all| - 1] == p + [last];
    assert StripReports(p + [last]) == p + [last];
  }

  /**
   * After the kernel has dropped unchanged values, an injected frame is still recognised as such
   * exactly when the marker the kernel holds for its last contact is not the temporary value, in
   * particular whenever the kernel holds the contact's own marker.
   */
  lemma RecognisedAfterFilter(slots: seq<Slot>, at: int, xs: Range, ys: Range, code: int, ms: Range, k: Kernel)
    requires AnyActive(slots, |slots|) && IsMarker(code) && Proper(ms)
    ensures var last := LastActive(slots, |slots|);
      var seen := PassAll(k, Frame(slots, at, xs, ys, code, ms)).1;
      && (IsInjected(seen, code) <==> Holds(k, last, code) != Temporary(slots[last], ms))
      && (Holds(k, last, code) == Original(slots[last], ms) ==> IsInjected(seen, code))
  {
    hide PassAll, Contacts, Temporary, Original, IsInjected;
    var last := LastActive(slots, |slots|);
    var s := slots[last];
    var before := Contacts(slots, |slots|, at, xs, ys);
    ContactsHaveNoMarkers(slots, |slots|, at, xs, ys);
    PositionsSpareMarkers(k, before, last, code);
    EndingPasses(k, before, last, s, code, ms);
    TemporaryDiffers(s, ms);
    var mid := PassAll(k, before);
    var chosen := if mid.0.reported != last then [Event(EV_ABS, SLOT, last)] else [];
    var first := if Holds(mid.0, last, code) != Temporary(s, ms) then [Event(EV_ABS, code, Temporary(s, ms))] else [];
    var p := mid.1 + chosen + first;
    var org, syn := Event(EV_ABS, code, Original(s, ms)), Event(EV_SYN, SYN_REPORT, 0);
    assert p + [org, syn] == mid.1 + (chosen + first + [org]) + [syn];
    InjectedAtTheEnd(p, org, code);
    if first == [] && p != [] {
      assert p == mid.1 + chosen;
      assert p[|p| - 1] in p && NoMarkers(p);
    }
  }

  /** As written, before any filter, every frame is recognised. */
  lemma RecognisedAsWritten(slots: seq<Slot>, at: int, xs: Range, ys: Range, code: int, ms: Range)
    requires AnyActive(slots, |slots|) && IsMarker(code) && Proper(ms)
    ensures IsInjected(Frame(slots, at, xs, ys, code, ms), code)
  {
    var last := LastActive(slots, |slots|);
    var s := slots[last];
    TemporaryDiffers(s, ms);
    var p := Contacts(slots, |slots|, at, xs, ys) + [Event(EV_ABS, SLOT, last), Event(EV_ABS, code, Temporary(s, ms))];
    var org := Event(EV_ABS, code, Original(s, ms));
    assert Frame(slots, at, xs, ys, code, ms) == p + [org, Event(EV_SYN, SYN_REPORT, 0)];
    InjectedAtTheEnd(p, org, code);
    hide Contacts, Temporary, Original, IsInjected;
  }
}

// When the touch resampler adds a frame: pacing against elapsed time, and the stale-session cutoff.
module Pacing {
  const SECOND := 1_000_000_000
  const STALE_NS := 40_000_000

  /** Rates the resampler can pace: at least a nanosecond between ticks. Only 1000 is ever requested. */
  type Rate = t: int | 1 <= t <= SECOND witness 1000

  /** When frame number `ideal` of a session is due. */
  function Tick(start: int, ideal: int, target: Rate): int {
    start + (ideal - 1) * SECOND / target
  }

  datatype Pacer = Pacer(session: bool, start: int, ideal: int, actual: int, nextTick: int, lastSource: int)

  /** What reaches clients, in order: touch frames, of which some begin a session, lifts, and injected frames. */
  datatype Entry = Source(at: int, begins: bool) | Lift(at: int) | Injected(at: int)

  /** Whether each attempted injection succeeds; attempts beyond the end fail. */
  datatype Answers = Silent | Answer(ok: bool, rest: Answers)

  function Took(answers: Answers): bool {
    answers.Answer? && answers.ok
  }

  function After(answers: Answers): Answers {
    if answers.Answer? then answers.rest else Silent
  }

  // ---------- one source frame, one wake ----------

  function OnFrame(p: Pacer, at: int, wasActive: bool, active: bool, target: Rate): (Pacer, Entry) {
    if active && (!wasActive || !p.session) then
      (Pacer(true, at, 2, 1, Tick(at, 2, target), at), Source(at, true))
    else if active then (p.(lastSource := at, actual := p.actual + 1), Source(at, false))
    else (p.(lastSource := at, session := false), Lift(at))
  }

  predicate OnSchedule(p: Pacer, target: Rate) {
    p.session ==> p.nextTick == Tick(p.start, p.ideal, target)
  }

  lemma TicksAdvance(start: int, ideal: int, target: Rate)
    ensures Tick(start, ideal, target) < Tick(start, ideal + 1, target)
  {
    var a := (ideal - 1) * SECOND;
    DivStep(a, target);
    DivKeepsOrder(a + target, a + SECOND, target);
  }

  lemma DivKeepsOrder(a: int, b: int, t: int)
    requires a <= b && t > 0
    ensures a / t <= b / t
  {
    var d := a / t - b / t;
    assert d * t == a - b + b % t - a % t < t;
    assert d >= 1 ==> d * t >= t;
  }

  lemma DivStep(a: int, t: int)
    requires t > 0
    ensures (a + t) / t == a / t + 1
  {
    var q, r := a / t, a % t;
    assert a == q * t + r;
    QuotientIs(a + t, t, q + 1, r);
  }

  lemma QuotientIs(a: int, t: int, q: int, r: int)
    requires t > 0 && a == q * t + r && 0 <= r < t
    ensures a / t == q
  {
    var d := a / t - q;
    assert d * t == r - a % t;
    assert d >= 1 ==> d * t >= t;
    assert d <= -1 ==> d * t <= -t;
  }

  /** One due tick: a frame is injected unless the count already covers it. */
  function Turn(p: Pacer, now: int, target: Rate, answers: Answers): (Pacer, seq<Entry>, Answers) {
    var tries := p.actual < p.ideal;
    var injects := tries && Took(answers);
    (p.(actual := if injects then p.actual + 1 else p.actual,
        ideal := p.ideal + 1,
        nextTick := Tick(p.start, p.ideal + 1, target)),
     if injects then [Injected(now)] else [],
     if tries then After(answers) else answers)
  }

  predicate IsDue(p: Pacer, now: int) {
    p.session && now >= p.nextTick
  }

  /** Walks every due tick. */
  function CatchUp(p: Pacer, now: int, target: Rate, answers: Answers): (r: (Pacer, seq<Entry>))
    requires OnSchedule(p, target)
    decreases if IsDue(p, now) then now - p.nextTick + 1 else 0
  {
    if !IsDue(p, now) then (p, [])
    else
      TicksAdvance(p.start, p.ideal, target);
      var (q, made, left) := Turn(p, now, target, answers);
      var (r, log) := CatchUp(q, now, target, left);
      (r, made + log)
  }

  /** One turn of the loop, seen from what was logged before it. */
  lemma TurnOnce(before: seq<Entry>, p: Pacer, now: int, target: Rate, answers: Answers)
    requires OnSchedule(p, target) && IsDue(p, now)
    ensures var (q, made, left) := Turn(p, now, target, answers);
      && OnSchedule(q, target) && p.nextTick < q.nextTick
      && CatchUp(p, now, target, answers).0 == CatchUp(q, now, target, left).0
      && before + CatchUp(p, now, target, answers).1 == (before + made) + CatchUp(q, now, target, left).1
  {
    TicksAdvance(p.start, p.ideal, target);
    hide Tick;
  }

  function CutOff(p: Pacer, now: int): Pacer {
    if p.session && now - p.lastSource > STALE_NS then p.(session := false) else p
  }

  function OnWake(p: Pacer, now: int, target: Rate, answers: Answers): (Pacer, seq<Entry>)
    requires OnSchedule(p, target)
  {
    CatchUp(CutOff(p, now), now, target, answers)
  }

  // ---------- what the log says, independently of the counters ----------

  /** Frames since the last one that began a session, that one included. */
  function CountSince(log: seq<Entry>): nat {
    if log == [] then 0
    else match log[|log| - 1]
      case Source(_, true) => 1
      case Source(_, false) => CountSince(log[..|log| - 1]) + 1
      case Injected(_) => CountSince(log[..|log| - 1]) + 1
      case Lift(_) => CountSince(log[..|log| - 1])
  }

  function BeganAt(log: seq<Entry>): int {
    if log == [] then 0
    else if log[|log| - 1].Source? && log[|log| - 1].begins then log[|log| - 1].at
    else BeganAt(log[..|log| - 1])
  }

  function LastSource(log: seq<Entry>): int {
    if log == [] then 0
    else if !log[|log| - 1].Injected? then log[|log| - 1].at
    else LastSource(log[..|log| - 1])
  }

  /** The injection that ends this log was due, and the panel had reported recently. */
  ghost predicate Due(log: seq<Entry>, target: Rate)
    requires log != [] && log[|log| - 1].Injected?
  {
    var now := log[|log| - 1].at;
    && Tick(BeganAt(log), CountSince(log), target) <= now
    && now - LastSource(log) <= STALE_NS
  }

  /** Every injection in the log was due when it was made. */
  ghost predicate AllDue(log: seq<Entry>, target: Rate) {
    forall i {:trigger log[i]} :: 0 <= i < |log| && log[i].Injected? ==> Due(log[..i + 1], target)
  }

  ghost predicate Describes(p: Pacer, log: seq<Entry>, target: Rate) {
    && OnSchedule(p, target)
    && (p.session ==> p.actual == CountSince(log) && p.start == BeganAt(log) && p.lastSource == LastSource(log))
  }

  lemma AllDueExtends(log: seq<Entry>, e: Entry, target: Rate)
    requires AllDue(log, target)
    requires e.Injected? ==> Due(log + [e], target)
    ensures AllDue(log + [e], target)
  {
    var l := log + [e];
    forall i {:trigger l[i]} | 0 <= i < |l| && l[i].Injected?
      ensures Due(l[..i + 1], target)
    {
      if i < |log| {
        assert log[i] == l[i] && l[..i + 1] == log[..i + 1];
      } else {
        assert l[..i + 1] == l;
      }
    }
  }

  lemma TickKeepsOrder(start: int, a: int, b: int, target: Rate)
    requires a <= b
    ensures Tick(start, a, target) <= Tick(start, b, target)
  {
    DivKeepsOrder((a - 1) * SECOND, (b - 1) * SECOND, target);
  }

  /** A frame keeps the counters true to the log. */
  lemma FrameKeeps(p: Pacer, log: seq<Entry>, at: int, wasActive: bool, active: bool, target: Rate)
    requires Describes(p, log, target) && AllDue(log, target)
    ensures var (n, e) := OnFrame(p, at, wasActive, active, target);
      Describes(n, log + [e], target) && AllDue(log + [e], target)
  {
    var (n, e) := OnFrame(p, at, wasActive, active, target);
    assert (log + [e])[..|log|] == log;
    AllDueExtends(log, e, target);
    hide AllDue, Tick;
  }

  /** The catch-up loop ends beyond now, and everything it injects is due. */
  lemma {:induction false} CatchUpKeeps(p: Pacer, log: seq<Entry>, now: int, target: Rate, answers: Answers)
    requires Describes(p, log, target) && AllDue(log, target)
    requires p.session ==> now - p.lastSource <= STALE_NS
    ensures var (n, more) := CatchUp(p, now, target, answers);
      && Describes(n, log + more, target) && AllDue(log + more, target)
      && n.session == p.session && (n.session ==> now < n.nextTick)
    decreases if IsDue(p, now) then now - p.nextTick + 1 else 0
  {
    if IsDue(p, now) {
      TurnOnce(log, p, now, target, answers);
      var (q, made, left) := Turn(p, now, target, answers);
      if made != [] {
        assert (log + made)[..|log|] == log;
        TickKeepsOrder(p.start, p.actual + 1, p.ideal, target);
        AllDueExtends(log, Injected(now), target);
      } else {
        assert log + made == log;
      }
      CatchUpKeeps(q, log + made, now, target, left);
    } else {
      assert log + [] == log;
    }
    hide AllDue, Due, Tick;
  }

  lemma WakeKeeps(p: Pacer, log: seq<Entry>, now: int, target: Rate, answers: Answers)
    requires Describes(p, log, target) && AllDue(log, target)
    ensures var (n, more) := OnWake(p, now, target, answers);
      && Describes(n, log + more, target) && AllDue(log + more, target)
      && (n.session ==> n.nextTick == Tick(n.start, n.ideal, target) && now < n.nextTick)
      && (n.session <==> p.session && now - p.lastSource <= 40_000_000)
  {
    CatchUpKeeps(CutOff(p, now), log, now, target, answers);
    hide AllDue, Tick, CatchUp;
  }

  // ---------- runs ----------

  datatype Event = Frame(at: int, wasActive: bool, active: bool) | Wake(now: int, answers: Answers)

  function Step(p: Pacer, e: Event, target: Rate): (Pacer, seq<Entry>)
    requires OnSchedule(p, target)
  {
    match e
    case Frame(at, was, active) => var (n, entry) := OnFrame(p, at, was, active, target); (n, [entry])
    case Wake(now, answers) => OnWake(p, now, target, answers)
  }

  /** The log after a run; frames and wakes may interleave in any way, at any times. */
  ghost function Run(p: Pacer, log: seq<Entry>, es: seq<Event>, target: Rate): (Pacer, seq<Entry>)
    decreases |es|
  {
    if es == [] || !OnSchedule(p, target) then (p, log)
    else
      var (n, more) := Step(p, es[0], target);
      Run(n, log + more, es[1..], target)
  }

  const IDLE := Pacer(false, 0, 0, 0, 0, 0)

  lemma {:induction false} RunKeeps(p: Pacer, log: seq<Entry>, es: seq<Event>, target: Rate)
    requires Describes(p, log, target) && AllDue(log, target)
    ensures var (n, l) := Run(p, log, es, target);
      Describes(n, l, target) && AllDue(l, target)
    decreases |es|
  {
    if es != [] {
      match es[0]
      case Frame(at, was, active) => FrameKeeps(p, log, at, was, active, target);
      case Wake(now, answers) => WakeKeeps(p, log, now, target, answers);
    }
    hide OnFrame, OnWake, AllDue, CountSince, BeganAt, LastSource;
    if es != [] {
      var (n, more) := Step(p, es[0], target);
      assert OnSchedule(p, target);
      RunKeeps(n, log + more, es[1..], target);
    }
  }

  /**
   * At 1000 Hz, for every interleaving of touch frames and wakes: when a frame is injected, the
   * touch and injected frames of its session together number at most the elapsed milliseconds plus
   * one, and the panel last reported at most 40 ms earlier.
   */
  lemma InjectionsAreBounded(es: seq<Event>, i: nat)
    requires var l := Run(IDLE, [], es, 1000).1; i < |l| && l[i].Injected?
    ensures var l := Run(IDLE, [], es, 1000).1;
      && CountSince(l[..i + 1]) <= (l[i].at - BeganAt(l[..i + 1])) / 1_000_000 + 1
      && l[i].at - LastSource(l[..i + 1]) <= 40_000_000
  {
    RunKeeps(IDLE, [], es, 1000);
    hide Run, CountSince, BeganAt, LastSource;
    var l := Run(IDLE, [], es, 1000).1;
    assert Due(l[..i + 1], 1000);
    var n := CountSince(l[..i + 1]);
    assert (n - 1) * SECOND / 1000 == (n - 1) * 1_000_000;
  }

  // ---------- sessions ----------

  /**
   * A touch frame begins a session when no finger was down before it, or the last session was cut
   * off; it counts as the first, and the next frame is due one period later. Any other touch frame
   * counts on, and a frame without fingers ends the session.
   */
  lemma FrameBegins(p: Pacer, at: int, wasActive: bool, active: bool, target: Rate)
    ensures var (n, e) := OnFrame(p, at, wasActive, active, target);
      && n.session == active && n.lastSource == at
      && (active && (!wasActive || !p.session) ==>
            e == Source(at, true) && n.start == at && n.actual == 1 && n.ideal == 2 && n.nextTick == at + SECOND / target)
      && (active && wasActive && p.session ==>
            e == Source(at, false) && n == p.(lastSource := at, actual := p.actual + 1))
      && (!active ==> e == Lift(at))
  {
  }

  /** Fingers are down, as far as the panel has told. */
  predicate Touching(log: seq<Entry>) {
    log != [] && (log[|log| - 1].Source? || (log[|log| - 1].Injected? && Touching(log[..|log| - 1])))
  }

  /** No frame is injected, and no session continued, once the fingers have been lifted. */
  ghost predicate NeverLifted(log: seq<Entry>) {
    forall i {:trigger log[i]} :: 0 <= i < |log| && (log[i].Injected? || log[i] == Source(log[i].at, false)) ==> Touching(log[..i])
  }

  lemma TouchExtends(log: seq<Entry>, e: Entry)
    requires NeverLifted(log) && (e.Injected? || e == Source(e.at, false) ==> Touching(log))
    ensures NeverLifted(log + [e]) && (Touching(log + [e]) <==> e.Source? || (e.Injected? && Touching(log)))
  {
    var l := log + [e];
    assert l[..|log|] == log;
    forall i {:trigger l[i]} | 0 <= i < |l| && (l[i].Injected? || l[i] == Source(l[i].at, false)) ensures Touching(l[..i]) {
      if i < |log| { assert l[i] == log[i] && l[..i] == log[..i]; }
    }
  }

  lemma {:induction false} CatchUpTouches(p: Pacer, log: seq<Entry>, now: int, target: Rate, answers: Answers)
    requires OnSchedule(p, target) && NeverLifted(log) && (p.session ==> Touching(log))
    ensures var (n, more) := CatchUp(p, now, target, answers);
      OnSchedule(n, target) && NeverLifted(log + more) && (n.session ==> Touching(log + more))
    decreases if IsDue(p, now) then now - p.nextTick + 1 else 0
  {
    if IsDue(p, now) {
      TurnOnce(log, p, now, target, answers);
      var (q, made, left) := Turn(p, now, target, answers);
      if made != [] { TouchExtends(log, Injected(now)); } else { assert log + made == log; }
      CatchUpTouches(q, log + made, now, target, left);
    } else {
      assert log + [] == log;
    }
    hide NeverLifted, Touching, Tick;
  }

  lemma {:induction false} RunTouches(p: Pacer, log: seq<Entry>, es: seq<Event>, target: Rate)
    requires OnSchedule(p, target) && NeverLifted(log) && (p.session ==> Touching(log))
    ensures var (n, l) := Run(p, log, es, target); NeverLifted(l) && (n.session ==> Touching(l))
    decreases |es|
  {
    if es != [] {
      match es[0]
      case Frame(at, was, active) => TouchExtends(log, OnFrame(p, at, was, active, target).1);
      case Wake(now, answers) => CatchUpTouches(CutOff(p, now), log, now, target, answers);
    }
    hide CatchUp, NeverLifted, Touching, Tick;
    if es != [] {
      var (n, more) := Step(p, es[0], target);
      RunTouches(n, log + more, es[1..], target);
    }
  }

  /** From the first frame on, whatever interleaves: an injected frame and a continued session always follow a touch. */
  lemma NothingAfterLift(es: seq<Event>, target: Rate)
    ensures NeverLifted(Run(IDLE, [], es, target).1)
  {
    RunTouches(IDLE, [], es, target);
  }

  predicate AlwaysTaken(answers: Answers, n: nat)
    decreases n
  {
    n == 0 || (answers.Answer? && answers.ok && AlwaysTaken(answers.rest, n - 1))
  }

  /** The other direction: when injections succeed, no due tick is left uncovered. */
  lemma {:induction false} CatchUpCovers(p: Pacer, now: int, target: Rate, answers: Answers, n: nat)
    requires OnSchedule(p, target) && p.session && p.ideal <= p.actual + 1
    requires n > now - p.nextTick && AlwaysTaken(answers, n)
    ensures var q := CatchUp(p, now, target, answers).0;
      q.session && q.ideal <= q.actual + 1 && now < Tick(q.start, q.actual + 1, target)
    decreases n
  {
    TickKeepsOrder(p.start, p.ideal, p.actual + 1, target);
    if IsDue(p, now) {
      TurnOnce([], p, now, target, answers);
      FewerTaken(answers, n);
      var (q, made, left) := Turn(p, now, target, answers);
      CatchUpCovers(q, now, target, left, n - 1);
    }
    hide Tick;
  }

  /** A wake soon after a source frame covers every due tick, when injections succeed. */
  lemma WakeCovers(p: Pacer, now: int, target: Rate, answers: Answers, n: nat)
    requires OnSchedule(p, target) && p.session && p.ideal <= p.actual + 1 && now - p.lastSource <= 40_000_000
    requires n > now - p.nextTick && AlwaysTaken(answers, n)
    ensures var q := OnWake(p, now, target, answers).0;
      q.session && q.ideal <= q.actual + 1 && now < Tick(q.start, q.actual + 1, target)
  {
    hide Tick, CatchUp;
    CatchUpCovers(p, now, target, answers, n);
  }

  lemma {:induction false} FewerTaken(answers: Answers, n: nat)
    requires n > 0 && AlwaysTaken(answers, n)
    ensures AlwaysTaken(answers, n - 1)
    decreases n
  {
    if n > 1 {
      FewerTaken(answers.rest, n - 1);
    }
  }

  // ---------- the resampler's form ----------

  class Resampler {
    const target: Rate
    var session: bool
    var start: int
    var ideal: int
    var actual: int
    var nextTick: int
    var lastSource: int
    var log: seq<Entry>

    ghost function State(): Pacer
      reads this
    {
      Pacer(session, start, ideal, actual, nextTick, lastSource)
    }

    constructor (target: Rate)
      ensures State() == IDLE && log == [] && this.target == target
    {
      this.target := target;
      session, start, ideal, actual, nextTick, lastSource := false, 0, 0, 0, 0, 0;
      log := [];
    }

    method Observe(at: int, wasActive: bool, active: bool)
      modifies this
      ensures State() == OnFrame(old(State()), at, wasActive, active, target).0
      ensures log == old(log) + [OnFrame(old(State()), at, wasActive, active, target).1]
    {
      lastSource := at;
      if active && (!wasActive || !session) {
        session := true;
        start := at;
        actual := 1;
        ideal := 2;
        nextTick := Tick(start, ideal, target);
        log := log + [Source(at, true)];
      } else if active {
        actual := actual + 1;
        log := log + [Source(at, false)];
      } else {
        session := false;
        log := log + [Lift(at)];
      }
    }

    method WakeUp(now: int, answers: Answers)
      requires OnSchedule(State(), target)
      modifies this
      ensures State() == OnWake(old(State()), now, target, answers).0
      ensures log == old(log) + OnWake(old(State()), now, target, answers).1
      ensures session ==> nextTick == Tick(start, ideal, target) && now < nextTick
    {
      hide Tick;
      if session && now - lastSource > STALE_NS {
        session := false;
      }
      ghost var p := State();
      assert p == CutOff(old(State()), now);
      ghost var done: seq<Entry> := [];
      var left := answers;
      while session && now >= nextTick
        invariant OnSchedule(State(), target)
        invariant log == old(log) + done
        invariant CatchUp(p, now, target, answers).0 == CatchUp(State(), now, target, left).0
        invariant CatchUp(p, now, target, answers).1 == done + CatchUp(State(), now, target, left).1
        decreases if IsDue(State(), now) then now - nextTick + 1 else 0
      {
        ghost var was, before, asked := State(), done, left;
        TurnOnce(before, was, now, target, asked);
        if actual < ideal {
          if Took(left) {
            actual := actual + 1;
            log := log + [Injected(now)];
            done := done + [Injected(now)];
          }
          left := After(left);
        }
        ideal := ideal + 1;
        nextTick := Tick(start, ideal, target);
        assert (State(), left) == (Turn(was, now, target, asked).0, Turn(was, now, target, asked).2);
        assert done == before + Turn(was, now, target, asked).1;
      }
    }
  }
}

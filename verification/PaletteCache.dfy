// The app's shared palette cache: any number of clients submit operations, one worker performs them.
// Every load, compare-exchange, send and store is a step of its own.
module PaletteCache {
  import opened Wrappers

  datatype Group = Colors | Contrast

  const BUSY := 1
  const DONE := 2
  const FAILED := -1

  /** One group's atomics. */
  datatype Cell = Cell(state: int, error: int, revision: int, values: seq<int>)

  /** What has happened to a group so far: accepted and finished operations, and the last complete response. */
  datatype History = History(accepted: nat, finished: nat, committed: seq<int>)

  datatype Both<T> = Both(colors: T, contrast: T) {
    function At(g: Group): T {
      if g.Colors? then colors else contrast
    }

    function With(g: Group, t: T): Both<T> {
      if g.Colors? then this.(colors := t) else this.(contrast := t)
    }
  }

  /** Where a client is inside one submission. */
  datatype Client = Idle | Loaded(group: Group, previous: int) | Holding(group: Group, previous: int) | Refused(group: Group, previous: int)

  /** Where the worker is inside one operation; `sent` is the response, if there is a valid one. */
  datatype Worker =
    | Waiting
    | Begun(group: Group)
    | Cleared(group: Group)
    | Storing(group: Group, sent: seq<int>, next: nat)
    | Stored(group: Group, outcome: Option<seq<int>>)
    | Published(group: Group, outcome: Option<seq<int>>)

  datatype System = System(cells: Both<Cell>, history: Both<History>, clients: seq<Client>, queue: seq<Group>, worker: Worker)

  datatype Action =
    | Load(client: nat, group: Group)
    | Swap(client: nat)
    | Send(client: nat, accepted: bool)
    | Back(client: nat)
    | Take
    | Clear
    | Answer(sent: seq<int>)
    | Fail(code: int)
    | StoreNext
    | Publish
    | Finish

  /** A 32-bit counter wraps around. */
  function Wrapped(n: int): int {
    (n + 0x8000_0000) % 0x1_0000_0000 - 0x8000_0000
  }

  function OnCell(s: System, g: Group, c: Cell): System {
    s.(cells := s.cells.With(g, c))
  }

  function ClientStep(s: System, a: Action, i: nat): System
    requires i < |s.clients|
  {
    var k := s.clients[i];
    match a
    case Load(_, g) =>
      if !k.Idle? || s.cells.At(g).state == BUSY then s
      else s.(clients := s.clients[i := Loaded(g, s.cells.At(g).state)])
    case Swap(_) =>
      if !k.Loaded? then s
      else
        var c := s.cells.At(k.group);
        if c.state != k.previous then s.(clients := s.clients[i := Idle])
        else OnCell(s, k.group, c.(state := BUSY)).(clients := s.clients[i := Holding(k.group, k.previous)])
    case Send(_, accepted) =>
      if !k.Holding? then s
      else if !accepted then s.(clients := s.clients[i := Refused(k.group, k.previous)])
      else
        var h := s.history.At(k.group);
        s.(clients := s.clients[i := Idle], queue := s.queue + [k.group],
           history := s.history.With(k.group, h.(accepted := h.accepted + 1)))
    case Back(_) =>
      if !k.Refused? then s
      else OnCell(s, k.group, s.cells.At(k.group).(state := k.previous)).(clients := s.clients[i := Idle])
    case _ => s
  }

  function WorkerStep(s: System, a: Action): System {
    var w := s.worker;
    match a
    case Take =>
      if !w.Waiting? || s.queue == [] then s
      else
        var g := s.queue[0];
        OnCell(s, g, s.cells.At(g).(state := BUSY)).(worker := Begun(g), queue := s.queue[1..])
    case Clear =>
      if !w.Begun? then s
      else OnCell(s, w.group, s.cells.At(w.group).(error := 0)).(worker := Cleared(w.group))
    case Answer(sent) =>
      if !w.Cleared? || |sent| != |s.cells.At(w.group).values| then s
      else s.(worker := Storing(w.group, sent, 0))
    case Fail(code) =>
      if !w.Cleared? || !(1 <= code <= 9) then s
      else OnCell(s, w.group, s.cells.At(w.group).(error := code)).(worker := Stored(w.group, None))
    case StoreNext =>
      if !w.Storing? then s
      else if w.next < |w.sent| && w.next < |s.cells.At(w.group).values| then
        var c := s.cells.At(w.group);
        OnCell(s, w.group, c.(values := c.values[w.next := w.sent[w.next]])).(worker := w.(next := w.next + 1))
      else s.(worker := Stored(w.group, Some(w.sent)))
    case Publish =>
      if !w.Stored? then s
      else
        var c := s.cells.At(w.group);
        OnCell(s, w.group, c.(revision := Wrapped(c.revision + 1))).(worker := Published(w.group, w.outcome))
    case Finish =>
      if !w.Published? then s
      else
        var h := s.history.At(w.group);
        OnCell(s, w.group, s.cells.At(w.group).(state := if w.outcome.Some? then DONE else FAILED)).(
          worker := Waiting,
          history := s.history.With(w.group,
            h.(finished := h.finished + 1, committed := if w.outcome.Some? then w.outcome.value else h.committed)))
    case _ => s
  }

  function Step(s: System, a: Action): System {
    match a
    case Load(i, _) => if i < |s.clients| then ClientStep(s, a, i) else s
    case Swap(i) => if i < |s.clients| then ClientStep(s, a, i) else s
    case Send(i, _) => if i < |s.clients| then ClientStep(s, a, i) else s
    case Back(i) => if i < |s.clients| then ClientStep(s, a, i) else s
    case _ => WorkerStep(s, a)
  }

  // ---------- who holds a group ----------

  predicate Claims(k: Client, g: Group) {
    (k.Holding? || k.Refused?) && k.group == g
  }

  function Count(b: bool): nat {
    if b then 1 else 0
  }

  function ClientsOn(ks: seq<Client>, g: Group): nat {
    if ks == [] then 0 else Count(Claims(ks[0], g)) + ClientsOn(ks[1..], g)
  }

  function Queued(q: seq<Group>, g: Group): nat {
    if q == [] then 0 else Count(q[0] == g) + Queued(q[1..], g)
  }

  predicate WorksOn(w: Worker, g: Group) {
    !w.Waiting? && w.group == g
  }

  /** Accepted operations of a group that have not finished. */
  function Outstanding(s: System, g: Group): nat {
    Queued(s.queue, g) + Count(WorksOn(s.worker, g))
  }

  lemma {:induction false} ClientsOnUpdate(ks: seq<Client>, i: nat, k: Client, g: Group)
    requires i < |ks|
    ensures ClientsOn(ks[i := k], g) + Count(Claims(ks[i], g)) == ClientsOn(ks, g) + Count(Claims(k, g))
  {
    if i == 0 {
      assert ks[i := k][1..] == ks[1..];
    } else {
      ClientsOnUpdate(ks[1..], i - 1, k, g);
      assert ks[i := k][1..] == ks[1..][i - 1 := k];
    }
  }

  lemma {:induction false} ClaimCounts(ks: seq<Client>, i: nat, g: Group)
    requires i < |ks| && Claims(ks[i], g)
    ensures ClientsOn(ks, g) >= 1
  {
    if i > 0 {
      ClaimCounts(ks[1..], i - 1, g);
    }
  }

  lemma {:induction false} QueuedAppend(q: seq<Group>, x: Group, g: Group)
    ensures Queued(q + [x], g) == Queued(q, g) + Count(x == g)
  {
    if q != [] {
      assert (q + [x])[1..] == q[1..] + [x];
      QueuedAppend(q[1..], x, g);
    }
  }

  // ---------- the invariant ----------

  predicate Consistent(state: int, error: int) {
    (state == DONE ==> error == 0) && (state == FAILED ==> error != 0)
  }

  /** A group is busy exactly when one client, queue entry or worker holds it, and never more than one. */
  ghost predicate OneHolder(s: System, g: Group) {
    ClientsOn(s.clients, g) + Outstanding(s, g) == Count(s.cells.At(g).state == BUSY)
  }

  /** Accepted operations are finished or outstanding, and the revision counts those published. */
  ghost predicate Accounted(s: System, g: Group) {
    && s.history.At(g).accepted == s.history.At(g).finished + Outstanding(s, g)
    && s.cells.At(g).revision == Wrapped(s.history.At(g).finished + Count(s.worker.Published? && s.worker.group == g))
  }

  /** Outside an operation the values are one complete response; inside, a prefix of the next has replaced it. */
  ghost predicate Whole(s: System, g: Group) {
    var v, h, w := s.cells.At(g).values, s.history.At(g).committed, s.worker;
    && |h| == |v|
    && (if w.Storing? && w.group == g then
          |w.sent| == |v| && w.next <= |v| && v == w.sent[..w.next] + h[w.next..]
        else if (w.Stored? || w.Published?) && w.group == g && w.outcome.Some? then
          v == w.outcome.value
        else v == h)
  }

  /** A finished state carries the matching error code. */
  ghost predicate Coded(s: System, g: Group) {
    var c, w := s.cells.At(g), s.worker;
    && (c.state != BUSY ==> Consistent(c.state, c.error))
    && (WorksOn(w, g) && (w.Cleared? || w.Storing?) ==> c.error == 0)
    && (WorksOn(w, g) && (w.Stored? || w.Published?) ==> (c.error == 0 <==> w.outcome.Some?))
  }

  /** What a client remembers is a state it may put back. */
  ghost predicate Restorable(s: System, i: nat)
    requires i < |s.clients|
  {
    var k := s.clients[i];
    && (!k.Idle? ==> k.previous != BUSY)
    && (k.Holding? || k.Refused? ==> Consistent(k.previous, s.cells.At(k.group).error))
  }

  ghost predicate Inv(s: System) {
    && (forall g :: OneHolder(s, g))
    && (forall g :: Accounted(s, g))
    && (forall g :: Whole(s, g))
    && (forall g :: Coded(s, g))
    && (forall i :: 0 <= i < |s.clients| ==> Restorable(s, i))
  }

  /** A new cache, whatever values it starts with. */
  ghost predicate Initial(s: System) {
    && (forall g :: s.cells.At(g).state == 0 && s.cells.At(g).error == 0 && s.cells.At(g).revision == 0)
    && (forall g :: s.history.At(g) == History(0, 0, s.cells.At(g).values))
    && (forall i :: 0 <= i < |s.clients| ==> s.clients[i].Idle?)
    && s.queue == [] && s.worker.Waiting?
  }

  lemma {:induction false} IdleClientsHoldNothing(ks: seq<Client>, g: Group)
    requires forall i :: 0 <= i < |ks| ==> ks[i].Idle?
    ensures ClientsOn(ks, g) == 0
  {
    if ks != [] {
      IdleClientsHoldNothing(ks[1..], g);
    }
  }

  lemma InitialHolds(s: System)
    requires Initial(s)
    ensures Inv(s)
  {
    forall g
      ensures OneHolder(s, g)
    {
      IdleClientsHoldNothing(s.clients, g);
    }
  }

  // ---------- client steps ----------

  lemma ClientStepKeeps(s: System, a: Action, i: nat)
    requires Inv(s) && i < |s.clients|
    ensures Inv(ClientStep(s, a, i))
  {
    var n := ClientStep(s, a, i);
    var k := s.clients[i];
    assert Restorable(s, i);
    forall g
      ensures OneHolder(n, g) && Accounted(n, g) && Whole(n, g) && Coded(n, g)
    {
      assert OneHolder(s, g) && Accounted(s, g);
      ClientStepGroup(s, a, i, g);
      ClientStepValues(s, a, i, g);
    }
    forall j | 0 <= j < |n.clients|
      ensures Restorable(n, j)
    {
      ClientStepClient(s, a, i, j);
    }
    hide ClientStep, OneHolder, Accounted, Whole, Coded, Restorable;
  }

  /** A claim is taken, handed to the queue or given back; it is never lost or doubled. */
  lemma ClientStepGroup(s: System, a: Action, i: nat, g: Group)
    requires i < |s.clients| && OneHolder(s, g) && Accounted(s, g) && Restorable(s, i)
    ensures var n := ClientStep(s, a, i);
      OneHolder(n, g) && Accounted(n, g)
  {
    hide ClientsOn, Queued, Whole, Coded, Consistent, Wrapped;
    var n := ClientStep(s, a, i);
    var k := s.clients[i];
    if n != s {
      ClientsOnUpdate(s.clients, i, n.clients[i], g);
      if k.Holding? {
        QueuedAppend(s.queue, k.group, g);
      }
      if Claims(k, g) {
        ClaimCounts(s.clients, i, g);
      }
    }
  }

  lemma ClientStepValues(s: System, a: Action, i: nat, g: Group)
    requires Inv(s) && i < |s.clients|
    ensures var n := ClientStep(s, a, i);
      Whole(n, g) && Coded(n, g)
  {
    hide OneHolder, Accounted;
    assert Whole(s, g) && Coded(s, g) && Restorable(s, i);
  }

  lemma ClientStepClient(s: System, a: Action, i: nat, j: nat)
    requires Inv(s) && i < |s.clients| && j < |s.clients|
    ensures Restorable(ClientStep(s, a, i), j)
  {
    assert Restorable(s, i) && Restorable(s, j);
    var g := s.clients[i];
    assert !g.Idle? ==> Coded(s, g.group);
    hide ClientsOn, Queued, OneHolder, Accounted, Whole;
  }

  // ---------- worker steps ----------

  lemma {:induction false} QueuedHead(q: seq<Group>, g: Group)
    requires q != []
    ensures Queued(q, g) == Count(q[0] == g) + Queued(q[1..], g)
  {
  }

  lemma WrappedNext(n: int)
    ensures Wrapped(Wrapped(n) + 1) == Wrapped(n + 1)
  {
  }

  lemma WorkerStepGroup(s: System, a: Action, g: Group)
    requires Inv(s)
    ensures var n := WorkerStep(s, a);
      OneHolder(n, g) && Accounted(n, g)
  {
    hide ClientsOn, Queued, Wrapped, Coded, Whole, Consistent;
    assert OneHolder(s, g) && Accounted(s, g);
    if a.Take? && s.queue != [] {
      QueuedHead(s.queue, g);
    }
    WrappedNext(s.history.At(g).finished);
  }

  lemma WorkerStepCoded(s: System, a: Action, g: Group)
    requires Inv(s)
    ensures Coded(WorkerStep(s, a), g)
  {
    hide ClientsOn, Queued, Wrapped, Accounted, Whole;
    assert OneHolder(s, g) && Coded(s, g);
  }

  lemma WorkerStepWhole(s: System, a: Action, g: Group)
    requires Whole(s, g)
    ensures Whole(WorkerStep(s, a), g)
  {
    hide Wrapped;
    var w, v, h := s.worker, s.cells.At(g).values, s.history.At(g).committed;
    if a.Answer? {
      assert a.sent[..0] + h[0..] == h;
    }
    if a.StoreNext? && w.Storing? && w.group == g {
      if w.next < |w.sent| {
        var m := v[w.next := w.sent[w.next]];
        assert m == w.sent[..w.next + 1] + h[w.next + 1..];
      } else {
        assert v == w.sent;
      }
    }
  }

  /** The worker touches a group only while it holds it, when no client remembers a state for it. */
  lemma WorkerStepClient(s: System, a: Action, i: nat)
    requires Inv(s) && i < |s.clients|
    ensures Restorable(WorkerStep(s, a), i)
  {
    assert Restorable(s, i);
    var k := s.clients[i];
    if !k.Idle? && Claims(k, k.group) {
      ClaimCounts(s.clients, i, k.group);
      assert OneHolder(s, k.group);
      if s.queue != [] {
        QueuedHead(s.queue, k.group);
      }
    }
    hide ClientsOn, Queued, Wrapped;
  }

  lemma WorkerLeavesClients(s: System, a: Action)
    ensures WorkerStep(s, a).clients == s.clients
  {
  }

  lemma StepKeeps(s: System, a: Action)
    requires Inv(s)
    ensures Inv(Step(s, a))
  {
    hide ClientStep, WorkerStep, OneHolder, Accounted, Whole, Coded, Restorable;
    match a
    case Load(i, _) => if i < |s.clients| { ClientStepKeeps(s, a, i); }
    case Swap(i) => if i < |s.clients| { ClientStepKeeps(s, a, i); }
    case Send(i, _) => if i < |s.clients| { ClientStepKeeps(s, a, i); }
    case Back(i) => if i < |s.clients| { ClientStepKeeps(s, a, i); }
    case _ =>
      var n := WorkerStep(s, a);
      WorkerLeavesClients(s, a);
      forall g
        ensures OneHolder(n, g) && Accounted(n, g) && Coded(n, g) && Whole(n, g)
      {
        WorkerStepGroup(s, a, g);
        WorkerStepCoded(s, a, g);
        WorkerStepWhole(s, a, g);
      }
      forall i | 0 <= i < |n.clients|
        ensures Restorable(n, i)
      {
        WorkerStepClient(s, a, i);
      }
  }

  /** Values move only while the group is busy, before and after the step. */
  lemma ValuesMoveOnlyWhileBusy(s: System, a: Action, g: Group)
    requires Inv(s) && Step(s, a).cells.At(g).values != s.cells.At(g).values
    ensures s.cells.At(g).state == BUSY && Step(s, a).cells.At(g).state == BUSY
  {
    assert OneHolder(s, g);
    hide ClientsOn, Queued, Wrapped;
  }

  function Run(s: System, actions: seq<Action>): System
    decreases |actions|
  {
    if actions == [] then s else Run(Step(s, actions[0]), actions[1..])
  }

  lemma {:induction false} RunKeeps(s: System, actions: seq<Action>)
    requires Inv(s)
    ensures Inv(Run(s, actions))
    decreases |actions|
  {
    hide Inv, Step;
    if actions != [] {
      StepKeeps(s, actions[0]);
      RunKeeps(Step(s, actions[0]), actions[1..]);
    }
  }

  /**
   * For any number of clients and every interleaving of their steps with the worker's: at most one
   * accepted operation of a group is outstanding; accepted operations are the finished ones plus
   * that one; the revision counts the finished operations once the worker is through; and whenever
   * a group is not busy its values are exactly the last complete response, with an error code that
   * matches the state.
   */
  lemma EveryRunIsSingleFlight(s: System, actions: seq<Action>, g: Group)
    requires Initial(s)
    ensures var n := Run(s, actions);
      && Outstanding(n, g) <= 1
      && n.history.At(g).accepted == n.history.At(g).finished + Outstanding(n, g)
      && (n.cells.At(g).state != BUSY ==>
            && Outstanding(n, g) == 0
            && n.cells.At(g).values == n.history.At(g).committed
            && n.cells.At(g).revision == Wrapped(n.history.At(g).finished)
            && Consistent(n.cells.At(g).state, n.cells.At(g).error))
  {
    InitialHolds(s);
    RunKeeps(s, actions);
    var n := Run(s, actions);
    assert OneHolder(n, g) && Accounted(n, g) && Whole(n, g) && Coded(n, g);
    hide Run, ClientsOn, Queued, Wrapped;
  }

  // ---------- the app's form ----------

  /** One operation, start to end. */
  function Performed(c: Cell, outcome: Option<seq<int>>, code: int): Cell {
    Cell(if outcome.Some? then DONE else FAILED,
         if outcome.Some? then 0 else code,
         Wrapped(c.revision + 1),
         if outcome.Some? then outcome.value else c.values)
  }

  function Stores(n: nat): seq<Action> {
    if n == 0 then [] else [StoreNext] + Stores(n - 1)
  }

  lemma {:induction false} StoresRun(s: System, g: Group, sent: seq<int>, next: nat, h: seq<int>)
    requires next <= |sent| == |h| && s.worker == Storing(g, sent, next)
    requires s.cells.At(g).values == sent[..next] + h[next..]
    ensures Run(s, Stores(|sent| - next + 1)) ==
      OnCell(s, g, s.cells.At(g).(values := sent)).(worker := Stored(g, Some(sent)))
    decreases |sent| - next
  {
    hide Wrapped;
    var n := Step(s, StoreNext);
    var v := s.cells.At(g).values;
    assert Stores(|sent| - next + 1)[1..] == Stores(|sent| - next);
    if next < |sent| {
      assert v[next := sent[next]] == sent[..next + 1] + h[next + 1..];
      StoresRun(n, g, sent, next + 1, h);
    } else {
      assert v == sent && Stores(0) == [];
    }
  }

  lemma {:induction false} RunSplits(s: System, a: seq<Action>, b: seq<Action>)
    ensures Run(s, a + b) == Run(Run(s, a), b)
    decreases |a|
  {
    hide Step;
    if a == [] {
      assert a + b == b;
    } else {
      assert (a + b)[1..] == a[1..] + b;
      RunSplits(Step(s, a[0]), a[1..], b);
    }
  }

  lemma RunFirst(s: System, a: Action, rest: seq<Action>)
    ensures Run(s, [a] + rest) == Run(Step(s, a), rest)
  {
    hide Step;
    assert ([a] + rest)[1..] == rest;
  }

  lemma RunTwo(s: System, a: Action, b: Action)
    ensures Run(s, [a, b]) == Step(Step(s, a), b)
  {
    hide Step;
    assert [a, b][1..] == [b] && [b][1..] == [];
    assert Run(Step(Step(s, a), b), []) == Step(Step(s, a), b);
    assert Run(Step(s, a), [b]) == Run(Step(Step(s, a), b), []);
  }

  lemma Starts(s: System, sent: seq<int>)
    requires s.worker.Waiting? && s.queue != [] && |sent| == |s.cells.At(s.queue[0]).values|
    ensures var g, a := s.queue[0], Run(Step(s, Take), [Clear, Answer(sent)]);
      && a.worker == Storing(g, sent, 0)
      && a.cells.At(g) == s.cells.At(g).(state := BUSY, error := 0)
  {
    RunTwo(Step(s, Take), Clear, Answer(sent));
    hide Run;
  }

  lemma Ends(s: System, g: Group, sent: seq<int>)
    requires s.worker == Stored(g, Some(sent))
    ensures Run(s, [Publish, Finish]).cells.At(g) ==
      s.cells.At(g).(revision := Wrapped(s.cells.At(g).revision + 1), state := DONE)
  {
    RunTwo(s, Publish, Finish);
    hide Run, Wrapped;
  }

  /** The worker's steps for one successful operation, run together, perform it. */
  lemma WorkerPerforms(s: System, sent: seq<int>)
    requires s.worker.Waiting? && s.queue != [] && |sent| == |s.cells.At(s.queue[0]).values|
    ensures var g := s.queue[0];
      Run(s, [Take] + ([Clear, Answer(sent)] + (Stores(|sent| + 1) + [Publish, Finish]))).cells.At(g)
        == Performed(s.cells.At(g), Some(sent), 0)
  {
    hide Wrapped, Step, Run, Stores;
    var g := s.queue[0];
    var all := [Clear, Answer(sent)] + (Stores(|sent| + 1) + [Publish, Finish]);
    RunFirst(s, Take, all);
    Starts(s, sent);
    RunSplits(Step(s, Take), [Clear, Answer(sent)], Stores(|sent| + 1) + [Publish, Finish]);
    var a := Run(Step(s, Take), [Clear, Answer(sent)]);
    RunSplits(a, Stores(|sent| + 1), [Publish, Finish]);
    var h := a.cells.At(g).values;
    assert h == sent[..0] + h[0..];
    StoresRun(a, g, sent, 0, h);
    Ends(Run(a, Stores(|sent| + 1)), g, sent);
  }

  predicate ActsFor(a: Action, i: nat) {
    match a
    case Load(j, _) => i == j
    case Swap(j) => i == j
    case Send(j, _) => i == j
    case Back(j) => i == j
    case _ => false
  }

  lemma OthersSpare(s: System, a: Action, i: nat)
    requires i < |s.clients| && !ActsFor(a, i)
    ensures |Step(s, a).clients| == |s.clients| && Step(s, a).clients[i] == s.clients[i]
  {
    hide Wrapped;
  }

  lemma {:induction false} OthersSpareAll(s: System, actions: seq<Action>, i: nat)
    requires i < |s.clients| && forall a :: a in actions ==> !ActsFor(a, i)
    ensures |Run(s, actions).clients| == |s.clients| && Run(s, actions).clients[i] == s.clients[i]
    decreases |actions|
  {
    if actions != [] {
      hide Step;
      OthersSpare(s, actions[0], i);
      OthersSpareAll(Step(s, actions[0]), actions[1..], i);
    }
  }

  /**
   * One submission against any interference: it is accepted exactly when the group was free, still
   * in the same state at the compare-exchange, and the channel took it; only then is it queued,
   * and otherwise the state is what the others made it.
   */
  lemma SubmissionSteps(s: System, i: nat, g: Group, between: seq<Action>, open: bool)
    requires i < |s.clients| && s.clients[i].Idle?
    requires forall a :: a in between ==> !ActsFor(a, i)
    ensures var m := Run(Step(s, Load(i, g)), between);
      var n := Step(Step(Step(m, Swap(i)), Send(i, open)), Back(i));
      var seen, found := s.cells.At(g).state, m.cells.At(g).state;
      var accepted := seen != BUSY && found == seen && open;
      && i < |m.clients| && n.clients == m.clients[i := Idle]
      && n.cells.At(g).state == (if accepted then BUSY else found)
      && n.queue == m.queue + (if accepted then [g] else [])
  {
    OthersSpareAll(Step(s, Load(i, g)), between, i);
    hide Run;
    var m := Run(Step(s, Load(i, g)), between);
    assert m.clients[i := m.clients[i]] == m.clients;
  }

  /** The worker's steps for an operation that fails, run together, perform it too: the code is kept and no value moves. */
  lemma WorkerFails(s: System, code: int)
    requires s.worker.Waiting? && s.queue != [] && 1 <= code <= 9
    ensures Run(s, [Take, Clear] + [Fail(code)] + [Publish, Finish]).cells.At(s.queue[0]) == Performed(s.cells.At(s.queue[0]), None, code)
  {
    hide Wrapped, Run, Step;
    var g := s.queue[0];
    var a := Step(Step(s, Take), Clear);
    TakesAndClears(s);
    FailsAt(a, g, code);
    var b := Step(a, Fail(code));
    RunTwo(s, Take, Clear);
    RunSplits(s, [Take, Clear] + [Fail(code)], [Publish, Finish]);
    RunSplits(s, [Take, Clear], [Fail(code)]);
    RunOne(a, Fail(code));
    RunTwo(b, Publish, Finish);
    EndsFailed(b, g);
  }

  lemma TakesAndClears(s: System)
    requires s.worker.Waiting? && s.queue != []
    ensures var g, a := s.queue[0], Step(Step(s, Take), Clear);
      a.worker == Cleared(g) && a.cells.At(g) == s.cells.At(g).(state := BUSY, error := 0)
  {
  }

  lemma FailsAt(s: System, g: Group, code: int)
    requires s.worker == Cleared(g) && 1 <= code <= 9
    ensures var b := Step(s, Fail(code)); b.worker == Stored(g, None) && b.cells.At(g) == s.cells.At(g).(error := code)
  {
  }

  lemma RunOne(s: System, a: Action)
    ensures Run(s, [a]) == Step(s, a)
  {
    hide Step;
    assert [a][1..] == [];
    assert Run(Step(s, a), []) == Step(s, a);
  }

  lemma EndsFailed(s: System, g: Group)
    requires s.worker == Stored(g, None)
    ensures Step(Step(s, Publish), Finish).cells.At(g) ==
      s.cells.At(g).(revision := Wrapped(s.cells.At(g).revision + 1), state := FAILED)
  {
    hide Wrapped;
  }

  /** The revision is the number of finished operations as a 32-bit counter has it. */
  lemma RevisionIs32Bit(s: System, actions: seq<Action>, g: Group)
    requires Initial(s)
    ensures var n := Run(s, actions);
      n.cells.At(g).state != BUSY ==>
        && -0x8000_0000 <= n.cells.At(g).revision < 0x8000_0000
        && (n.history.At(g).finished - n.cells.At(g).revision) % 0x1_0000_0000 == 0
  {
    EveryRunIsSingleFlight(s, actions, g);
    WrappedIs(Run(s, actions).history.At(g).finished);
    hide Run, Wrapped;
  }

  lemma WrappedIs(n: int)
    ensures -0x8000_0000 <= Wrapped(n) < 0x8000_0000 && (n - Wrapped(n)) % 0x1_0000_0000 == 0
  {
    var q := (n + 0x8000_0000) / 0x1_0000_0000;
    assert n - Wrapped(n) == q * 0x1_0000_0000;
    WholeMultiple(q);
  }

  lemma WholeMultiple(q: int)
    ensures q * 0x1_0000_0000 % 0x1_0000_0000 == 0
  {
  }

  class Cache {
    var state: int
    var error: int
    var revision: int
    var values: seq<int>

    ghost function Contents(): Cell
      reads this
    {
      Cell(state, error, revision, values)
    }

    /** Performs one operation on a group; `outcome` is the parsed response, if there is one. */
    method Perform(outcome: Option<seq<int>>, code: int)
      requires outcome.Some? ==> |outcome.value| == |values|
      modifies this
      ensures Contents() == Performed(old(Contents()), outcome, code)
    {
      state := BUSY;
      error := 0;
      var completed := FAILED;
      match outcome {
        case Some(sent) =>
          for i := 0 to |sent|
            invariant state == BUSY && error == 0 && revision == old(revision)
            invariant |values| == |sent| && values[..i] == sent[..i]
          {
            values := values[i := sent[i]];
          }
          assert values == values[..|sent|] && sent == sent[..|sent|];
          completed := DONE;
        case None =>
          error := code;
      }
      revision := Wrapped(revision + 1);
      state := completed;
    }

    /**
     * Claims the cache and hands the operation over; gives the claim back if it is not accepted.
     * `meanwhile` is what the others made of the state between the load and the compare-exchange.
     */
    method Submit(channelOpen: bool, meanwhile: Option<int>) returns (accepted: bool)
      modifies this`state
      ensures var found := if meanwhile.Some? && old(state) != BUSY then meanwhile.value else old(state);
        && accepted == (old(state) != BUSY && found == old(state) && channelOpen)
        && state == if accepted then BUSY else found
    {
      var previous := state;
      if previous == BUSY {
        return false;
      }
      if meanwhile.Some? {
        state := meanwhile.value;
      }
      if state != previous {
        return false;
      }
      state := BUSY;
      accepted := channelOpen;
      if !accepted {
        state := previous;
      }
    }
  }
}

/**
  The whole server: a base loop that accepts and hands over, and its worker loops, each of
  them a Service. What a run of one worker takes for granted of the connections handed to
  it follows here from the rules of accept(2), for all workers at once.
 */
module ServerRuns {
  import W = EventLoopSpec
  import Own = OwnershipSpec
  import opened OwnershipLink
  import opened Reactor
  import S = ServiceSpec

  /** The worker loops, in the order of the pool, and an order of creation for connection objects. */
  datatype Fleet = Fleet(owners: seq<S.Owner>, id: TCPConnection -> nat)

  /** Who holds what, and the turns each worker has taken. */
  datatype System = System(server: Own.Server, turns: seq<seq<S.Turn>>)

  datatype Event =
    | Accept(fd: int, nonBlocking: bool, conn: TCPConnection)   // `conn` is made if a loop is chosen
    | Work(at: nat, turn: S.Turn)                               // worker `at`, or another thread that queues a task with it
    | Release(last: Own.Conn)

  function Namings(f: Fleet, at: nat): Naming {
    Naming(f.id, at)
  }

  function Worker(f: Fleet, s: System, at: nat): S.Service
    requires at < |f.owners| && at < |s.turns|
  {
    S.Exec(f.owners[at], s.turns[at])
  }

  predicate HandsOver(e: Event) {
    e.Accept? && 0 < e.fd < Own.MAXFDS && e.nonBlocking
  }

  function HandOver(conn: TCPConnection): S.Turn {
    S.Act(W.Push(NewEvent(conn)))
  }

  /**
    accept(2) returns a number that is not open; the object made for it is new. A worker's
    turn is possible, and hands nothing over: that is the accepting thread's part.
   */
  predicate Possible(f: Fleet, s: System, e: Event)
    requires |s.turns| == |f.owners|
  {
    match e
    case Accept(fd, nonBlocking, conn) =>
      && Own.Enabled(s.server, Own.Accept(fd, nonBlocking)) && (forall o :: o in f.owners ==> fd != S.WakeFd(o))
      && (HandsOver(e) ==> conn.fd == fd && f.id(conn) == |s.server.handed|)
    case Work(at, turn) =>
      && at < |f.owners| && S.Possible(f.owners[at], Worker(f, s, at), turn)
      && (turn.Act? && S.Queues(turn.event) ==> turn.event.task.Other?)
    case Release(c) => Own.Enabled(s.server, Own.Release(c))
  }

  /** What the event is in OwnershipSpec. */
  function Steps(f: Fleet, s: System, e: Event): seq<Own.Event>
    requires |s.turns| == |f.owners|
  {
    match e
    case Accept(fd, nonBlocking, _) => [Own.Accept(fd, nonBlocking)]
    case Work(at, turn) =>
      if at < |f.owners| then Moves(f.owners[at], Namings(f, at), Worker(f, s, at), turn) else []
    case Release(c) => [Own.Release(c)]
  }

  function Took(turns: seq<seq<S.Turn>>, at: nat, turn: S.Turn): (t: seq<seq<S.Turn>>)
    ensures |t| == |turns|
  {
    if at < |turns| then turns[at := turns[at] + [turn]] else turns
  }

  function Next(f: Fleet, s: System, e: Event): (t: System)
    requires |s.turns| == |f.owners|
    ensures |t.turns| == |f.owners|
  {
    System(Own.Exec(s.server, Steps(f, s, e)),
           match e
           case Accept(_, _, conn) => if HandsOver(e) then Took(s.turns, s.server.next, HandOver(conn)) else s.turns
           case Work(at, turn) => Took(s.turns, at, turn)
           case Release(_) => s.turns)
  }

  function Begin(f: Fleet): System {
    System(Own.Init(|f.owners|), seq(|f.owners|, _ => []))
  }

  function Exec(f: Fleet, es: seq<Event>): (s: System)
    ensures |s.turns| == |f.owners|
  {
    if es == [] then Begin(f) else Next(f, Exec(f, es[..|es| - 1]), es[|es| - 1])
  }

  /** Each event could happen when it did. */
  predicate Run(f: Fleet, es: seq<Event>) {
    es == [] || (Run(f, es[..|es| - 1]) && Possible(f, Exec(f, es[..|es| - 1]), es[|es| - 1]))
  }

  /** The run as a schedule of OwnershipSpec. */
  function Schedule(f: Fleet, es: seq<Event>): seq<Own.Event> {
    if es == [] then [] else
    Schedule(f, es[..|es| - 1]) + Steps(f, Exec(f, es[..|es| - 1]), es[|es| - 1])
  }

  // ---------- One worker moves, the others stay ----------

  predicate LocalTo(e: Own.Event, at: nat) {
    !e.Accept? && !e.Release? && e.at == at
  }

  /** The same server but for one loop and for what that loop dropped. */
  predicate OnlyLoop(m: Own.Server, t: Own.Server, at: nat) {
    && |t.loops| == |m.loops| && (forall j :: 0 <= j < |m.loops| && j != at ==> t.loops[j] == m.loops[j])
    && t.handed == m.handed && t.inline == m.inline
  }

  lemma StepIsLocal(m: Own.Server, e: Own.Event, at: nat)
    requires LocalTo(e, at)
    ensures OnlyLoop(m, Own.Step(m, e), at)
  {
  }

  lemma {:induction false} ExecIsLocal(m: Own.Server, es: seq<Own.Event>, at: nat)
    requires forall k :: 0 <= k < |es| ==> LocalTo(es[k], at)
    ensures OnlyLoop(m, Own.Exec(m, es), at)
  {
    if es != [] {
      ExecIsLocal(m, es[..|es| - 1], at);
      StepIsLocal(Own.Exec(m, es[..|es| - 1]), es[|es| - 1], at);
    }
  }

  lemma MovesAreLocal(o: S.Owner, n: Naming, s: S.Service, turn: S.Turn)
    ensures forall k :: 0 <= k < |Moves(o, n, s, turn)| ==> LocalTo(Moves(o, n, s, turn)[k], n.home)
  {
  }

  lemma {:induction false} ExecJoins(m: Own.Server, a: seq<Own.Event>, b: seq<Own.Event>)
    ensures Own.Exec(m, a + b) == Own.Exec(Own.Exec(m, a), b)
  {
    if b == [] {
      assert a + b == a;
    } else {
      ExecJoins(m, a, b[..|b| - 1]);
      assert (a + b)[..|a + b| - 1] == a + b[..|b| - 1];
    }
  }

  // ---------- What every run keeps ----------

  /** The connections queued so far were made before the next one. */
  predicate Made(f: Fleet, l: Wakeups, made: nat) {
    forall task :: task in l.queued && task.NewEvent? ==> f.id(task.conn) < made
  }

  /** One worker: a possible run, which the server's books agree with. */
  ghost predicate Kept(f: Fleet, m: Own.Server, turns: seq<S.Turn>, at: nat)
    requires at < |f.owners|
  {
    var o := f.owners[at];
    && S.Run(o, turns) && Holds(m, o, Namings(f, at), S.Exec(o, turns)) && Made(f, S.Exec(o, turns).loop, |m.handed|)
  }

  ghost predicate Owned(m: Own.Server) {
    (exists owner :: Own.Inv(m, owner)) && Own.Dealt(m)
  }

  ghost predicate Together(f: Fleet, s: System) {
    && |s.turns| == |f.owners| == |s.server.loops| && !s.server.inline && Owned(s.server)
    && forall i :: 0 <= i < |f.owners| ==> Kept(f, s.server, s.turns[i], i)
  }

  lemma OwnedNext(m: Own.Server, es: seq<Own.Event>)
    requires Owned(m)
    ensures Owned(Own.Exec(m, es))
  {
    var owner :| Own.Inv(m, owner);
    hide Own.Inv, Own.Dealt;
    var after := Own.ExecKeeps(m, owner, es);
  }

  /** The books of a worker that nothing happened to. */
  lemma StillKept(f: Fleet, m: Own.Server, t: Own.Server, turns: seq<S.Turn>, at: nat)
    requires at < |f.owners| && Kept(f, m, turns, at)
    requires |t.loops| == |m.loops| && (at < |m.loops| ==> t.loops[at] == m.loops[at]) && |m.handed| <= |t.handed|
    ensures Kept(f, t, turns, at)
  {
    hide S.Run, S.Exec, LoopOf;
  }

  lemma QueuedNext(o: S.Owner, s: S.Service, turn: S.Turn)
    requires S.Possible(o, s, turn)
    ensures S.Next(o, s, turn).loop.queued ==
            s.loop.queued + if turn.Act? && S.Queues(turn.event) then [turn.event.task] else []
  {
    hide W.Step, W.Enabled, S.Next, S.Waiting, S.New, S.Reportable;
    S.WaitingNext(s.loop, S.EventOf(o, s, turn));
    S.NextLoop(o, s, turn);
    assert s.loop.queued + [] == s.loop.queued;
  }

  /** A worker goes on. */
  lemma KeptOn(f: Fleet, m: Own.Server, t: Own.Server, turns: seq<S.Turn>, at: nat, turn: S.Turn)
    requires at < |f.owners| && Kept(f, m, turns, at) && |m.handed| <= |t.handed|
    requires var o := f.owners[at];
             var s := S.Exec(o, turns);
             && S.Possible(o, s, turn) && Holds(t, o, Namings(f, at), S.Next(o, s, turn))
             && (turn.Act? && S.Queues(turn.event) && turn.event.task.NewEvent? ==> f.id(turn.event.task.conn) < |t.handed|)
    ensures Kept(f, t, turns + [turn], at)
  {
    var o := f.owners[at];
    S.Then(o, turns, turn);
    hide S.Run, S.Exec, S.Possible, S.Next, LoopOf, Holds;
    QueuedNext(o, S.Exec(o, turns), turn);
  }

  /** One turn of a worker moves its own books and no other's. */
  lemma WorkerMoves(f: Fleet, m: Own.Server, turns: seq<S.Turn>, at: nat, turn: S.Turn)
    requires at < |f.owners| && Kept(f, m, turns, at)
    requires S.Possible(f.owners[at], S.Exec(f.owners[at], turns), turn)
    requires turn.Act? && S.Queues(turn.event) ==> turn.event.task.Other?
    ensures var t := Own.Exec(m, Moves(f.owners[at], Namings(f, at), S.Exec(f.owners[at], turns), turn));
            OnlyLoop(m, t, at) && Kept(f, t, turns + [turn], at)
  {
    var o, n := f.owners[at], Namings(f, at);
    var s := S.Exec(o, turns);
    hide Own.Exec, S.Run, S.Exec, S.Possible, S.Next, S.Sane, Moves, Holds, Made;
    S.RunIsSane(o, turns);
    FollowsOwnership(m, o, n, s, turn);
    MovesAreLocal(o, n, s, turn);
    ExecIsLocal(m, Moves(o, n, s, turn), at);
    hide LocalTo;
    KeptOn(f, m, Own.Exec(m, Moves(o, n, s, turn)), turns, at, turn);
  }

  lemma WorkKeeps(f: Fleet, s: System, e: Event)
    requires Together(f, s) && e.Work? && Possible(f, s, e)
    ensures Together(f, Next(f, s, e))
  {
    var t, m := Next(f, s, e), s.server;
    hide Own.Exec, S.Exec, S.Possible, Moves, Owned, Kept;
    WorkerMoves(f, m, s.turns[e.at], e.at, e.turn);
    OwnedNext(m, Steps(f, s, e));
    forall i | 0 <= i < |f.owners| && i != e.at
      ensures Kept(f, t.server, t.turns[i], i)
    {
      StillKept(f, m, t.server, s.turns[i], i);
    }
  }

  /** Accepting changes the loop that is chosen and no other. */
  lemma AcceptIsLocal(m: Own.Server, fd: int, nonBlocking: bool)
    requires !m.inline
    ensures var t := Own.Step(m, Own.Accept(fd, nonBlocking));
            && |t.loops| == |m.loops| && !t.inline && |m.handed| <= |t.handed|
            && (forall i :: 0 <= i < |m.loops| && i != m.next ==> t.loops[i] == m.loops[i])
            && (!(0 < fd < Own.MAXFDS && nonBlocking) ==> t.loops == m.loops)
            && (Own.Enabled(m, Own.Accept(fd, nonBlocking)) && 0 < fd < Own.MAXFDS && nonBlocking ==> |t.handed| == |m.handed| + 1)
  {
  }

  /** The connection is new to the loop that was chosen, which takes it. */
  lemma HandOverKeeps(f: Fleet, s: System, e: Event)
    requires Together(f, s) && HandsOver(e) && Possible(f, s, e) && s.server.next < |f.owners|
    ensures Kept(f, Own.Step(s.server, Own.Accept(e.fd, true)), s.turns[s.server.next] + [HandOver(e.conn)], s.server.next)
  {
    var m, at := s.server, s.server.next;
    var o, turns, task := f.owners[at], s.turns[at], NewEvent(e.conn);
    var w := S.Exec(o, turns);
    assert Kept(f, m, turns, at);
    var owner :| Own.Inv(m, owner);
    hide S.Run, S.Exec, S.New, LoopOf, Holds, Own.Inv, Own.Dealt, Own.Step;
    AcceptIsNew(m, owner, o, Namings(f, at), w, task);
    assert S.Possible(o, w, HandOver(e.conn));
    hide S.Possible;
    HandOverFollows(m, o, Namings(f, at), w, W.Push(task));
    AcceptIsLocal(m, e.fd, true);
    KeptOn(f, m, Own.Step(m, Own.Accept(e.fd, true)), turns, at, HandOver(e.conn));
  }

  lemma AcceptKeeps(f: Fleet, s: System, e: Event)
    requires Together(f, s) && e.Accept? && Possible(f, s, e)
    ensures Together(f, Next(f, s, e))
  {
    var t, m := Next(f, s, e), s.server;
    var step := Own.Accept(e.fd, e.nonBlocking);
    assert m.next < |m.loops|;
    OneMove(m, step);
    OwnedNext(m, [step]);
    AcceptIsLocal(m, e.fd, e.nonBlocking);
    hide Owned, Kept, Own.Exec, Own.Step, Own.Enabled;
    if HandsOver(e) {
      HandOverKeeps(f, s, e);
    }
    forall i | 0 <= i < |f.owners|
      ensures Kept(f, t.server, t.turns[i], i)
    {
      assert Kept(f, m, s.turns[i], i);
      if i != m.next || !HandsOver(e) {
        StillKept(f, m, t.server, s.turns[i], i);
      }
    }
  }

  lemma ReleaseKeeps(f: Fleet, s: System, e: Event)
    requires Together(f, s) && e.Release? && Possible(f, s, e)
    ensures Together(f, Next(f, s, e))
  {
    var t, m := Next(f, s, e), s.server;
    OneMove(m, Own.Release(e.last));
    OwnedNext(m, [Own.Release(e.last)]);
    hide Owned, Kept;
    forall i | 0 <= i < |f.owners|
      ensures Kept(f, t.server, t.turns[i], i)
    {
      assert Kept(f, m, s.turns[i], i);
      StillKept(f, m, t.server, s.turns[i], i);
    }
  }

  lemma {:induction false} NextKeeps(f: Fleet, s: System, e: Event)
    requires Together(f, s) && Possible(f, s, e)
    ensures Together(f, Next(f, s, e))
  {
    hide Together, Next, Possible;
    match e
    case Accept(_, _, _) => AcceptKeeps(f, s, e);
    case Work(_, _) => WorkKeeps(f, s, e);
    case Release(_) => ReleaseKeeps(f, s, e);
  }

  lemma Begins(f: Fleet)
    requires f.owners != []
    ensures Together(f, Begin(f))
  {
    var s := Begin(f);
    Own.Begins(|f.owners|);
    forall i | 0 <= i < |f.owners|
      ensures Kept(f, s.server, s.turns[i], i)
    {
      var o := f.owners[i];
      assert s.turns[i] == [] && S.Exec(o, []) == S.Begin() && S.Waiting(S.Begin().loop) == [];
      assert LoopOf(o, Namings(f, i), S.Begin()) == Own.FRESH_LOOP;
    }
  }

  lemma {:induction false} RunKeeps(f: Fleet, es: seq<Event>)
    requires Run(f, es) && f.owners != []
    ensures Together(f, Exec(f, es)) && Exec(f, es).server == Own.Exec(Own.Init(|f.owners|), Schedule(f, es))
  {
    hide Together, Possible, Own.Exec, Steps;
    if es == [] {
      Begins(f);
      NoMoves(Own.Init(|f.owners|));
    } else {
      var before, last := es[..|es| - 1], es[|es| - 1];
      RunKeeps(f, before);
      NextKeeps(f, Exec(f, before), last);
      ExecJoins(Own.Init(|f.owners|), Schedule(f, before), Steps(f, Exec(f, before), last));
    }
  }

  // ---------- What holds in every run of the server ----------

  /**
    In every run of the server, each worker's turns are a possible run of its own: every
    connection was new to the loop it was handed to. The server follows a schedule of
    OwnershipSpec, and what a worker has queued, published and in hand is what that
    schedule gives the loop of its number.
   */
  lemma EachWorkerRuns(f: Fleet, es: seq<Event>, at: nat)
    requires Run(f, es) && at < |f.owners|
    ensures S.Run(f.owners[at], Exec(f, es).turns[at])
    ensures var m := Own.Exec(Own.Init(|f.owners|), Schedule(f, es));
            at < |m.loops| && m.loops[at] == LoopOf(f.owners[at], Namings(f, at), Worker(f, Exec(f, es), at))
  {
    RunKeeps(f, es);
    hide S.Run, S.Exec, Run, Exec, Own.Exec, Schedule, LoopOf, Owned;
    assert Kept(f, Exec(f, es).server, Exec(f, es).turns[at], at);
  }

  /** No two workers publish one descriptor, and a published one is open and not leaked. */
  lemma PublishedOnce(f: Fleet, es: seq<Event>, i: nat, j: nat, fd: int)
    requires Run(f, es) && i < |f.owners| && j < |f.owners|
    requires fd in Worker(f, Exec(f, es), i).connections
    ensures fd in Worker(f, Exec(f, es), j).connections ==> i == j
    ensures fd in Exec(f, es).server.open && fd !in Exec(f, es).server.leaked
  {
    RunKeeps(f, es);
    EachWorkerRuns(f, es, i);
    EachWorkerRuns(f, es, j);
    Own.NoDescriptorWithTwoLoops(|f.owners|, Schedule(f, es), i, j, fd);
  }

  /**
    A server that still accepts can accept any number that is not open. The connection is
    then the last task queued with the worker whose turn it is, and that worker can be woken
    for it.
   */
  lemma {:induction false} AcceptedIsQueued(f: Fleet, es: seq<Event>, conn: TCPConnection)
    requires Run(f, es) && f.owners != [] && Exec(f, es).server.armed
    requires 0 < conn.fd < 100000 && conn.fd !in Exec(f, es).server.open && (forall o :: o in f.owners ==> conn.fd != S.WakeFd(o))
    requires f.id(conn) == |Exec(f, es).server.handed|
    ensures var s, more := Exec(f, es), es + [Accept(conn.fd, true, conn)];
            && Run(f, more) && Exec(f, more).server.armed && conn.fd in Exec(f, more).server.open
            && s.server.next < |f.owners|
            && var w := Worker(f, Exec(f, more), s.server.next);
               && S.Waiting(w.loop) == S.Waiting(Worker(f, s, s.server.next).loop) + [NewEvent(conn)]
               && W.Enabled(w.loop, W.Write)
  {
    var s, e := Exec(f, es), Accept(conn.fd, true, conn);
    assert (es + [e])[..|es|] == es;
    RunKeeps(f, es);
    AcceptMeans(s.server, conn.fd);
    hide S.Run, S.Exec, Run, Exec, Own.Exec, Own.Step, Own.Inv, Own.Dealt, Kept, LoopOf;
    assert Possible(f, s, e);
    var at, o := s.server.next, f.owners[s.server.next];
    OneMove(s.server, Own.Accept(conn.fd, true));
    assert Next(f, s, e).turns[at] == s.turns[at] + [HandOver(conn)];
    PushMeans(o, s.turns[at], conn);
  }

  lemma AcceptMeans(m: Own.Server, fd: int)
    requires Owned(m) && !m.inline && m.armed && fd !in m.open && 0 < fd < Own.MAXFDS
    ensures Own.Enabled(m, Own.Accept(fd, true)) && m.next < |m.loops|
    ensures var t := Own.Step(m, Own.Accept(fd, true)); t.armed && fd in t.open
  {
  }

  lemma PushMeans(o: S.Owner, turns: seq<S.Turn>, conn: TCPConnection)
    ensures var s, t := S.Exec(o, turns), S.Exec(o, turns + [HandOver(conn)]);
            S.Waiting(t.loop) == S.Waiting(s.loop) + [NewEvent(conn)] && W.Enabled(t.loop, W.Write)
  {
    assert (turns + [HandOver(conn)])[..|turns|] == turns;
    S.WaitingNext(S.Exec(o, turns).loop, W.Push(NewEvent(conn)));
  }
}

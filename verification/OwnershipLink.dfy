/**
  A loop of OwnershipSpec seen in a worker loop of ServiceSpec, and so in the objects that
  Serving.Play runs: each turn of the one is a few steps of the other.
 */
module OwnershipLink {
  import R = RegistrationSpec
  import W = EventLoopSpec
  import Own = OwnershipSpec
  import opened Reactor
  import opened ServiceSpec

  /** How OwnershipSpec names a connection object of the loop number `home`. */
  datatype Naming = Naming(id: TCPConnection -> nat, home: nat)

  function Name(n: Naming, c: TCPConnection): Own.Conn {
    Own.Conn(n.id(c), c.fd, n.home)
  }

  function HandedBy(n: Naming, task: Task): seq<Own.Conn> {
    if task.NewEvent? then [Name(n, task.conn)] else []
  }

  /** The connections that the tasks hand over. */
  function Handed(n: Naming, tasks: seq<Task>): seq<Own.Conn> {
    if tasks == [] then [] else
    Handed(n, tasks[..|tasks| - 1]) + HandedBy(n, tasks[|tasks| - 1])
  }

  /** The connections in the batch. */
  function Cards(o: Owner, n: Naming, connections: map<int, TCPConnection>, batch: seq<Report>): seq<Own.Conn> {
    if batch == [] then [] else
    var r := batch[|batch| - 1];
    Cards(o, n, connections, batch[..|batch| - 1]) +
    if r.channel != o.wake && r.channel.fd in connections then [Name(n, connections[r.channel.fd])] else []
  }

  function Names(n: Naming, connections: map<int, TCPConnection>): map<int, Own.Conn> {
    map fd | fd in connections :: Name(n, connections[fd])
  }

  function LoopOf(o: Owner, n: Naming, s: Service): Own.Loop {
    Own.Loop(Handed(n, Waiting(s.loop)), Names(n, s.connections), Names(n, s.connections), Own.Idle,
             Cards(o, n, s.connections, s.batch))
  }

  lemma {:induction false} HandedFront(n: Naming, task: Task, tasks: seq<Task>)
    ensures Handed(n, [task] + tasks) == HandedBy(n, task) + Handed(n, tasks)
  {
    if tasks == [] {
      assert [task] + [] == [task] && [task][..0] == [];
      assert Handed(n, [task][..0]) == [];
    } else {
      HandedFront(n, task, tasks[..|tasks| - 1]);
      assert ([task] + tasks)[..|tasks|] == [task] + tasks[..|tasks| - 1];
    }
  }

  lemma HandedBack(n: Naming, tasks: seq<Task>, task: Task)
    ensures Handed(n, tasks + [task]) == Handed(n, tasks) + HandedBy(n, task)
  {
    assert (tasks + [task])[..|tasks|] == tasks;
  }

  lemma {:induction false} CardsFront(o: Owner, n: Naming, connections: map<int, TCPConnection>, batch: seq<Report>)
    requires batch != []
    ensures Cards(o, n, connections, batch) ==
            (if batch[0].channel != o.wake && batch[0].channel.fd in connections then [Name(n, connections[batch[0].channel.fd])] else []) +
            Cards(o, n, connections, Rest(batch))
  {
    if |batch| == 1 {
      assert batch[..0] == [] && Rest(batch) == [];
      assert Cards(o, n, connections, batch[..0]) == [] && Cards(o, n, connections, Rest(batch)) == [];
    } else {
      CardsFront(o, n, connections, batch[..|batch| - 1]);
      assert Rest(batch[..|batch| - 1]) == Rest(batch)[..|Rest(batch)| - 1];
    }
  }

  /** Only the connections in the batch matter. */
  lemma {:induction false} CardsSame(o: Owner, n: Naming, a: map<int, TCPConnection>, b: map<int, TCPConnection>, batch: seq<Report>)
    requires forall i :: 0 <= i < |batch| && batch[i].channel != o.wake ==>
               && (batch[i].channel.fd in a <==> batch[i].channel.fd in b)
               && (batch[i].channel.fd in a ==> a[batch[i].channel.fd] == b[batch[i].channel.fd])
    ensures Cards(o, n, a, batch) == Cards(o, n, b, batch)
  {
    if batch != [] {
      CardsSame(o, n, a, b, batch[..|batch| - 1]);
    }
  }

  // ---------- The steps ----------

  /** What a turn of the service is in OwnershipSpec. Handing over is part of its accept step. */
  function Moves(o: Owner, n: Naming, s: Service, turn: Turn): seq<Own.Event> {
    match turn
    case Wait(reports) => [Own.Poll(n.home, Cards(o, n, s.connections, reports))]
    case Act(Run) =>
      if s.loop.pc.Running? && s.loop.pc.next < |s.loop.functors| && s.loop.functors[s.loop.pc.next].NewEvent?
      then [Own.Put(n.home), Own.Enable(n.home)] else []
    case Act(_) => []
    case Handle(answers) =>
      if s.batch == [] || s.batch[0].channel == o.wake || !Settles(s.batch[0], answers) then []
      else if s.batch[0].revents & R.EPOLLIN != 0 && R.Outcome(answers) == R.PeerClosed
      then [Own.Unwatch(n.home), Own.Erase(n.home)]
      else [Own.Serve(n.home)]
  }

  ghost predicate Holds(m: Own.Server, o: Owner, n: Naming, s: Service) {
    n.home < |m.loops| && m.loops[n.home] == LoopOf(o, n, s)
  }

  lemma OneMove(m: Own.Server, e: Own.Event)
    ensures Own.Exec(m, [e]) == Own.Step(m, e)
  {
    assert [e][..0] == [];
  }

  lemma TwoMoves(m: Own.Server, a: Own.Event, b: Own.Event)
    ensures Own.Exec(m, [a, b]) == Own.Step(Own.Step(m, a), b)
  {
    assert [a, b][..1] == [a];
    OneMove(m, a);
  }

  lemma RunFollows(m: Own.Server, o: Owner, n: Naming, s: Service)
    requires Holds(m, o, n, s) && Sane(o, s) && Possible(o, s, Act(W.Run))
    ensures Holds(Own.Exec(m, Moves(o, n, s, Act(W.Run))), o, n, Next(o, s, Act(W.Run)))
    ensures Own.Exec(m, Moves(o, n, s, Act(W.Run))).clash == m.clash
  {
    hide W.Step, W.Enabled, Waiting, Queue, Table, Next, Possible, Own.Exec, Own.Step, Own.PutStep, Own.EnableStep, Cards, Entries, Apart, Names;
    RunFacts(o, s);
    assert s.batch == [];
    assert Cards(o, n, s.connections, []) == [] by { NoCards(o, n, s.connections); }
    var t, task := Next(o, s, Act(W.Run)), s.loop.functors[s.loop.pc.next];
    HandedFront(n, task, Waiting(t.loop));
    if task.NewEvent? {
      NoCards(o, n, t.connections);
      TwoMoves(m, Own.Put(n.home), Own.Enable(n.home));
      PutEnable(m, n.home);
      Published(n, m.loops[n.home], s.connections, task.conn);
    } else {
      NoMoves(m);
    }
  }

  /** Put, then enable, of a connection whose number is in neither map. */
  lemma Published(n: Naming, lp: Own.Loop, connections: map<int, TCPConnection>, conn: TCPConnection)
    requires lp.connections == lp.watched == Names(n, connections) && conn.fd !in connections
    ensures conn.fd !in lp.connections && conn.fd !in lp.watched
    ensures var c, after := Name(n, conn), Names(n, Own.Insert(connections, conn.fd, conn));
            Own.EnableStep(Own.PutStep(lp, c), c) == lp.(connections := after, watched := after, doing := Own.Idle)
  {
    assert Names(n, connections[conn.fd := conn]) == Names(n, connections)[conn.fd := Name(n, conn)];
  }

  lemma NoMoves(m: Own.Server)
    ensures Own.Exec(m, []) == m
  {
  }

  lemma PutEnable(m: Own.Server, at: nat)
    requires at < |m.loops| && m.loops[at].doing.Idle? && m.loops[at].active == [] && m.loops[at].queue != []
    ensures var lp := m.loops[at];
            var c := lp.queue[0];
            var t := Own.Step(Own.Step(m, Own.Put(at)), Own.Enable(at));
            && t.loops == m.loops[at := Own.EnableStep(Own.PutStep(lp, c), c).(queue := lp.queue[1..])]
            && t.clash == (m.clash || c.fd in lp.connections || c.fd in lp.watched)
  {
  }

  lemma {:induction false} WaitFollows(m: Own.Server, o: Owner, n: Naming, s: Service, reports: seq<Report>)
    requires Holds(m, o, n, s) && Sane(o, s) && Possible(o, s, Wait(reports))
    ensures Holds(Own.Exec(m, Moves(o, n, s, Wait(reports))), o, n, Next(o, s, Wait(reports)))
    ensures Own.Exec(m, Moves(o, n, s, Wait(reports))).clash == m.clash
  {
    hide W.Step, W.Enabled, Waiting, Queue, Possible, Next, Reportable, Own.Exec, Own.Step, Own.CanReport, Cards, Names;
    WaitFacts(o, s, reports);
    var ready := Cards(o, n, s.connections, reports);
    assert Cards(o, n, s.connections, []) == [] by { NoCards(o, n, s.connections); }
    CardsReportable(o, n, s, reports);
    OneMove(m, Own.Poll(n.home, ready));
    PollMove(m, n.home, ready);
  }

  lemma NoCards(o: Owner, n: Naming, connections: map<int, TCPConnection>)
    ensures Cards(o, n, connections, []) == []
  {
  }

  lemma PollMove(m: Own.Server, at: nat, ready: seq<Own.Conn>)
    requires at < |m.loops| && m.loops[at].doing.Idle? && m.loops[at].active == [] && Own.CanReport(m.loops[at], ready)
    ensures Own.Step(m, Own.Poll(at, ready)) == m.(loops := m.loops[at := m.loops[at].(active := ready)])
  {
  }

  /** What epoll_wait reports here it can report there. */
  lemma {:induction false} CardsReportable(o: Owner, n: Naming, s: Service, reports: seq<Report>)
    requires Table(o, s) && Reportable(o, s, reports)
    ensures Own.CanReport(LoopOf(o, n, s), Cards(o, n, s.connections, reports))
    ensures forall c :: c in Cards(o, n, s.connections, reports) ==>
              exists i :: 0 <= i < |reports| && reports[i].channel != o.wake && reports[i].channel.fd == c.fd
    decreases |reports|
  {
    if reports != [] {
      var k := |reports| - 1;
      var before, r := reports[..k], reports[k];
      assert forall i :: 0 <= i < k ==> CanReport(o, s, reports[i]);
      assert CanReport(o, s, r);
      CardsReportable(o, n, s, before);
      var cs := Cards(o, n, s.connections, before);
      forall c | c in cs
        ensures exists i :: 0 <= i < |reports| && reports[i].channel != o.wake && reports[i].channel.fd == c.fd
        ensures r.channel != o.wake ==> c.fd != r.channel.fd
      {
        var i :| 0 <= i < |before| && before[i].channel != o.wake && before[i].channel.fd == c.fd;
        assert reports[i] == before[i] && CanReport(o, s, reports[i]);
      }
    }
  }

  lemma UnwatchErase(m: Own.Server, at: nat)
    requires at < |m.loops| && m.loops[at].doing.Idle? && m.loops[at].active != []
    ensures var lp := m.loops[at];
            var c := lp.active[0];
            var t := Own.Step(Own.Step(m, Own.Unwatch(at)), Own.Erase(at));
            t.loops == m.loops[at := Own.EraseStep(Own.UnwatchStep(lp, c), c)] && t.clash == m.clash
  {
  }

  lemma ServeMove(m: Own.Server, at: nat)
    requires at < |m.loops| && m.loops[at].doing.Idle? && m.loops[at].active != []
    ensures Own.Step(m, Own.Serve(at)) == m.(loops := m.loops[at := m.loops[at].(active := m.loops[at].active[1..])])
  {
  }

  lemma Dropped(n: Naming, lp: Own.Loop, connections: map<int, TCPConnection>, fd: int)
    requires lp.connections == lp.watched == Names(n, connections) && fd in connections && lp.active != []
    requires lp.active[0] == Name(n, connections[fd]) && connections[fd].fd == fd
    ensures var c, after := lp.active[0], Names(n, connections - {fd});
            Own.EraseStep(Own.UnwatchStep(lp, c), c) ==
              lp.(connections := after, watched := after, doing := Own.Idle, active := lp.active[1..])
  {
    assert Names(n, connections - {fd}) == Names(n, connections) - {fd};
  }

  lemma HandleFollows(m: Own.Server, o: Owner, n: Naming, s: Service, answers: seq<R.Received>)
    requires Holds(m, o, n, s) && Sane(o, s) && Possible(o, s, Handle(answers))
    ensures Holds(Own.Exec(m, Moves(o, n, s, Handle(answers))), o, n, Next(o, s, Handle(answers)))
    ensures Own.Exec(m, Moves(o, n, s, Handle(answers))).clash == m.clash
  {
    hide W.Step, W.Enabled, Waiting, Queue, Next, Possible, Own.Exec, Own.Step, Own.EraseStep, Own.UnwatchStep,
         Seen, Channels, Cards, Names, Apart, Entries, InStep, Rest;
    HandleFacts(o, s, answers);
    var t, r, at := Next(o, s, Handle(answers)), s.batch[0], n.home;
    NoMoves(m);
    if r.channel != o.wake && Settles(r, answers) {
      HeadEntry(o, s);
      CardsFront(o, n, s.connections, s.batch);
      RestIsSame(o, n, s, t.connections);
      if r.revents & R.EPOLLIN != 0 && R.Outcome(answers) == R.PeerClosed {
        TwoMoves(m, Own.Unwatch(at), Own.Erase(at));
        UnwatchErase(m, at);
        Dropped(n, m.loops[at], s.connections, r.channel.fd);
      } else {
        OneMove(m, Own.Serve(at));
        ServeMove(m, at);
      }
    }
  }

  lemma HeadEntry(o: Owner, s: Service)
    requires Entries(o, s) && s.batch != [] && s.batch[0].channel != o.wake
    ensures s.batch[0].channel.fd in s.connections
  {
    assert Entry(o, s.connections, s.armed, s.batch[0]);
  }

  lemma RestIsSame(o: Owner, n: Naming, s: Service, connections: map<int, TCPConnection>)
    requires Apart(s.batch) && Entries(o, s) && s.batch != [] && s.batch[0].channel != o.wake
    requires connections == s.connections || connections == s.connections - {s.batch[0].channel.fd}
    ensures Cards(o, n, connections, Rest(s.batch)) == Cards(o, n, s.connections, Rest(s.batch))
  {
    forall i | 0 <= i < |Rest(s.batch)| && Rest(s.batch)[i].channel != o.wake
      ensures Rest(s.batch)[i].channel.fd != s.batch[0].channel.fd
    {
      OthersInBatch(o, s, i + 1);
    }
    CardsSame(o, n, connections, s.connections, Rest(s.batch));
  }

  lemma QuietFollows(m: Own.Server, o: Owner, n: Naming, s: Service, e: W.Event<Task>)
    requires Holds(m, o, n, s) && Sane(o, s) && Possible(o, s, Act(e)) && !e.Run?
    requires Queues(e) ==> e.task.Other?
    ensures Moves(o, n, s, Act(e)) == [] && Holds(m, o, n, Next(o, s, Act(e)))
  {
    hide W.Step, W.Enabled, Waiting, Queue, Table, Next, Possible, Handed, Cards, Apart, Entries, InStep, Rest;
    if e.Rearm? {
      RearmFacts(o, s);
      CardsFront(o, n, s.connections, s.batch);
    } else {
      QuietFacts(o, s, e);
      if Queues(e) {
        HandedBack(n, Waiting(s.loop), e.task);
      } else {
        assert Waiting(s.loop) + [] == Waiting(s.loop);
      }
    }
  }

  /**
    Every turn of a worker loop is a series of steps of OwnershipSpec on the loop of that
    number, in the order of the code: put then enable, remove then erase.
   */
  lemma {:induction false} FollowsOwnership(m: Own.Server, o: Owner, n: Naming, s: Service, turn: Turn)
    requires Holds(m, o, n, s) && Sane(o, s) && Possible(o, s, turn)
    requires turn.Act? && Queues(turn.event) ==> turn.event.task.Other?
    ensures Holds(Own.Exec(m, Moves(o, n, s, turn)), o, n, Next(o, s, turn))
    ensures Own.Exec(m, Moves(o, n, s, turn)).clash == m.clash
  {
    hide Holds, Sane, Possible, Next;
    match turn
    case Wait(reports) => WaitFollows(m, o, n, s, reports);
    case Handle(answers) => HandleFollows(m, o, n, s, answers);
    case Act(e) =>
      if e.Run? {
        RunFollows(m, o, n, s);
      } else {
        QuietFollows(m, o, n, s, e);
        NoMoves(m);
      }
  }

  /** Handing a connection over is what the accept step does to the chosen loop. */
  lemma {:induction false} HandOverFollows(m: Own.Server, o: Owner, n: Naming, s: Service, e: W.Event<Task>)
    requires Holds(m, o, n, s) && Possible(o, s, Act(e)) && Queues(e) && e.task.NewEvent?
    requires !m.inline && m.next == n.home && Own.Enabled(m, Own.Accept(e.task.conn.fd, true))
    requires 0 < e.task.conn.fd < Own.MAXFDS && n.id(e.task.conn) == |m.handed|
    ensures Holds(Own.Step(m, Own.Accept(e.task.conn.fd, true)), o, n, Next(o, s, Act(e)))
  {
    WaitingNext(s.loop, e);
    hide W.Step, W.Enabled, Waiting;
    HandedBack(n, Waiting(s.loop), e.task);
  }

  lemma {:induction false} HandedHas(n: Naming, tasks: seq<Task>, i: nat)
    requires i < |tasks| && tasks[i].NewEvent?
    ensures Name(n, tasks[i].conn) in Handed(n, tasks)
  {
    if i < |tasks| - 1 {
      HandedHas(n, tasks[..|tasks| - 1], i);
    }
  }

  /** What a loop has queued or published is open. */
  lemma HeldIsOpen(m: Own.Server, owner: Own.Owners, at: nat)
    requires Own.Inv(m, owner) && at < |m.loops|
    ensures forall c :: c in m.loops[at].queue ==> c.fd in m.open
    ensures forall fd :: fd in m.loops[at].connections ==> fd in m.open
  {
    var lp := m.loops[at];
    assert Own.LoopOwns(lp, at, owner);
    forall c | c in lp.queue
      ensures c.fd in m.open
    {
      assert Own.At(owner, c.fd, Own.Queued(c));
    }
    forall fd | fd in lp.connections
      ensures fd in m.open
    {
      assert Own.Holds(lp.connections, lp.connections[fd]);
      assert Own.At(owner, fd, Own.Connected(lp.connections[fd]));
    }
  }

  /** A number that accept(2) returns is new to the loop that it is handed to. */
  lemma AcceptIsNew(m: Own.Server, owner: Own.Owners, o: Owner, n: Naming, s: Service, task: Task)
    requires Own.Inv(m, owner) && Holds(m, o, n, s)
    requires task.NewEvent? && task.conn.fd !in m.open && task.conn.fd != WakeFd(o) && task !in s.loop.queued
    ensures New(o, s, task)
  {
    hide Own.Inv, Own.Distinct, Waiting, Cards;
    HeldIsOpen(m, owner, n.home);
    assert m.loops[n.home].connections.Keys == s.connections.Keys;
    forall i | 0 <= i < |Waiting(s.loop)| && Waiting(s.loop)[i].NewEvent?
      ensures Waiting(s.loop)[i].conn.fd != task.conn.fd
    {
      HandedHas(n, Waiting(s.loop), i);
    }
  }
}

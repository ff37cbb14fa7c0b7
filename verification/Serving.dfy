/** Whole runs of a worker loop on its objects, connections included. */
module Serving {
  import R = RegistrationSpec
  import W = EventLoopSpec
  import S = ServiceSpec
  import opened Reactor

  // ---------- What the objects show ----------

  /** The connections that the run may hand to the loop, each with a channel of its own. */
  predicate Known(o: S.Owner, universe: set<TCPConnection>) {
    && (forall c :: c in universe ==> c.Wired() && c.loop == o.loop && c.fd != S.WakeFd(o))
    && (forall c, d :: c in universe && d in universe && c.channel == d.channel ==> c == d)
  }

  /** The callbacks of their channels lead back to them. */
  ghost predicate Answerable(universe: set<TCPConnection>)
    reads (set c | c in universe :: c.channel)`target, (set c | c in universe :: c.channel)`installed
  {
    forall c :: c in universe ==> c.channel.target == c && c.channel.installed == R.CONNECTION_CALLBACKS
  }

  /** A connection whose task has not run is not registered. */
  ghost predicate Pristine(universe: set<TCPConnection>, executed: seq<Task>)
    reads (set c | c in universe :: c.channel)`status, (set c | c in universe :: c.channel)`events
  {
    forall c :: c in universe && NewEvent(c) !in executed ==> c.channel.status == R.NEW && c.channel.events == R.NONE_EVENT
  }

  ghost predicate Registered(universe: set<TCPConnection>, connections: map<int, TCPConnection>)
    reads (set c | c in universe :: c.channel)`status, (set c | c in universe :: c.channel)`events
  {
    forall fd :: fd in connections ==>
      connections[fd] in universe && connections[fd].channel.status == R.ADD && connections[fd].channel.events == R.READ_EVENT
  }

  /** The three together, for connections published and tasks executed so far. */
  ghost predicate InOrder(universe: set<TCPConnection>, connections: map<int, TCPConnection>, executed: seq<Task>)
    reads (set c | c in universe :: c.channel)`status, (set c | c in universe :: c.channel)`events, (set c | c in universe :: c.channel)`target, (set c | c in universe :: c.channel)`installed
  {
    Registered(universe, connections) && Pristine(universe, executed) && Answerable(universe)
  }

  /** The kernel watches the published connections and the wake channel, and has refused nothing. */
  ghost predicate Watches(k: R.Kernel, connections: map<int, TCPConnection>, armed: set<int>, wakeFd: int) {
    && k.faults == 0 && wakeFd in k.interest && wakeFd !in connections
    && (forall fd :: fd in k.interest <==> fd in connections || fd == wakeFd)
    && (forall fd :: fd in connections ==> k.interest[fd] == R.Registration(R.READ_EVENT, fd in armed))
  }

  predicate AllKnown(universe: set<TCPConnection>, tasks: seq<Task>) {
    forall i :: 0 <= i < |tasks| && tasks[i].NewEvent? ==> tasks[i].conn in universe
  }

  ghost predicate Reported(batch: seq<Report>)
    reads (set r | r in batch :: r.channel)`revents
  {
    forall i :: 0 <= i < |batch| ==> batch[i].channel.revents == batch[i].revents
  }

  ghost predicate Mirrors(o: S.Owner, s: S.Service, universe: set<TCPConnection>)
    reads o.loop, o.loop.poll, o.wake, o.loop.wakeUpChannel
    reads set c | c in universe :: c.channel
    reads set r | r in s.batch :: r.channel
  {
    && o.loop.Valid() && o.loop.wakeUpChannel == o.wake && o.loop.spec == s.loop
    && o.loop.connections == s.connections && o.loop.poll.slots == s.slots && o.loop.active == Channels(s.batch)
    && o.loop.reading == s.reading
    && Reported(s.batch)
    && Watches(o.loop.poll.kernel, s.connections, s.armed, S.WakeFd(o))
    && InOrder(universe, s.connections, s.loop.executed)
    && AllKnown(universe, s.loop.queued)
  }

  // ---------- The kernel's side of each turn ----------

  lemma WatchesKeys(k: R.Kernel, connections: map<int, TCPConnection>, armed: set<int>, wakeFd: int)
    requires Watches(k, connections, armed, wakeFd)
    ensures k.interest.Keys == connections.Keys + {wakeFd}
  {
    forall fd
      ensures fd in k.interest.Keys <==> fd in connections.Keys + {wakeFd}
    {
      assert fd in k.interest <==> fd in connections || fd == wakeFd;
    }
  }

  lemma WatchesReport(k: R.Kernel, connections: map<int, TCPConnection>, armed: set<int>, wakeFd: int, fds: set<int>)
    requires Watches(k, connections, armed, wakeFd)
    ensures Watches(R.Report(k, fds), connections, armed - fds, wakeFd)
  {
  }

  lemma WatchesRead(k: R.Kernel, connections: map<int, TCPConnection>, armed: set<int>, wakeFd: int, fd: int, outcome: R.Received)
    requires Watches(k, connections, armed, wakeFd) && fd in connections
    ensures var p := R.AfterRead(R.Pair(R.Channel(R.READ_EVENT, R.ADD), k), fd, outcome);
            match outcome
            case Data => p.channel == R.Channel(R.READ_EVENT, R.ADD) && Watches(p.kernel, connections, armed + {fd}, wakeFd)
            case PeerClosed => Watches(p.kernel, connections - {fd}, armed - {fd}, wakeFd)
            case Error => p.kernel == k && p.channel == R.Channel(R.READ_EVENT, R.ADD)
  {
  }

  lemma WatchesNew(k: R.Kernel, connections: map<int, TCPConnection>, armed: set<int>, wakeFd: int, conn: TCPConnection)
    requires Watches(k, connections, armed, wakeFd) && conn.fd !in connections && conn.fd != wakeFd
    ensures var p := R.Apply(R.Pair(R.Channel(R.NONE_EVENT, R.NEW), k), conn.fd, R.EnableRead);
            p.channel == R.Channel(R.READ_EVENT, R.ADD) &&
            Watches(p.kernel, connections[conn.fd := conn], armed + {conn.fd}, wakeFd)
  {
  }

  lemma WatchesRearm(k: R.Kernel, connections: map<int, TCPConnection>, armed: set<int>, wakeFd: int, c: R.Channel)
    requires Watches(k, connections, armed, wakeFd) && c.status == R.ADD
    ensures Watches(R.Apply(R.Pair(c, k), wakeFd, R.EnableRead).kernel, connections, armed, wakeFd)
  {
  }

  // ---------- One turn ----------

  /** Turns that touch neither the kernel nor a connection. */
  method TakeQuiet(o: S.Owner, ghost s: S.Service, ghost universe: set<TCPConnection>, e: W.Event<Task>)
    requires Mirrors(o, s, universe) && S.Possible(o, s, S.Act(e)) && !e.Rearm? && !e.Run? && !S.Queues(e)
    modifies o.loop
    ensures Mirrors(o, S.Next(o, s, S.Act(e)), universe)
  {
    S.QuietFacts(o, s, e);
    hide W.Step, W.Enabled, Watches, InOrder, Reported, AllKnown, EventLoop.Valid, Channels, S.Next, S.Possible;
    QuietStep(o.loop, e);
  }

  method QuietStep(loop: EventLoop, e: W.Event<Task>)
    requires loop.Valid() && W.Enabled(loop.spec, e) && !S.Queues(e)
    requires !e.Rearm? && !e.Run? && !e.Poll? && !e.Handle? && !e.Spin?
    modifies loop`spec, loop`counter, loop`handling, loop`pending, loop`functors, loop`next
    ensures loop.Valid() && loop.spec == W.Step(old(loop.spec), e)
  {
    hide W.Step, W.Enabled, EventLoop.Valid;
    match e
    case Start => loop.Start();
    case Write => loop.WakeUp(false);
    case OwnWrite => loop.WakeUp(true);
    case Finish => loop.Finish();
    case Swap => loop.Swap();
    case End => loop.End();
  }

  method TakeQueue(o: S.Owner, ghost s: S.Service, ghost universe: set<TCPConnection>, e: W.Event<Task>)
    requires Mirrors(o, s, universe) && Known(o, universe) && S.Possible(o, s, S.Act(e)) && S.Queues(e)
    requires AllKnown(universe, [e.task])
    modifies o.loop
    ensures Mirrors(o, S.Next(o, s, S.Act(e)), universe)
  {
    S.QuietFacts(o, s, e);
    assert o.loop.Runnable([e.task][0]);
    hide W.Step, W.Enabled, Watches, InOrder, Reported, EventLoop.Valid, Channels, S.Next, S.Possible, Known, S.New;
    o.loop.Queue(e.task, e.OwnPush?);
  }

  lemma MayReport(o: S.Owner, s: S.Service, universe: set<TCPConnection>, reports: seq<Report>)
    requires Mirrors(o, s, universe) && Known(o, universe) && S.Reportable(o, s, reports)
    ensures o.loop.Reportable(reports)
  {
    hide W.Step, W.Enabled, Pristine, Answerable, Reported;
    forall r | r in reports
      ensures o.loop.Attached(r.channel) && r.channel.fd in o.loop.poll.kernel.interest
      ensures r.channel == o.wake ==> r.revents == R.EPOLLIN
    {
      var i :| 0 <= i < |reports| && reports[i] == r;
      assert S.CanReport(o, s, reports[i]);
    }
    forall i, j | 0 <= i < j < |reports|
      ensures Channels(reports)[i] != Channels(reports)[j]
    {
      assert reports[i].channel != reports[j].channel;
    }
  }

  method TakeWait(o: S.Owner, ghost s: S.Service, ghost universe: set<TCPConnection>, reports: seq<Report>)
    requires Mirrors(o, s, universe) && Known(o, universe) && S.Possible(o, s, S.Wait(reports))
    modifies o.loop, o.loop.poll, (set r | r in reports :: r.channel)`revents
    ensures Mirrors(o, S.Next(o, s, S.Wait(reports)), universe)
  {
    hide W.Step, W.Enabled, Watches, R.Report, S.Reportable, Known, Seen, EventLoop.Reportable, S.Waiting;
    MayReport(o, s, universe, reports);
    WatchesReport(o.loop.poll.kernel, s.connections, s.armed, S.WakeFd(o), Descriptors(Channels(reports)));
    S.WaitingNext(s.loop, W.Poll(Seen(Channels(reports), o.wake)));
    o.loop.PollReturns(reports);
  }

  method TakeWake(o: S.Owner, ghost s: S.Service, ghost universe: set<TCPConnection>, answers: seq<R.Received>)
    requires Mirrors(o, s, universe) && S.Batch(o, s) && S.Possible(o, s, S.Handle(answers)) && s.batch[0].channel == o.wake
    modifies o.loop
    ensures Mirrors(o, S.Next(o, s, S.Handle(answers)), universe)
  {
    S.HandleFacts(o, s, answers);
    S.NextLoop(o, s, S.Handle(answers));
    assert S.EventOf(o, s, S.Handle(answers)) == W.Handle;
    hide W.Step, W.Enabled, Watches, InOrder, Reported, S.Next, S.Waiting, S.InStep, S.Apart, S.Entries;
    o.loop.HandleWake();
  }

  /** The channel at the head of the batch is that of a published connection. */
  lemma HeadIsBound(o: S.Owner, s: S.Service, universe: set<TCPConnection>)
    requires Mirrors(o, s, universe) && Known(o, universe) && S.Batch(o, s) && s.batch != [] && s.batch[0].channel != o.wake
    ensures var c := s.batch[0].channel;
            && o.loop.active != [] && o.loop.active[0] == c && o.loop.Bound(c) && c.fd in s.connections
            && s.connections[c.fd] == c.target && c.target in universe && c.target.channel == c && c.revents == s.batch[0].revents
            && c.View() == R.Pair(R.Channel(R.READ_EVENT, R.ADD), o.loop.poll.kernel)
  {
    assert S.Entry(o, s.connections, s.armed, s.batch[0]);
  }

  /** What the handler offers, and to whom. */
  lemma HeadAnswers(o: S.Owner, s: S.Service, answers: seq<R.Received>, c: TCPConnection)
    requires s.batch != [] && s.batch[0].channel != o.wake && s.batch[0].channel.fd in s.connections
    ensures var r := s.batch[0];
            var mine := s.connections[r.channel.fd] == c;
            && S.Offers(o, s, S.Handle(answers), c) ==
                 (if mine && !s.reading && r.revents & R.EPOLLERR != 0 && (r.revents & R.EPOLLHUP == 0 || r.revents & R.EPOLLIN != 0)
                  then 1 else 0) +
                 (if mine && r.revents & R.EPOLLIN != 0 && R.Outcome(answers) == R.Data then 1 else 0)
            && (S.Closes(o, s, S.Handle(answers), c) <==>
                  mine && r.revents & R.EPOLLIN != 0 && R.Outcome(answers) == R.PeerClosed)
  {
  }

  /** What a handler starts from, and what the turn of the service comes to. */
  lemma ReadReady(o: S.Owner, s: S.Service, universe: set<TCPConnection>, answers: seq<R.Received>)
    requires Mirrors(o, s, universe) && Known(o, universe) && S.Batch(o, s)
    requires S.Possible(o, s, S.Handle(answers)) && s.batch[0].channel != o.wake
    ensures var c := s.batch[0].channel;
            && o.loop.active != [] && o.loop.active[0] == c && o.loop.Bound(c) && c.fd in s.connections
            && s.connections[c.fd] == c.target && c.target in universe && c.target.channel == c && c.revents == s.batch[0].revents
            && c.View() == R.Pair(R.Channel(R.READ_EVENT, R.ADD), o.loop.poll.kernel) && W.Enabled(o.loop.spec, W.Handle)
    ensures var t, c, outcome := S.Next(o, s, S.Handle(answers)), s.batch[0].channel, R.Outcome(answers);
            var input := c.revents & R.EPOLLIN != 0;
            var done := !input || outcome != R.Error;
            && t.loop == W.Step(s.loop, if done then W.Handle else W.Spin) && t.reading == !done && t.slots == s.slots
            && t.connections == (if input && outcome == R.PeerClosed then s.connections - {c.fd} else s.connections)
            && Channels(t.batch) == (if done then o.loop.active[1..] else o.loop.active) && Reported(t.batch)
            && t.loop.executed == s.loop.executed && t.loop.queued == s.loop.queued
            && Watches(if input then R.AfterRead(c.View(), c.fd, outcome).kernel else o.loop.poll.kernel,
                       t.connections, t.armed, S.WakeFd(o))
            && (input && outcome != R.PeerClosed ==>
                  R.AfterRead(c.View(), c.fd, outcome).channel == R.Channel(R.READ_EVENT, R.ADD))
  {
    hide W.Step, W.Enabled, W.Unrun, Watches, InOrder, S.Next, S.Possible, S.Waiting, S.InStep, S.Apart, S.Entries,
         R.AfterRead, EventLoop.Bound, EventLoop.Valid, Channels;
    S.HandleFacts(o, s, answers);
    S.NextLoop(o, s, S.Handle(answers));
    S.ChannelsRest(s.batch);
    HeadIsBound(o, s, universe);
    WatchesRead(o.loop.poll.kernel, s.connections, s.armed, S.WakeFd(o), s.batch[0].channel.fd, R.Outcome(answers));
  }

  method TakeRead(o: S.Owner, ghost s: S.Service, ghost universe: set<TCPConnection>, answers: seq<R.Received>)
    requires Mirrors(o, s, universe) && Known(o, universe) && S.Batch(o, s) && S.Table(o, s)
    requires S.Possible(o, s, S.Handle(answers)) && s.batch[0].channel != o.wake
    requires s.batch[0].channel.fd in s.connections && s.connections[s.batch[0].channel.fd].channel == s.batch[0].channel
    modifies o.loop, o.loop.poll, s.connections[s.batch[0].channel.fd]
    modifies s.batch[0].channel`status, s.batch[0].channel`events
    ensures Mirrors(o, S.Next(o, s, S.Handle(answers)), universe)
    ensures var c := s.connections[s.batch[0].channel.fd];
            && c.offered == old(c.offered) + Copies(S.Offers(o, s, S.Handle(answers), c))
            && c.state == if S.Closes(o, s, S.Handle(answers), c) then DISCONNECTED else old(c.state)
  {
    hide W.Step, W.Enabled, W.Unrun, Copies, S.Offers, S.Closes, Watches, Answerable, Reported, S.Next, S.Possible, S.Waiting, S.Batch,
         R.AfterRead, EventLoop.Bound, EventLoop.Valid, Channels;
    ReadReady(o, s, universe, answers);
    HeadAnswers(o, s, answers, s.connections[s.batch[0].channel.fd]);
    ghost var t := S.Next(o, s, S.Handle(answers));
    var item := o.loop.active[0];
    var done := o.loop.HandleConnection(item, answers);
    assert Registered(universe, t.connections);
    assert Pristine(universe, t.loop.executed);
    hide Registered, Pristine, Known;
  }

  /** What re-arming the wake channel starts from, and what it makes of the kernel. */
  lemma RearmReady(o: S.Owner, s: S.Service, universe: set<TCPConnection>)
    requires Mirrors(o, s, universe) && Known(o, universe) && S.InStep(o, s.loop, s.batch) && S.Possible(o, s, S.Act(W.Rearm))
    ensures forall c :: c in universe ==> c.channel != o.wake
    ensures W.Enabled(s.loop, W.Rearm) && o.loop.active != [] && Reported(S.Rest(s.batch))
    ensures var t, k := S.Next(o, s, S.Act(W.Rearm)), R.Apply(o.wake.View(), o.loop.wakeUpFd, R.EnableRead).kernel;
            && t == s.(loop := W.Step(s.loop, W.Rearm), batch := S.Rest(s.batch))
            && t.loop.executed == s.loop.executed && t.loop.queued == s.loop.queued
            && Channels(S.Rest(s.batch)) == o.loop.active[1..]
            && o.wake.loop == o.loop && Watches(k, s.connections, s.armed, S.WakeFd(o))
  {
    WakeIsOther(o, universe);
    hide W.Step, W.Enabled, W.Unrun, Watches, InOrder, Reported, Known, AllKnown, S.Waiting,
         S.Apart, S.Entries, S.InStep, S.Next, S.Possible, S.Rest, R.Apply, EventLoop.Valid, Channels;
    S.RearmFacts(o, s);
    S.ChannelsRest(s.batch);
    ReportedRest(s.batch);
    WatchesRearm(o.loop.poll.kernel, s.connections, s.armed, S.WakeFd(o), o.wake.View().channel);
  }

  method TakeRearm(o: S.Owner, ghost s: S.Service, ghost universe: set<TCPConnection>)
    requires Mirrors(o, s, universe) && Known(o, universe) && S.InStep(o, s.loop, s.batch) && S.Possible(o, s, S.Act(W.Rearm))
    modifies o.loop, o.loop.poll, o.wake`status, o.wake`events
    ensures Mirrors(o, S.Next(o, s, S.Act(W.Rearm)), universe)
  {
    hide W.Step, W.Enabled, Watches, InOrder, Reported, Known, AllKnown,
         S.InStep, S.Next, S.Possible, S.Rest, R.Apply, EventLoop.Valid, Channels;
    RearmReady(o, s, universe);
    o.loop.Rearm();
  }

  lemma ReportedRest(batch: seq<Report>)
    requires Reported(batch)
    ensures Reported(S.Rest(batch))
  {
  }

  lemma WakeIsOther(o: S.Owner, universe: set<TCPConnection>)
    requires Known(o, universe) && o.loop.Valid() && o.loop.wakeUpChannel == o.wake
    ensures forall c :: c in universe ==> c.channel != o.wake
    ensures o.wake.status == R.ADD && o.wake.fd == S.WakeFd(o) && o.wake.loop == o.loop
  {
  }

  /** The next task publishes `conn`, and nothing else about the connections changes. */
  method Publish(loop: EventLoop, ghost universe: set<TCPConnection>, ghost conn: TCPConnection, ghost executed: seq<Task>)
    requires loop.Valid() && W.Enabled(loop.spec, W.Run)
    requires loop.next < |loop.functors| && loop.functors[loop.next] == NewEvent(conn)
    requires conn in universe && conn.fd !in loop.connections && conn.Wired() && conn.loop == loop
    requires forall c, d :: c in universe && d in universe && c.channel == d.channel ==> c == d
    requires conn.channel.View() == R.Pair(R.Channel(R.NONE_EVENT, R.NEW), loop.poll.kernel)
    requires R.Apply(conn.channel.View(), conn.fd, R.EnableRead).channel == R.Channel(R.READ_EVENT, R.ADD)
    requires Registered(universe, loop.connections) && Pristine(universe, executed)
    requires forall fd :: fd in loop.connections ==> loop.connections[fd] != conn
    modifies loop`next, loop`spec, loop`connections, loop.poll`kernel, conn.channel`status, conn.channel`events
    ensures loop.Valid() && loop.spec == W.Step(old(loop.spec), W.Run)
    ensures loop.connections == old(loop.connections)[conn.fd := conn]
    ensures loop.poll.kernel == R.Apply(R.Pair(R.Channel(R.NONE_EVENT, R.NEW), old(loop.poll.kernel)), conn.fd, R.EnableRead).kernel
    ensures Registered(universe, loop.connections) && Pristine(universe, executed + [NewEvent(conn)])
  {
    hide W.Step, W.Enabled, EventLoop.Valid, R.Apply;
    loop.RunNext();
  }

  method TakeNew(o: S.Owner, ghost s: S.Service, ghost universe: set<TCPConnection>)
    requires Mirrors(o, s, universe) && Known(o, universe) && S.Queue(o, s) && S.Table(o, s) && S.Possible(o, s, S.Act(W.Run))
    requires s.loop.pc.Running? && s.loop.pc.next < |s.loop.functors| && s.loop.functors[s.loop.pc.next].NewEvent?
    modifies o.loop, o.loop.poll
    modifies (set c | c in universe :: c.channel)`status, (set c | c in universe :: c.channel)`events
    ensures Mirrors(o, S.Next(o, s, S.Act(W.Run)), universe)
  {
    hide W.Step, W.Enabled, W.Unrun, Watches, Answerable, Reported, Registered, Pristine,
         S.Waiting, S.Queue, S.Next, S.Possible, R.Apply, EventLoop.Valid, Channels;
    ShowsNext(o.loop);
    S.RunFacts(o, s);
    ghost var conn := s.loop.functors[s.loop.pc.next].conn;
    TaskIsKnown(o, s, universe, NewEvent(conn));
    hide AllKnown;
    WatchesNew(o.loop.poll.kernel, s.connections, s.armed, S.WakeFd(o), conn);
    Publish(o.loop, universe, conn, s.loop.executed);
  }

  method TakeRun(o: S.Owner, ghost s: S.Service, ghost universe: set<TCPConnection>)
    requires Mirrors(o, s, universe) && Known(o, universe) && S.Queue(o, s) && S.Table(o, s) && S.Possible(o, s, S.Act(W.Run))
    modifies o.loop, o.loop.poll
    modifies (set c | c in universe :: c.channel)`status, (set c | c in universe :: c.channel)`events
    ensures Mirrors(o, S.Next(o, s, S.Act(W.Run)), universe)
  {
    ShowsNext(o.loop);
    S.RunFacts(o, s);
    hide W.Step, W.Enabled, W.Unrun, Watches, Answerable, Reported, Registered, Known, AllKnown,
         S.Waiting, S.Queue, S.Table, S.Next, S.Possible, EventLoop.Valid, Channels;
    if o.loop.functors[o.loop.next].NewEvent? {
      hide Mirrors, Pristine;
      TakeNew(o, s, universe);
    } else {
      ghost var executed := S.Next(o, s, S.Act(W.Run)).loop.executed;
      o.loop.RunNext();
      assert Pristine(universe, executed);
      hide Pristine;
    }
  }

  /** The connection to be published is known and has not been registered. */
  lemma TaskIsKnown(o: S.Owner, s: S.Service, universe: set<TCPConnection>, task: Task)
    requires Mirrors(o, s, universe) && Known(o, universe)
    requires task in s.loop.queued && task !in s.loop.executed && task.NewEvent?
    ensures task == NewEvent(task.conn) && task.conn in universe && task.conn.Wired() && task.conn.loop == o.loop
    ensures task.conn.channel.View() == R.Pair(R.Channel(R.NONE_EVENT, R.NEW), o.loop.poll.kernel)
  {
  }

  lemma ShowsNext(loop: EventLoop)
    requires loop.Valid()
    ensures loop.functors == loop.spec.functors && (loop.spec.pc.Running? ==> loop.next == loop.spec.pc.next)
  {
  }

  // ---------- Whole runs ----------

  method Take(o: S.Owner, ghost s: S.Service, ghost universe: set<TCPConnection>, turn: S.Turn)
    requires Mirrors(o, s, universe) && Known(o, universe) && S.Sane(o, s) && S.Possible(o, s, turn)
    requires turn.Act? && S.Queues(turn.event) ==> AllKnown(universe, [turn.event.task])
    modifies o.loop, o.loop.poll, o.wake, universe, set c | c in universe :: c.channel
    ensures Mirrors(o, S.Next(o, s, turn), universe)
    ensures forall c :: c in universe ==>
              && c.offered == old(c.offered) + Copies(S.Offers(o, s, turn, c))
              && c.state == if S.Closes(o, s, turn, c) then DISCONNECTED else old(c.state)
  {
    hide Copies, Mirrors, Known, S.Possible, S.Next, S.Queue, S.Table, S.Entries, S.InStep;
    match turn
    case Wait(reports) =>
      OwnReports(o, s, universe, reports);
      TakeWait(o, s, universe, reports);
    case Handle(answers) =>
      HeadIsShown(o, s, universe, answers);
      if o.loop.active[0] == o.wake {
        TakeWake(o, s, universe, answers);
      } else {
        HeadIsBound(o, s, universe);
        forall c | c in universe { HeadAnswers(o, s, answers, c); }
        TakeRead(o, s, universe, answers);
      }
    case Act(e) =>
      if e.Rearm? {
        TakeRearm(o, s, universe);
      } else if e.Run? {
        TakeRun(o, s, universe);
      } else if e.Push? || e.OwnPush? {
        TakeQueue(o, s, universe, e);
      } else {
        TakeQuiet(o, s, universe, e);
      }
  }

  lemma OwnReports(o: S.Owner, s: S.Service, universe: set<TCPConnection>, reports: seq<Report>)
    requires Mirrors(o, s, universe) && S.Possible(o, s, S.Wait(reports))
    ensures forall r :: r in reports ==> r.channel == o.wake || r.channel in set c | c in universe :: c.channel
  {
    forall r | r in reports
      ensures r.channel == o.wake || r.channel in set c | c in universe :: c.channel
    {
      var i :| 0 <= i < |reports| && reports[i] == r;
      assert S.CanReport(o, s, reports[i]);
    }
  }

  lemma HeadIsShown(o: S.Owner, s: S.Service, universe: set<TCPConnection>, answers: seq<R.Received>)
    requires Mirrors(o, s, universe) && S.Possible(o, s, S.Handle(answers))
    ensures s.batch != [] && o.loop.active != [] && o.loop.active[0] == s.batch[0].channel
  {
  }

  /** What the peers have been offered since `before`, and which of them are gone. */
  ghost predicate Answered(o: S.Owner, turns: seq<S.Turn>, universe: set<TCPConnection>,
                           before: map<TCPConnection, (seq<string>, ConnectionState)>)
    reads universe`offered, universe`state
  {
    forall c :: c in universe ==>
      && c in before && c.offered == before[c].0 + Copies(S.Offered(o, turns, c))
      && c.state == if S.Closed(o, turns, c) then DISCONNECTED else before[c].1
  }

  lemma Balance(o: S.Owner, turns: seq<S.Turn>, universe: set<TCPConnection>,
                before: map<TCPConnection, (seq<string>, ConnectionState)>)
    requires Answered(o, turns, universe, before)
    ensures forall c :: c in universe ==>
              && c in before && c.offered == before[c].0 + Copies(S.Offered(o, turns, c))
              && c.state == if S.Closed(o, turns, c) then DISCONNECTED else before[c].1
  {
  }

  /** One more turn of a run. */
  method TakeNext(o: S.Owner, turns: seq<S.Turn>, i: nat, ghost universe: set<TCPConnection>,
                  ghost before: map<TCPConnection, (seq<string>, ConnectionState)>)
    requires i < |turns| && S.Run(o, turns) && Known(o, universe)
    requires Mirrors(o, S.Exec(o, turns[..i]), universe) && Answered(o, turns[..i], universe, before)
    requires turns[i].Act? && S.Queues(turns[i].event) ==> AllKnown(universe, [turns[i].event.task])
    modifies o.loop, o.loop.poll, o.wake, universe, set c | c in universe :: c.channel
    ensures Mirrors(o, S.Exec(o, turns[..i + 1]), universe) && o.loop.wakeUpChannel == o.wake
    ensures Answered(o, turns[..i + 1], universe, before)
  {
    hide Mirrors, Known, S.Possible, S.Next, S.Sane, S.Exec, S.Run, S.Offered, S.Closed, S.Offers, S.Closes, Copies;
    S.RunPrefix(o, turns, i);
    S.RunIsSane(o, turns[..i]);
    S.ExecNext(o, turns, i);
    ghost var s := S.Exec(o, turns[..i]);
    Counts(o, turns, i, universe);
    Take(o, s, universe, turns[i]);
    KeepsWake(o, S.Exec(o, turns[..i + 1]), universe);
    forall c | c in universe
      ensures c.offered == before[c].0 + Copies(S.Offered(o, turns[..i + 1], c))
    {
      MoreCopies(S.Offered(o, turns[..i], c), S.Offers(o, s, turns[i], c));
    }
  }

  lemma Counts(o: S.Owner, turns: seq<S.Turn>, i: nat, universe: set<TCPConnection>)
    requires i < |turns|
    ensures forall c :: c in universe ==>
              var s := S.Exec(o, turns[..i]);
              && S.Offered(o, turns[..i + 1], c) == S.Offered(o, turns[..i], c) + S.Offers(o, s, turns[i], c)
              && (S.Closed(o, turns[..i + 1], c) <==> S.Closed(o, turns[..i], c) || S.Closes(o, s, turns[i], c))
  {
    hide S.Offered, S.Closed, S.Offers, S.Closes, S.Exec;
    forall c | c in universe
      ensures S.Offered(o, turns[..i + 1], c) == S.Offered(o, turns[..i], c) + S.Offers(o, S.Exec(o, turns[..i]), turns[i], c)
      ensures S.Closed(o, turns[..i + 1], c) <==> S.Closed(o, turns[..i], c) || S.Closes(o, S.Exec(o, turns[..i]), turns[i], c)
    {
      S.OfferedNext(o, turns, i, c);
      S.ClosedNext(o, turns, i, c);
    }
  }

  /**
    Any run of a worker loop on its objects, in which connections are handed over, published,
    reported, read and closed, and their numbers used again. At every moment the kernel
    watches exactly the published connections and the wake channel, and has refused no call.
    When the loop goes to sleep, its wake descriptor is armed; the eventfd will become
    readable if tasks are queued, unless nobody but the loop has ever queued one before the
    first round; and a published connection is disarmed exactly if a report of it came
    without EPOLLIN.
   */
  method Play(loop: EventLoop, turns: seq<S.Turn>, ghost universe: set<TCPConnection>)
    requires loop.Valid() && loop.spec == W.Init() && loop.connections == map[] && loop.active == [] && !loop.reading
    requires loop.poll.slots == EVENT_SUM
    requires loop.poll.kernel.interest.Keys == {loop.wakeUpFd} && loop.poll.kernel.faults == 0
    requires Known(S.Owner(loop, loop.wakeUpChannel), universe) && Answerable(universe) && Pristine(universe, [])
    requires forall i :: 0 <= i < |turns| && turns[i].Act? && S.Queues(turns[i].event) ==> AllKnown(universe, [turns[i].event.task])
    requires S.Run(S.Owner(loop, loop.wakeUpChannel), turns)
    modifies loop, loop.poll, loop.wakeUpChannel, universe, set c | c in universe :: c.channel
    ensures loop.wakeUpChannel != null
    ensures var o := S.Owner(loop, loop.wakeUpChannel);
            var s := S.Exec(o, turns);
            && Mirrors(o, s, universe) && loop.spec == W.Exec(W.Init(), S.Trace(o, turns))
    ensures loop.poll.kernel.interest.Keys == loop.connections.Keys + {loop.wakeUpFd} && loop.poll.kernel.faults == 0
    // each peer has been offered the answer once for each error and each read of data, and nothing else
    ensures var o := S.Owner(loop, loop.wakeUpChannel);
            forall c :: c in universe ==>
              && c.offered == old(c.offered) + Copies(S.Offered(o, turns, c))
              && c.state == if S.Closed(o, turns, c) then DISCONNECTED else old(c.state)
    ensures loop.spec.pc == W.Polling ==>
              && loop.poll.kernel.interest[loop.wakeUpFd].armed
              && (loop.pending != [] ==>
                   (loop.counter == 0 && loop.spec.writers == 0 <==>
                    loop.spec.rounds == 0 && forall k :: 0 <= k < |turns| ==> !(turns[k].Act? && turns[k].event.Push?)))
              && forall fd :: fd in loop.connections ==>
                   (!loop.poll.kernel.interest[fd].armed <==>
                    exists k: nat :: S.Ignored(S.Owner(loop, loop.wakeUpChannel), turns, k, fd))
  {
    hide Mirrors, Known, Answerable, Answered, Pristine, S.Possible, S.Next, S.Sane, S.Exec, S.Run, S.Trace, S.Ignored, S.Offered, S.Closed,
         Copies, W.Exec, EventLoop.Valid;
    HasWake(loop);
    var o := S.Owner(loop, loop.wakeUpChannel);
    ghost var before := map c | c in universe :: (c.offered, c.state);
    Begins(o, universe, before);
    assert turns[..0] == [];
    for i := 0 to |turns|
      invariant loop.wakeUpChannel == o.wake && Mirrors(o, S.Exec(o, turns[..i]), universe)
      invariant Answered(o, turns[..i], universe, before)
    {
      TakeNext(o, turns, i, universe, before);
    }
    assert turns[..|turns|] == turns;
    Concludes(o, turns, universe);
    Balance(o, turns, universe, before);
  }

  lemma HasWake(loop: EventLoop)
    requires loop.Valid()
    ensures loop.wakeUpChannel != null
  {
  }

  lemma Begins(o: S.Owner, universe: set<TCPConnection>, before: map<TCPConnection, (seq<string>, ConnectionState)>)
    requires o.loop.Valid() && o.loop.spec == W.Init() && o.loop.connections == map[] && o.loop.active == [] && !o.loop.reading
    requires o.loop.poll.slots == EVENT_SUM && o.loop.wakeUpChannel == o.wake
    requires o.loop.poll.kernel.interest.Keys == {o.loop.wakeUpFd} && o.loop.poll.kernel.faults == 0
    requires Answerable(universe) && Pristine(universe, [])
    requires forall c :: c in universe ==> c in before && before[c] == (c.offered, c.state)
    ensures Mirrors(o, S.Exec(o, []), universe) && Answered(o, [], universe, before)
  {
    assert forall fd :: fd in o.loop.poll.kernel.interest <==> fd in o.loop.poll.kernel.interest.Keys;
  }

  lemma KeepsWake(o: S.Owner, s: S.Service, universe: set<TCPConnection>)
    requires Mirrors(o, s, universe)
    ensures o.loop.wakeUpChannel == o.wake
  {
  }

  lemma {:induction false} Concludes(o: S.Owner, turns: seq<S.Turn>, universe: set<TCPConnection>)
    requires Mirrors(o, S.Exec(o, turns), universe) && S.Run(o, turns)
    ensures o.loop.spec == W.Exec(W.Init(), S.Trace(o, turns))
    ensures o.loop.poll.kernel.interest.Keys == o.loop.connections.Keys + {o.loop.wakeUpFd} && o.loop.poll.kernel.faults == 0
    ensures o.loop.spec.pc == W.Polling ==>
              && o.loop.poll.kernel.interest[o.loop.wakeUpFd].armed
              && (o.loop.pending != [] ==>
                   (o.loop.counter == 0 && o.loop.spec.writers == 0 <==>
                    o.loop.spec.rounds == 0 && forall k :: 0 <= k < |turns| ==> !(turns[k].Act? && turns[k].event.Push?)))
              && forall fd :: fd in o.loop.connections ==>
                   (!o.loop.poll.kernel.interest[fd].armed <==> exists k: nat :: S.Ignored(o, turns, k, fd))
  {
    hide W.Exec, S.Exec, S.Run, S.Ignored, Registered, Pristine, Answerable, AllKnown, Reported;
    WatchesKeys(o.loop.poll.kernel, S.Exec(o, turns).connections, S.Exec(o, turns).armed, S.WakeFd(o));
    S.FollowsProtocol(o, turns);
    W.NoLostWakeup(S.Trace(o, turns));
    forall k | 0 <= k < |turns| { S.PushAt(o, turns, k); }
    forall fd | fd in o.loop.connections && o.loop.spec.pc == W.Polling { S.DisarmedIffIgnored(o, turns, fd); }
  }
}

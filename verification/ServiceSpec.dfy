/**
  What one worker loop does with its connections: the wakeup protocol of EventLoopSpec,
  with the connections that its tasks publish, the reports that disarm them, and the
  handlers that arm them again or close them.
 */
module ServiceSpec {
  import R = RegistrationSpec
  import W = EventLoopSpec
  import Own = OwnershipSpec
  import opened Reactor

  datatype Service = Service(
    loop: Wakeups,
    connections: map<int, TCPConnection>,
    armed: set<int>,        // descriptors of connections that epoll_wait may report
    batch: seq<Report>,     // what is still to be handled
    reading: bool,          // in the read loop of the first of them, past its error callback
    slots: nat)             // the size of event_array_

  /** A thread's turn: an atomic step, the answer of epoll_wait, or a handler's next answers from read(2). */
  datatype Turn = Act(event: W.Event<Task>) | Wait(reports: seq<Report>) | Handle(answers: seq<R.Received>)

  /** The loop these connections belong to: its wake channel and eventfd. */
  datatype Owner = Owner(loop: EventLoop, wake: Channel)

  function WakeFd(o: Owner): int {
    o.loop.wakeUpFd
  }

  predicate Settles(r: Report, answers: seq<R.Received>) {
    r.revents & R.EPOLLIN == 0 || R.Outcome(answers) != R.Error
  }

  function EventOf(o: Owner, s: Service, turn: Turn): W.Event<Task> {
    match turn
    case Act(e) => e
    case Wait(reports) => W.Poll(Seen(Channels(reports), o.wake))
    case Handle(answers) =>
      if s.batch != [] && s.batch[0].channel != o.wake && !Settles(s.batch[0], answers) then W.Spin else W.Handle
  }

  /** Tasks queued and not yet run. */
  function Waiting(l: Wakeups): seq<Task> {
    W.Unrun(l) + l.pending
  }

  /** accept(2) returns numbers that are not open, for a connection object of its own. */
  predicate New(o: Owner, s: Service, task: Task) {
    task.NewEvent? ==>
      && task !in s.loop.queued && task.conn.fd !in s.connections && task.conn.fd != WakeFd(o)
      && forall i :: 0 <= i < |Waiting(s.loop)| && Waiting(s.loop)[i].NewEvent? ==> Waiting(s.loop)[i].conn.fd != task.conn.fd
  }

  /** epoll_wait reports armed descriptors, each once, with events that their masks ask for, and the eventfd as readable. */
  predicate Reportable(o: Owner, s: Service, reports: seq<Report>) {
    && |reports| <= s.slots && Apart(reports)
    && forall i :: 0 <= i < |reports| ==> CanReport(o, s, reports[i])
  }

  predicate CanReport(o: Owner, s: Service, r: Report) {
    && R.Delivered(R.READ_EVENT, r.revents)
    && if r.channel == o.wake then r.revents == R.EPOLLIN
       else r.channel.fd in s.armed && r.channel.fd in s.connections && s.connections[r.channel.fd].channel == r.channel
  }

  /** No channel is reported twice. */
  predicate Apart(batch: seq<Report>) {
    forall i, j :: 0 <= i < j < |batch| ==> batch[i].channel != batch[j].channel
  }

  predicate Possible(o: Owner, s: Service, turn: Turn) {
    && W.Enabled(s.loop, EventOf(o, s, turn))
    && match turn
       case Act(e) => !e.Poll? && !e.Handle? && !e.Spin? && (e.Push? || e.OwnPush? ==> New(o, s, e.task))
       case Wait(reports) => Reportable(o, s, reports)
       case Handle(_) => s.batch != []
  }

  function Rest(batch: seq<Report>): seq<Report> {
    if batch == [] then [] else batch[1..]
  }

  function WaitStep(s: Service, reports: seq<Report>): Service {
    s.(armed := s.armed - Descriptors(Channels(reports)), batch := reports,
       slots := if |reports| == s.slots then 2 * s.slots else s.slots)
  }

  function ReadStep(s: Service, r: Report, answers: seq<R.Received>): Service {
    var fd := r.channel.fd;
    var next := s.(batch := Rest(s.batch), reading := false);
    if r.revents & R.EPOLLIN == 0 then next   // consumed, and not armed again
    else match R.Outcome(answers)
      case Data => next.(armed := s.armed + {fd})
      case PeerClosed => next.(connections := s.connections - {fd}, armed := s.armed - {fd})
      case Error => s.(reading := true)
  }

  function RunStep(s: Service, task: Task): Service {
    match task
    case NewEvent(conn) =>
      s.(connections := Own.Insert(s.connections, conn.fd, conn), armed := s.armed + {conn.fd})
    case Other(_) => s
  }

  function Next(o: Owner, s: Service, turn: Turn): Service {
    var t := s.(loop := W.Step(s.loop, EventOf(o, s, turn)));
    match turn
    case Wait(reports) => WaitStep(t, reports)
    case Handle(answers) => if s.batch == [] || s.batch[0].channel == o.wake then t else ReadStep(t, s.batch[0], answers)
    case Act(Rearm) => t.(batch := Rest(s.batch))
    case Act(Run) =>
      if s.loop.pc.Running? && s.loop.pc.next < |s.loop.functors| then RunStep(t, s.loop.functors[s.loop.pc.next]) else t
    case Act(_) => t
  }

  function Begin(): Service {
    Service(W.Init(), map[], {}, [], false, EVENT_SUM)
  }

  function Exec(o: Owner, turns: seq<Turn>): Service {
    if turns == [] then Begin() else Next(o, Exec(o, turns[..|turns| - 1]), turns[|turns| - 1])
  }

  /** Each turn could happen when it did. */
  predicate Run(o: Owner, turns: seq<Turn>) {
    turns == [] ||
    (Run(o, turns[..|turns| - 1]) && Possible(o, Exec(o, turns[..|turns| - 1]), turns[|turns| - 1]))
  }

  // ---------- What every run keeps ----------

  ghost predicate Queue(o: Owner, s: Service) {
    var q := Waiting(s.loop);
    && (forall i :: 0 <= i < |q| ==> q[i] in s.loop.queued)
    && (forall task :: task in s.loop.executed ==> task in s.loop.queued)
    && (forall i :: 0 <= i < |q| && q[i].NewEvent? ==>
          q[i].conn.fd !in s.connections && q[i].conn.fd != WakeFd(o) && q[i] !in s.loop.executed)
    && (forall i, j :: 0 <= i < j < |q| && q[i].NewEvent? && q[j].NewEvent? ==> q[i].conn.fd != q[j].conn.fd)
  }

  ghost predicate Table(o: Owner, s: Service) {
    && s.armed <= s.connections.Keys
    && forall fd :: fd in s.connections ==>
         s.connections[fd].fd == fd && fd != WakeFd(o) && NewEvent(s.connections[fd]) in s.loop.executed
  }

  /** A report that is still to be handled has events its mask asks for; its connection is published, and disarmed. */
  predicate Entry(o: Owner, connections: map<int, TCPConnection>, armed: set<int>, r: Report) {
    && R.Delivered(R.READ_EVENT, r.revents)
    && if r.channel == o.wake then r.revents == R.EPOLLIN
       else r.channel.fd in connections && connections[r.channel.fd].channel == r.channel && r.channel.fd !in armed
  }

  ghost predicate Entries(o: Owner, s: Service) {
    forall i :: 0 <= i < |s.batch| ==> Entry(o, s.connections, s.armed, s.batch[i])
  }

  /** The protocol sees the same batch. */
  predicate InStep(o: Owner, l: Wakeups, batch: seq<Report>) {
    && (l.pc.Dispatching? || l.pc.Rearming? ==> l.pc.active == Seen(Channels(batch), o.wake))
    && (!l.pc.Dispatching? && !l.pc.Rearming? ==> batch == [])
    && (l.pc.Rearming? ==> batch != [] && batch[0].channel == o.wake)
  }

  /** A handler that is not done is the read callback of the connection at the head. */
  predicate Begun(o: Owner, s: Service) {
    s.reading ==> s.batch != [] && s.batch[0].channel != o.wake && s.batch[0].revents & R.EPOLLIN != 0
  }

  ghost predicate Batch(o: Owner, s: Service) {
    Apart(s.batch) && InStep(o, s.loop, s.batch) && Entries(o, s) && Begun(o, s)
  }

  ghost predicate Sane(o: Owner, s: Service) {
    Queue(o, s) && Table(o, s) && Batch(o, s)
  }

  predicate Queues(e: W.Event<Task>) {
    e.Push? || e.OwnPush?
  }

  lemma WaitingNext(l: Wakeups, e: W.Event<Task>)
    requires W.Enabled(l, e)
    ensures var t := W.Step(l, e);
            && (Queues(e) ==> Waiting(t) == Waiting(l) + [e.task] && t.queued == l.queued + [e.task])
            && (e.Run? ==> Waiting(l) == [l.functors[l.pc.next]] + Waiting(t) && t.executed == l.executed + [l.functors[l.pc.next]])
            && (!Queues(e) && !e.Run? ==> Waiting(t) == Waiting(l))
            && (!Queues(e) ==> t.queued == l.queued) && (!e.Run? ==> t.executed == l.executed)
  {
    var t := W.Step(l, e);
    if e.Run? {
      assert W.Unrun(l) == [l.functors[l.pc.next]] + W.Unrun(t);
    } else if e.Swap? {
      assert W.Unrun(l) == [] && W.Unrun(t) == l.pending && t.pending == [];
    } else if Queues(e) {
      assert W.Unrun(l) == W.Unrun(t) && t.pending == l.pending + [e.task];
    } else {
      assert W.Unrun(l) == W.Unrun(t) && t.pending == l.pending;
    }
  }

  /** Where the loop's thread is after a step, as far as the batch is concerned. */
  lemma ActiveNext(l: Wakeups, e: W.Event<Task>)
    requires W.Enabled(l, e)
    ensures var t := W.Step(l, e);
            && (e.Poll? ==> t.pc == W.Dispatching(e.ready))
            && (e.Handle? && l.pc.active[0] == W.WakeReady ==> t.pc == W.Rearming(l.pc.active))
            && (e.Handle? && l.pc.active[0] != W.WakeReady ==> t.pc == W.Dispatching(l.pc.active[1..]))
            && (e.Handle? || e.Spin? ==> l.pc.Dispatching? && l.pc.active != [])
            && (e.Spin? ==> t == l)
            && (e.Rearm? ==> l.pc.Rearming? && t.pc == W.Dispatching(if l.pc.active == [] then [] else l.pc.active[1..]))
            && (e.Finish? ==> l.pc == W.Dispatching([]) && t.pc == W.Swapping)
            && (e.Run? ==> l.pc.Running? && t.pc.Running? && l.pc.next < |l.functors|)
            && (Queues(e) || e.Write? || e.OwnWrite? ==> t.pc == l.pc)
            && (e.Start? || e.Swap? || e.End? ==> !l.pc.Dispatching? && !l.pc.Rearming? && !t.pc.Dispatching? && !t.pc.Rearming?)
  {
  }

  lemma ChannelsRest(batch: seq<Report>)
    requires batch != []
    ensures Channels(batch) != [] && Channels(Rest(batch)) == Channels(batch)[1..]
  {
  }

  lemma SeenRest(o: Owner, batch: seq<Report>)
    requires batch != []
    ensures Seen(Channels(Rest(batch)), o.wake) == Seen(Channels(batch), o.wake)[1..]
    ensures Seen(Channels(batch), o.wake)[0] == W.WakeReady <==> batch[0].channel == o.wake
  {
    ChannelsRest(batch);
  }

  lemma QueueKept(o: Owner, s: Service, t: Service)
    requires Queue(o, s) && Waiting(t.loop) == Waiting(s.loop)
    requires t.loop.queued == s.loop.queued && t.loop.executed == s.loop.executed
    requires t.connections.Keys <= s.connections.Keys
    ensures Queue(o, t)
  {
  }

  lemma RestKeeps(o: Owner, batch: seq<Report>, connections: map<int, TCPConnection>, armed: set<int>)
    requires Apart(batch) && forall i :: 0 < i < |batch| ==> Entry(o, connections, armed, batch[i])
    ensures Apart(Rest(batch))
    ensures forall i :: 0 <= i < |Rest(batch)| ==> Entry(o, connections, armed, Rest(batch)[i])
  {
    hide Entry;
    forall i | 0 <= i < |Rest(batch)|
      ensures Entry(o, connections, armed, Rest(batch)[i])
    {
      assert Entry(o, connections, armed, batch[i + 1]);
    }
    forall i, j | 0 <= i < j < |Rest(batch)|
      ensures Rest(batch)[i].channel != Rest(batch)[j].channel
    {
      assert batch[i + 1].channel != batch[j + 1].channel;
    }
  }

  /** Moving on in the batch. */
  lemma BatchGoesOn(o: Owner, s: Service, t: Service)
    requires Apart(s.batch) && InStep(o, s.loop, s.batch) && s.batch != [] && (s.loop.pc.Dispatching? || s.loop.pc.Rearming?)
    requires t.batch == Rest(s.batch) && !t.reading && t.loop.pc == W.Dispatching(s.loop.pc.active[1..])
    requires forall i :: 0 < i < |s.batch| ==> Entry(o, t.connections, t.armed, s.batch[i])
    ensures Batch(o, t)
  {
    RestKeeps(o, s.batch, t.connections, t.armed);
    SeenRest(o, s.batch);
    hide Seen, Channels, Entry, Rest, Apart;
  }

  /** The other connections in the batch have other descriptors than its head. */
  lemma OthersInBatch(o: Owner, s: Service, i: nat)
    requires Apart(s.batch) && Entries(o, s) && 0 < i < |s.batch|
    requires s.batch[0].channel != o.wake && s.batch[i].channel != o.wake
    ensures s.batch[i].channel.fd != s.batch[0].channel.fd
  {
    assert Entry(o, s.connections, s.armed, s.batch[0]) && Entry(o, s.connections, s.armed, s.batch[i]);
  }

  lemma WaitFacts(o: Owner, s: Service, reports: seq<Report>)
    requires InStep(o, s.loop, s.batch) && Possible(o, s, Wait(reports))
    ensures var t := Next(o, s, Wait(reports));
            && s.batch == [] && Reportable(o, s, reports) && t == WaitStep(s.(loop := t.loop), reports)
            && Waiting(t.loop) == Waiting(s.loop)
  {
    WaitingNext(s.loop, EventOf(o, s, Wait(reports)));
    hide W.Step, Waiting, W.Unrun, Seen, Channels, Apart, Reportable, WaitStep;
  }

  lemma {:induction false} WaitSane(o: Owner, s: Service, reports: seq<Report>)
    requires Sane(o, s) && Possible(o, s, Wait(reports))
    ensures Sane(o, Next(o, s, Wait(reports)))
  {
    hide W.Step, W.Enabled, Waiting, W.Unrun, Seen, R.Delivered;
    var turn := Wait(reports);
    var t := Next(o, s, turn);
    WaitFacts(o, s, reports);
    WaitingNext(s.loop, EventOf(o, s, turn));
    ActiveNext(s.loop, EventOf(o, s, turn));
    QueueKept(o, s, t);
    forall i | 0 <= i < |reports|
      ensures Entry(o, t.connections, t.armed, reports[i])
    {
      assert CanReport(o, s, reports[i]);
      assert Channels(reports)[i] in Channels(reports);
    }
  }

  /** What a handler can change: at most the head of the batch, which it leaves armed or takes out. */
  lemma ReadMeans(s: Service, r: Report, answers: seq<R.Received>)
    ensures var t := ReadStep(s, r, answers);
            && t.loop == s.loop && t.batch == (if Settles(r, answers) then Rest(s.batch) else s.batch)
            && t.connections - {r.channel.fd} == s.connections - {r.channel.fd} && t.connections.Keys <= s.connections.Keys
            && t.armed - {r.channel.fd} == s.armed - {r.channel.fd}
            && (r.channel.fd in t.connections ==> t.connections[r.channel.fd] == s.connections[r.channel.fd])
            && t.reading == !Settles(r, answers) && (!Settles(r, answers) ==> t == s.(reading := true) && r.revents & R.EPOLLIN != 0)
            && (r.channel.fd in t.armed && r.channel.fd !in s.armed && r.channel.fd in s.connections ==> r.channel.fd in t.connections)
  {
  }

  lemma HandleBatch(o: Owner, s: Service, t: Service, fd: int)
    requires Batch(o, s) && s.batch != [] && s.loop.pc.Dispatching? && s.batch[0].channel != o.wake && s.batch[0].channel.fd == fd
    requires t.batch == Rest(s.batch) && !t.reading && t.loop.pc == W.Dispatching(s.loop.pc.active[1..])
    requires t.connections - {fd} == s.connections - {fd} && t.armed - {fd} == s.armed - {fd}
    ensures Batch(o, t)
  {
    hide InStep, Apart, Rest;
    forall i | 0 < i < |s.batch|
      ensures Entry(o, t.connections, t.armed, s.batch[i])
    {
      assert Entry(o, s.connections, s.armed, s.batch[i]);
      var r := s.batch[i];
      if r.channel != o.wake {
        OthersInBatch(o, s, i);
        assert r.channel.fd in s.connections - {fd};
        assert r.channel.fd in t.armed - {fd} <==> r.channel.fd in t.armed;
      }
    }
    BatchGoesOn(o, s, t);
  }

  lemma HandleTable(o: Owner, s: Service, t: Service, fd: int)
    requires Table(o, s) && fd in s.connections && t.loop.executed == s.loop.executed
    requires t.connections - {fd} == s.connections - {fd} && t.armed - {fd} == s.armed - {fd}
    requires fd in t.connections ==> t.connections[fd] == s.connections[fd]
    requires fd in t.armed ==> fd in t.connections
    ensures Table(o, t)
  {
    forall g | g in t.connections
      ensures g in s.connections && t.connections[g] == s.connections[g]
    {
      assert g != fd ==> g in t.connections - {fd};
    }
    forall g | g in t.armed
      ensures g in t.connections
    {
      assert g != fd ==> g in s.armed - {fd} && g in s.connections - {fd};
    }
  }

  lemma SpinOrHandle(l: Wakeups)
    ensures W.Enabled(l, W.Spin) <==> W.Enabled(l, W.Handle)
  {
  }

  lemma HandleFacts(o: Owner, s: Service, answers: seq<R.Received>)
    requires InStep(o, s.loop, s.batch) && Possible(o, s, Handle(answers))
    ensures s.batch != [] && s.loop.pc.Dispatching? && W.Enabled(s.loop, W.Handle)
    ensures var t := Next(o, s, Handle(answers));
            && Waiting(t.loop) == Waiting(s.loop) && t.loop.queued == s.loop.queued && t.loop.executed == s.loop.executed
            && (s.batch[0].channel == o.wake ==> t == s.(loop := t.loop) && t.loop.pc == W.Rearming(s.loop.pc.active))
            && (s.batch[0].channel != o.wake ==>
                  && t == ReadStep(s.(loop := t.loop), s.batch[0], answers)
                  && t.loop.pc == if Settles(s.batch[0], answers) then W.Dispatching(s.loop.pc.active[1..]) else s.loop.pc)
  {
    hide W.Step, W.Enabled, Waiting, W.Unrun, Seen, Channels, Settles, Reportable, New, ReadStep;
    var e := EventOf(o, s, Handle(answers));
    WaitingNext(s.loop, e);
    ActiveNext(s.loop, e);
    SeenRest(o, s.batch);
    SpinOrHandle(s.loop);
    ReadMeans(s.(loop := W.Step(s.loop, e)), s.batch[0], answers);
  }

  lemma HandleSane(o: Owner, s: Service, answers: seq<R.Received>)
    requires Sane(o, s) && Possible(o, s, Handle(answers))
    ensures Sane(o, Next(o, s, Handle(answers)))
  {
    hide Possible, Next, Waiting, Seen, Channels, Settles, ReadStep, Apart, Rest, Queue;
    var t := Next(o, s, Handle(answers));
    HandleFacts(o, s, answers);
    QueueKept(o, s, t) by {
      ReadMeans(s.(loop := t.loop), s.batch[0], answers);
    }
    var r := s.batch[0];
    if r.channel != o.wake {
      hide Table;
      ReadMeans(s.(loop := t.loop), r, answers);
      assert Entry(o, s.connections, s.armed, r);
      HandleTable(o, s, t, r.channel.fd);
      if Settles(r, answers) {
        hide InStep, Entries;
        HandleBatch(o, s, t, r.channel.fd);
      }
    }
  }

  lemma QuietFacts(o: Owner, s: Service, e: W.Event<Task>)
    requires Possible(o, s, Act(e)) && !e.Rearm? && !e.Run?
    ensures var t := Next(o, s, Act(e));
            && W.Enabled(s.loop, e) && t == s.(loop := W.Step(s.loop, e)) && t.loop.executed == s.loop.executed
            && t.loop.queued == s.loop.queued + (if Queues(e) then [e.task] else [])
            && Waiting(t.loop) == Waiting(s.loop) + (if Queues(e) then [e.task] else [])
            && (Queues(e) ==> New(o, s, e.task)) && !e.Poll? && !e.Handle? && !e.Spin?
  {
    hide W.Step, W.Enabled, Waiting, W.Unrun, Seen, Channels, Apart, Reportable, New;
    WaitingNext(s.loop, e);
  }

  lemma RearmFacts(o: Owner, s: Service)
    requires InStep(o, s.loop, s.batch) && Possible(o, s, Act(W.Rearm))
    ensures var t := Next(o, s, Act(W.Rearm));
            && s.batch != [] && s.batch[0].channel == o.wake && W.Enabled(s.loop, W.Rearm)
            && t == s.(loop := W.Step(s.loop, W.Rearm), batch := Rest(s.batch))
            && t.loop.executed == s.loop.executed && t.loop.queued == s.loop.queued && Waiting(t.loop) == Waiting(s.loop)
  {
    hide W.Step, W.Enabled, Waiting, W.Unrun, Seen, Channels, Apart, Reportable, New;
    WaitingNext(s.loop, W.Rearm);
    ActiveNext(s.loop, W.Rearm);
  }

  /** The task that runs next is queued, and its connection is new to the loop. */
  lemma RunFacts(o: Owner, s: Service)
    requires Queue(o, s) && Possible(o, s, Act(W.Run))
    ensures s.loop.pc.Running? && s.loop.pc.next < |s.loop.functors| && W.Enabled(s.loop, W.Run)
    ensures var t, task := Next(o, s, Act(W.Run)), s.loop.functors[s.loop.pc.next];
            && t == RunStep(s.(loop := W.Step(s.loop, W.Run)), task)
            && t.loop.executed == s.loop.executed + [task] && t.loop.queued == s.loop.queued && task in s.loop.queued
            && Waiting(s.loop) == [task] + Waiting(t.loop) && t.loop.pc.Running?
            && (task.NewEvent? ==> task !in s.loop.executed && task.conn.fd !in s.connections && task.conn.fd != WakeFd(o))
  {
    hide W.Step, Waiting, W.Unrun, Seen, Channels, Apart, Reportable, New;
    WaitingNext(s.loop, W.Run);
    ActiveNext(s.loop, W.Run);
    assert Waiting(s.loop)[0] == s.loop.functors[s.loop.pc.next];
  }

  lemma RearmSane(o: Owner, s: Service)
    requires Sane(o, s) && Possible(o, s, Act(W.Rearm))
    ensures Sane(o, Next(o, s, Act(W.Rearm)))
  {
    hide W.Step, W.Enabled, Waiting, W.Unrun, Seen, Channels, Apart, Reportable, New;
    var t := Next(o, s, Act(W.Rearm));
    WaitingNext(s.loop, W.Rearm);
    ActiveNext(s.loop, W.Rearm);
    QueueKept(o, s, t);
    hide Queue, Entry;
    if s.batch != [] {
      BatchGoesOn(o, s, t);
    }
  }

  lemma RunSane(o: Owner, s: Service)
    requires Sane(o, s) && Possible(o, s, Act(W.Run))
    ensures Sane(o, Next(o, s, Act(W.Run)))
  {
    hide W.Step, W.Enabled, Waiting, W.Unrun, Seen, Channels, Apart, Next, Possible;
    RunFacts(o, s);
    var task, t := s.loop.functors[s.loop.pc.next], Next(o, s, Act(W.Run));
    assert forall i :: 0 <= i < |Waiting(t.loop)| ==> Waiting(t.loop)[i] == Waiting(s.loop)[i + 1];
    assert Waiting(s.loop)[0] == task;
    assert Queue(o, t);
    hide Queue;
    assert s.batch == [];
  }

  lemma QuietSane(o: Owner, s: Service, e: W.Event<Task>)
    requires Sane(o, s) && Possible(o, s, Act(e)) && !e.Rearm? && !e.Run?
    ensures Sane(o, Next(o, s, Act(e)))
  {
    hide W.Step, W.Enabled, Waiting, W.Unrun, Seen, Channels, Apart, Next, Possible;
    var t := Next(o, s, Act(e));
    QuietFacts(o, s, e);
    ActiveNext(s.loop, e);
    if Queues(e) {
      assert Queue(o, t);
    } else {
      assert Waiting(s.loop) + [] == Waiting(s.loop) && s.loop.queued + [] == s.loop.queued;
      QueueKept(o, s, t);
    }
  }

  lemma {:induction false} NextSane(o: Owner, s: Service, turn: Turn)
    requires Sane(o, s) && Possible(o, s, turn)
    ensures Sane(o, Next(o, s, turn))
  {
    hide Sane, Possible, Next;
    match turn
    case Wait(reports) => WaitSane(o, s, reports);
    case Handle(answers) => HandleSane(o, s, answers);
    case Act(e) =>
      if e == W.Rearm {
        RearmSane(o, s);
      } else if e == W.Run {
        RunSane(o, s);
      } else {
        QuietSane(o, s, e);
      }
  }

  lemma {:induction false} RunIsSane(o: Owner, turns: seq<Turn>)
    requires Run(o, turns)
    ensures Sane(o, Exec(o, turns))
  {
    if turns != [] {
      RunIsSane(o, turns[..|turns| - 1]);
      NextSane(o, Exec(o, turns[..|turns| - 1]), turns[|turns| - 1]);
    }
  }

  lemma {:induction false} RunPrefix(o: Owner, turns: seq<Turn>, i: nat)
    requires Run(o, turns) && i < |turns|
    ensures Run(o, turns[..i]) && Possible(o, Exec(o, turns[..i]), turns[i])
  {
    if i < |turns| - 1 {
      RunPrefix(o, turns[..|turns| - 1], i);
      assert turns[..|turns| - 1][..i] == turns[..i];
    }
  }

  lemma ExecNext(o: Owner, turns: seq<Turn>, i: nat)
    requires i < |turns|
    ensures Exec(o, turns[..i + 1]) == Next(o, Exec(o, turns[..i]), turns[i])
  {
    assert turns[..i + 1][..i] == turns[..i];
  }

  // ---------- The protocol underneath ----------

  function Trace(o: Owner, turns: seq<Turn>): (es: seq<W.Event<Task>>)
    ensures |es| == |turns|
  {
    if turns == [] then [] else
    var before := turns[..|turns| - 1];
    Trace(o, before) + [EventOf(o, Exec(o, before), turns[|turns| - 1])]
  }

  /** The tasks and wakeups are those of EventLoopSpec. */
  lemma {:induction false} FollowsProtocol(o: Owner, turns: seq<Turn>)
    ensures Exec(o, turns).loop == W.Exec(W.Init(), Trace(o, turns))
  {
    if turns != [] {
      var before, last := turns[..|turns| - 1], turns[|turns| - 1];
      FollowsProtocol(o, before);
      var e := EventOf(o, Exec(o, before), last);
      W.ExecNext(W.Init(), Trace(o, before), e);
      NextLoop(o, Exec(o, before), last);
    }
  }

  lemma NextLoop(o: Owner, s: Service, turn: Turn)
    ensures Next(o, s, turn).loop == W.Step(s.loop, EventOf(o, s, turn))
  {
  }

  lemma {:induction false} PushAt(o: Owner, turns: seq<Turn>, k: nat)
    requires k < |turns|
    ensures Trace(o, turns)[k].Push? <==> turns[k].Act? && turns[k].event.Push?
  {
    hide Exec;
    if k < |turns| - 1 {
      PushAt(o, turns[..|turns| - 1], k);
    }
  }

  // ---------- Who stays disarmed ----------

  /** The descriptor whose report this turn consumes without EPOLLIN among its events. */
  function Ignores(o: Owner, s: Service, turn: Turn): set<int> {
    if turn.Handle? && s.batch != [] && s.batch[0].channel != o.wake && s.batch[0].revents & R.EPOLLIN == 0
    then {s.batch[0].channel.fd} else {}
  }

  predicate Ignored(o: Owner, turns: seq<Turn>, k: nat, fd: int) {
    k < |turns| && fd in Ignores(o, Exec(o, turns[..k]), turns[k])
  }

  function Deaf(o: Owner, turns: seq<Turn>): set<int> {
    if turns == [] then {} else
    var before := turns[..|turns| - 1];
    Deaf(o, before) + Ignores(o, Exec(o, before), turns[|turns| - 1])
  }

  lemma {:induction false} DeafIff(o: Owner, turns: seq<Turn>, fd: int)
    ensures fd in Deaf(o, turns) <==> exists k: nat :: Ignored(o, turns, k, fd)
  {
    if turns != [] {
      var before, n := turns[..|turns| - 1], |turns| - 1;
      DeafIff(o, before, fd);
      assert forall k: nat :: k <= n ==> before[..k] == turns[..k];
      assert forall k: nat :: k < n ==> (Ignored(o, turns, k, fd) <==> Ignored(o, before, k, fd));
      assert Ignored(o, turns, n, fd) <==> fd in Ignores(o, Exec(o, before), turns[n]);
    }
  }

  predicate InBatch(o: Owner, batch: seq<Report>, fd: int) {
    exists i :: 0 <= i < |batch| && batch[i].channel != o.wake && batch[i].channel.fd == fd
  }

  /** A published connection is disarmed while its report is in hand, or for good. */
  ghost predicate Accounted(o: Owner, s: Service, deaf: set<int>) {
    && deaf <= s.connections.Keys && deaf !! s.armed
    && (forall fd :: fd in s.connections && fd !in s.armed ==> fd in deaf || InBatch(o, s.batch, fd))
    && (forall fd :: fd in deaf ==> !InBatch(o, s.batch, fd))
  }

  lemma InBatchRest(o: Owner, s: Service, fd: int)
    requires Apart(s.batch) && Entries(o, s) && s.batch != []
    ensures InBatch(o, Rest(s.batch), fd) <==>
            InBatch(o, s.batch, fd) && !(s.batch[0].channel != o.wake && s.batch[0].channel.fd == fd)
  {
    if InBatch(o, s.batch, fd) && !(s.batch[0].channel != o.wake && s.batch[0].channel.fd == fd) {
      var i :| 0 <= i < |s.batch| && s.batch[i].channel != o.wake && s.batch[i].channel.fd == fd;
      assert Rest(s.batch)[i - 1] == s.batch[i];
    }
    if InBatch(o, Rest(s.batch), fd) {
      var i :| 0 <= i < |Rest(s.batch)| && Rest(s.batch)[i].channel != o.wake && Rest(s.batch)[i].channel.fd == fd;
      assert s.batch[i + 1] == Rest(s.batch)[i];
      if s.batch[0].channel != o.wake {
        OthersInBatch(o, s, i + 1);
      }
    }
  }

  lemma AccountedHandle(o: Owner, s: Service, answers: seq<R.Received>, deaf: set<int>)
    requires Sane(o, s) && Accounted(o, s, deaf) && Possible(o, s, Handle(answers))
    ensures Accounted(o, Next(o, s, Handle(answers)), deaf + Ignores(o, s, Handle(answers)))
  {
    hide Next, Possible, Queue, Waiting, InBatch, Rest, Seen, Channels, W.Step, W.Enabled;
    HandleFacts(o, s, answers);
    var t := Next(o, s, Handle(answers));
    if s.batch[0].channel != o.wake {
      assert Entry(o, s.connections, s.armed, s.batch[0]);
      assert InBatch(o, s.batch, s.batch[0].channel.fd) by { HeadInBatch(o, s.batch); }
      forall fd { InBatchRest(o, s, fd); }
    }
  }

  lemma HeadInBatch(o: Owner, batch: seq<Report>)
    requires batch != [] && batch[0].channel != o.wake
    ensures InBatch(o, batch, batch[0].channel.fd)
  {
  }

  lemma ReportedIff(o: Owner, s: Service, reports: seq<Report>, fd: int)
    requires Table(o, s) && fd in s.connections && o.wake.fd == WakeFd(o)
    ensures fd in Descriptors(Channels(reports)) <==> InBatch(o, reports, fd)
  {
    var cs := Channels(reports);
    if fd in Descriptors(cs) {
      var c :| c in cs && c.fd == fd;
      var i :| 0 <= i < |cs| && cs[i] == c;
      assert reports[i].channel.fd == fd;
    }
    if InBatch(o, reports, fd) {
      var i :| 0 <= i < |reports| && reports[i].channel != o.wake && reports[i].channel.fd == fd;
      assert cs[i] in cs;
    }
  }

  lemma ReportedArmed(o: Owner, s: Service, reports: seq<Report>, fd: int)
    requires Reportable(o, s, reports) && InBatch(o, reports, fd)
    ensures fd in s.armed
  {
    var i :| 0 <= i < |reports| && reports[i].channel != o.wake && reports[i].channel.fd == fd;
    assert CanReport(o, s, reports[i]);
  }

  lemma AccountedWait(o: Owner, s: Service, reports: seq<Report>, deaf: set<int>)
    requires Sane(o, s) && Accounted(o, s, deaf) && Possible(o, s, Wait(reports)) && o.wake.fd == WakeFd(o)
    ensures Accounted(o, Next(o, s, Wait(reports)), deaf)
  {
    hide W.Step, W.Enabled, Waiting, Queue, Reportable, InBatch, Descriptors, Channels, Seen, Table, Apart, Entries, Next, Possible;
    WaitFacts(o, s, reports);
    forall fd { NotInBatch(o, fd); }
    forall fd | fd in s.connections { ReportedIff(o, s, reports, fd); }
    forall fd | InBatch(o, reports, fd) { ReportedArmed(o, s, reports, fd); }
  }

  lemma NotInBatch(o: Owner, fd: int)
    ensures !InBatch(o, [], fd)
  {
  }

  lemma AccountedAct(o: Owner, s: Service, e: W.Event<Task>, deaf: set<int>)
    requires Sane(o, s) && Accounted(o, s, deaf) && Possible(o, s, Act(e))
    ensures Accounted(o, Next(o, s, Act(e)), deaf)
  {
    hide W.Step, Waiting, Apart, InBatch, Seen, Channels;
    ActiveNext(s.loop, e);
    if e.Run? {
      WaitingNext(s.loop, e);
      assert Waiting(s.loop)[0] == s.loop.functors[s.loop.pc.next];
      assert s.batch == [];
    } else if e.Rearm? {
      hide W.Enabled, Queue, Table;
      forall fd { InBatchRest(o, s, fd); }
    }
  }

  lemma {:induction false} AccountedNext(o: Owner, s: Service, turn: Turn, deaf: set<int>)
    requires Sane(o, s) && Accounted(o, s, deaf) && Possible(o, s, turn) && o.wake.fd == WakeFd(o)
    ensures Accounted(o, Next(o, s, turn), deaf + Ignores(o, s, turn))
  {
    hide Sane, Accounted, Possible, Next;
    assert !turn.Handle? ==> deaf + Ignores(o, s, turn) == deaf;
    match turn
    case Wait(reports) => AccountedWait(o, s, reports, deaf);
    case Handle(answers) => AccountedHandle(o, s, answers, deaf);
    case Act(e) => AccountedAct(o, s, e, deaf);
  }

  lemma {:induction false} RunIsAccounted(o: Owner, turns: seq<Turn>)
    requires Run(o, turns) && o.wake.fd == WakeFd(o)
    ensures Accounted(o, Exec(o, turns), Deaf(o, turns))
  {
    if turns != [] {
      var before, last := turns[..|turns| - 1], turns[|turns| - 1];
      RunIsAccounted(o, before);
      RunIsSane(o, before);
      AccountedNext(o, Exec(o, before), last, Deaf(o, before));
    }
  }

  /**
    When the loop goes to sleep, a published connection is disarmed exactly if some report
    of it was consumed without EPOLLIN among its events. There is no other way to lose a
    connection, and no way back.
   */
  lemma {:induction false} DisarmedIffIgnored(o: Owner, turns: seq<Turn>, fd: int)
    requires Run(o, turns) && o.wake.fd == WakeFd(o)
    requires Exec(o, turns).loop.pc == W.Polling && fd in Exec(o, turns).connections
    ensures fd !in Exec(o, turns).armed <==> exists k: nat :: Ignored(o, turns, k, fd)
  {
    RunIsAccounted(o, turns);
    RunIsSane(o, turns);
    DeafIff(o, turns, fd);
  }

  /** Such a report had urgent data, an error or a hang-up to tell, since the mask asks for input. */
  lemma {:induction false} IgnoredForAReason(o: Owner, turns: seq<Turn>, k: nat, fd: int)
    requires Run(o, turns) && Ignored(o, turns, k, fd)
    ensures var s := Exec(o, turns[..k]);
            && s.batch != [] && s.batch[0].channel.fd == fd && s.batch[0].revents & R.EPOLLIN == 0
            && s.batch[0].revents & (R.EPOLLPRI | R.EPOLLERR | R.EPOLLHUP) != 0
  {
    hide Exec, Run, Possible, Queue, Table, R.Delivered;
    var s := Exec(o, turns[..k]);
    RunPrefix(o, turns, k);
    RunIsSane(o, turns[..k]);
    assert Entry(o, s.connections, s.armed, s.batch[0]);
    R.ReadDelivers(s.batch[0].revents);
  }

  // ---------- What the peers are offered ----------

  /** The head of the batch is the report of `c`. */
  predicate Handles(o: Owner, s: Service, c: TCPConnection) {
    s.batch != [] && s.batch[0].channel != o.wake && s.batch[0].channel.fd in s.connections && s.connections[s.batch[0].channel.fd] == c
  }

  /** An answer for an error, when the callbacks begin. */
  predicate AnswersError(revents: R.Mask, reading: bool) {
    !reading && revents & R.EPOLLERR != 0 && (revents & R.EPOLLHUP == 0 || revents & R.EPOLLIN != 0)
  }

  /** And one when a read finds data. */
  predicate AnswersRead(revents: R.Mask, answers: seq<R.Received>) {
    revents & R.EPOLLIN != 0 && R.Outcome(answers) == R.Data
  }

  function Answers(revents: R.Mask, reading: bool, answers: seq<R.Received>): nat {
    (if AnswersError(revents, reading) then 1 else 0) + (if AnswersRead(revents, answers) then 1 else 0)
  }

  /** How often a turn offers the answer to the peer of `c`. */
  function Offers(o: Owner, s: Service, turn: Turn, c: TCPConnection): nat {
    if turn.Handle? && Handles(o, s, c) then Answers(s.batch[0].revents, s.reading, turn.answers) else 0
  }

  function Offered(o: Owner, turns: seq<Turn>, c: TCPConnection): nat {
    if turns == [] then 0 else
    var before := turns[..|turns| - 1];
    Offered(o, before, c) + Offers(o, Exec(o, before), turns[|turns| - 1], c)
  }

  /** A turn in which a read finds that the peer of `c` has gone. */
  predicate Closes(o: Owner, s: Service, turn: Turn, c: TCPConnection) {
    turn.Handle? && Handles(o, s, c) && s.batch[0].revents & R.EPOLLIN != 0 && R.Outcome(turn.answers) == R.PeerClosed
  }

  ghost predicate Closed(o: Owner, turns: seq<Turn>, c: TCPConnection) {
    exists k: nat :: ClosedAt(o, turns, k, c)
  }

  predicate ClosedAt(o: Owner, turns: seq<Turn>, k: nat, c: TCPConnection) {
    k < |turns| && Closes(o, Exec(o, turns[..k]), turns[k], c)
  }

  lemma OfferedNext(o: Owner, turns: seq<Turn>, i: nat, c: TCPConnection)
    requires i < |turns|
    ensures Offered(o, turns[..i + 1], c) == Offered(o, turns[..i], c) + Offers(o, Exec(o, turns[..i]), turns[i], c)
  {
    hide Offers, Exec;
    assert turns[..i + 1][..i] == turns[..i];
  }

  lemma ClosedNext(o: Owner, turns: seq<Turn>, i: nat, c: TCPConnection)
    requires i < |turns|
    ensures Closed(o, turns[..i + 1], c) <==> Closed(o, turns[..i], c) || Closes(o, Exec(o, turns[..i]), turns[i], c)
  {
    hide Closes, Exec;
    assert forall k: nat :: k <= i ==> turns[..i + 1][..k] == turns[..k];
    assert forall k: nat :: k < i ==> turns[..i][..k] == turns[..k];
    assert forall k: nat :: k < i ==> (ClosedAt(o, turns[..i + 1], k, c) <==> ClosedAt(o, turns[..i], k, c));
    assert ClosedAt(o, turns[..i + 1], i, c) <==> Closes(o, Exec(o, turns[..i]), turns[i], c);
    if Closed(o, turns[..i + 1], c) {
      var k: nat :| ClosedAt(o, turns[..i + 1], k, c);
      assert k == i || ClosedAt(o, turns[..i], k, c);
    }
    if Closed(o, turns[..i], c) {
      var k: nat :| ClosedAt(o, turns[..i], k, c);
      assert ClosedAt(o, turns[..i + 1], k, c);
    }
  }

  /** The handler of one report, taken up again with the next answers until it is done. */
  function Visit(o: Owner, s: Service, visits: seq<seq<R.Received>>): Service {
    if visits == [] then s else Next(o, Visit(o, s, visits[..|visits| - 1]), Handle(visits[|visits| - 1]))
  }

  function VisitOffers(o: Owner, s: Service, visits: seq<seq<R.Received>>, c: TCPConnection): nat {
    if visits == [] then 0 else
    var before := visits[..|visits| - 1];
    VisitOffers(o, s, before, c) + Offers(o, Visit(o, s, before), Handle(visits[|visits| - 1]), c)
  }

  lemma {:induction false} StillReading(o: Owner, s: Service, visits: seq<seq<R.Received>>, c: TCPConnection)
    requires Handles(o, s, c) && !s.reading && forall v :: v in visits ==> !Settles(s.batch[0], v)
    ensures var t := Visit(o, s, visits);
            && t.batch == s.batch && t.connections == s.connections && t.armed == s.armed && t.reading == (visits != [])
            && VisitOffers(o, s, visits, c) == if visits != [] && AnswersError(s.batch[0].revents, false) then 1 else 0
  {
    hide W.Step, EventOf;
    if visits != [] {
      var front, v := visits[..|visits| - 1], visits[|visits| - 1];
      assert forall w :: w in front ==> w in visits;
      assert v in visits;
      StillReading(o, s, front, c);
      ReadMeans(Visit(o, s, front).(loop := W.Step(Visit(o, s, front).loop, EventOf(o, Visit(o, s, front), Handle(v)))), s.batch[0], v);
    }
  }

  /**
    A report is answered once for an error and once for data, however long its read loop
    spins before it is done.
   */
  lemma {:induction false} AnsweredOnce(o: Owner, s: Service, spins: seq<seq<R.Received>>, last: seq<R.Received>, c: TCPConnection)
    requires Handles(o, s, c) && !s.reading && (forall v :: v in spins ==> !Settles(s.batch[0], v)) && Settles(s.batch[0], last)
    ensures var r := s.batch[0];
            VisitOffers(o, s, spins + [last], c) ==
              (if r.revents & R.EPOLLERR != 0 && (r.revents & R.EPOLLHUP == 0 || r.revents & R.EPOLLIN != 0) then 1 else 0) +
              (if r.revents & R.EPOLLIN != 0 && R.Outcome(last) == R.Data then 1 else 0)
  {
    hide W.Step, EventOf, Next;
    StillReading(o, s, spins, c);
    assert (spins + [last])[..|spins|] == spins;
  }

  // ---------- A connection lost ----------

  lemma Then(o: Owner, turns: seq<Turn>, turn: Turn)
    requires Run(o, turns) && Possible(o, Exec(o, turns), turn)
    ensures Run(o, turns + [turn]) && Exec(o, turns + [turn]) == Next(o, Exec(o, turns), turn)
  {
    assert (turns + [turn])[..|turns|] == turns;
  }

  /** A report of one channel, as the protocol sees it. */
  lemma OneReport(o: Owner, r: Report)
    ensures Channels([r]) == [r.channel] && Descriptors(Channels([r])) == {r.channel.fd}
    ensures Seen(Channels([r]), o.wake) == [if r.channel == o.wake then W.WakeReady else W.OtherReady]
  {
  }

  /** The loop starts, and another thread hands a connection over and wakes it. */
  function HandedOver(c: TCPConnection): seq<Turn> {
    [Act(W.Start), Act(W.Push(NewEvent(c))), Act(W.Write)]
  }

  /** The wakeup is handled and the connection published. */
  function Serving(o: Owner): seq<Turn> {
    [Wait([Report(o.wake, R.EPOLLIN)]), Handle([]), Act(W.Rearm), Act(W.Finish), Act(W.Swap), Act(W.Run), Act(W.End)]
  }

  /** The peer hangs up. */
  function HangUp(c: TCPConnection): seq<Turn> {
    [Wait([Report(c.channel, R.EPOLLHUP)]), Handle([]), Act(W.Finish), Act(W.Swap), Act(W.End)]
  }

  lemma HandedOverRuns(o: Owner, c: TCPConnection)
    requires c.fd != WakeFd(o)
    ensures var s := Exec(o, HandedOver(c));
            && Run(o, HandedOver(c)) && s.loop.pc == W.Polling && s.loop.armed && s.loop.counter == 1 && !s.loop.ownWrite
            && s.loop.pending == [NewEvent(c)] && s == Begin().(loop := s.loop)
  {
    var a, b := [Act(W.Start)], [Act(W.Start), Act(W.Push(NewEvent(c)))];
    assert [] + [Act(W.Start)] == a && a + [Act(W.Push(NewEvent(c)))] == b && b + [Act(W.Write)] == HandedOver(c);
    Then(o, [], Act(W.Start));
    Then(o, a, Act(W.Push(NewEvent(c))));
    Then(o, b, Act(W.Write));
  }

  /** Steps of the loop's own thread that do nothing to the connections. */
  lemma QuietTurn(o: Owner, s: Service, e: W.Event<Task>)
    requires W.Enabled(s.loop, e) && (e.Finish? || e.Swap? || e.End?)
    ensures Possible(o, s, Act(e)) && Next(o, s, Act(e)) == s.(loop := W.Step(s.loop, e))
  {
    hide W.Step, W.Enabled, New, Reportable;
  }

  /** From the end of a batch to the first task. */
  lemma SwapsOut(o: Owner, turns: seq<Turn>)
    requires Run(o, turns)
    requires var l := Exec(o, turns).loop; l.pc == W.Dispatching([]) && !l.ownWrite
    ensures var s, after := Exec(o, turns), turns + [Act(W.Finish), Act(W.Swap)];
            && Run(o, after)
            && Exec(o, after) == s.(loop := s.loop.(pc := W.Running(0), handling := true, functors := s.loop.pending,
                                                    pending := [], rounds := s.loop.rounds + 1))
  {
    hide Run, Exec, Possible, Next;
    var s := Exec(o, turns);
    QuietTurn(o, s, W.Finish);
    QuietTurn(o, s.(loop := W.Step(s.loop, W.Finish)), W.Swap);
    Then(o, turns, Act(W.Finish));
    Then(o, turns + [Act(W.Finish)], Act(W.Swap));
    assert turns + [Act(W.Finish)] + [Act(W.Swap)] == turns + [Act(W.Finish), Act(W.Swap)];
  }

  /** From the last task to sleep. */
  lemma Ends(o: Owner, turns: seq<Turn>)
    requires Run(o, turns)
    requires var l := Exec(o, turns).loop; l.pc.Running? && l.pc.next == |l.functors| && !l.ownWrite
    ensures var s, after := Exec(o, turns), turns + [Act(W.End)];
            Run(o, after) && Exec(o, after) == s.(loop := s.loop.(pc := W.Polling, handling := false))
  {
    hide Run, Exec, Possible, Next;
    QuietTurn(o, Exec(o, turns), W.End);
    Then(o, turns, Act(W.End));
  }

  /** One channel is reported to a sleeping loop. */
  lemma Wakens(o: Owner, turns: seq<Turn>, r: Report)
    requires Run(o, turns)
    requires var s := Exec(o, turns);
             && s.loop.pc == W.Polling && !s.loop.ownWrite && s.slots > 1 && CanReport(o, s, r)
             && (r.channel == o.wake ==> s.loop.armed && s.loop.counter > 0)
    ensures var s, after := Exec(o, turns), turns + [Wait([r])];
            && Run(o, after)
            && Exec(o, after) ==
                 s.(loop := s.loop.(pc := W.Dispatching([if r.channel == o.wake then W.WakeReady else W.OtherReady]),
                                    armed := s.loop.armed && r.channel != o.wake),
                    armed := s.armed - {r.channel.fd}, batch := [r])
  {
    hide Run, Exec, Seen, Channels, CanReport;
    OneReport(o, r);
    Then(o, turns, Wait([r]));
  }

  /** The wake channel alone is handled. */
  lemma WakeHandled(o: Owner, turns: seq<Turn>, r: Report)
    requires Run(o, turns) && r.channel == o.wake
    requires var s := Exec(o, turns); s.loop.pc == W.Dispatching([W.WakeReady]) && !s.loop.ownWrite && s.batch == [r]
    ensures var s, after := Exec(o, turns), turns + [Handle([]), Act(W.Rearm)];
            && Run(o, after)
            && Exec(o, after) == s.(loop := s.loop.(pc := W.Dispatching([]), counter := 0, armed := true), batch := [])
  {
    hide Run, Exec, Seen, Channels, CanReport, Settles, ReadStep;
    Then(o, turns, Handle([]));
    Then(o, turns + [Handle([])], Act(W.Rearm));
    assert turns + [Handle([])] + [Act(W.Rearm)] == turns + [Handle([]), Act(W.Rearm)];
  }

  /** The only report of the batch is consumed without EPOLLIN. */
  lemma HangUpHandled(o: Owner, turns: seq<Turn>, r: Report)
    requires Run(o, turns) && r.channel != o.wake && r.revents & R.EPOLLIN == 0
    requires var s := Exec(o, turns); s.loop.pc == W.Dispatching([W.OtherReady]) && !s.loop.ownWrite && s.batch == [r]
    ensures var s, after := Exec(o, turns), turns + [Handle([])];
            && Run(o, after) && Exec(o, after) == s.(loop := s.loop.(pc := W.Dispatching([])), batch := [], reading := false)
  {
    hide Run, Exec, Seen, Channels, CanReport;
    Then(o, turns, Handle([]));
  }

  /** The only task publishes its connection. */
  lemma Publishes(o: Owner, turns: seq<Turn>, c: TCPConnection)
    requires Run(o, turns)
    requires var s := Exec(o, turns);
             s.loop.pc == W.Running(0) && !s.loop.ownWrite && s.loop.functors == [NewEvent(c)] && s.connections == map[] && s.armed == {}
    ensures var s, after := Exec(o, turns), turns + [Act(W.Run)];
            && Run(o, after)
            && Exec(o, after) == s.(loop := W.Step(s.loop, W.Run), connections := map[c.fd := c], armed := {c.fd})
  {
    hide Run, Exec, Seen, Channels, CanReport;
    Then(o, turns, Act(W.Run));
  }

  /** Asleep, with one connection published. */
  predicate Asleep(s: Service, c: TCPConnection, armed: set<int>) {
    && s.loop.pc == W.Polling && s.loop.armed && !s.loop.ownWrite && s.loop.pending == [] && s.batch == []
    && s.connections == map[c.fd := c] && s.armed == armed && s.slots == EVENT_SUM
  }

  lemma ServingRuns(o: Owner, turns: seq<Turn>, c: TCPConnection)
    requires Run(o, turns)
    requires var s := Exec(o, turns);
             && s.loop.pc == W.Polling && s.loop.armed && s.loop.counter == 1 && !s.loop.ownWrite
             && s.loop.pending == [NewEvent(c)] && s == Begin().(loop := s.loop)
    ensures Run(o, turns + Serving(o)) && Asleep(Exec(o, turns + Serving(o)), c, {c.fd})
  {
    hide Run, Exec;
    var r := Report(o.wake, R.EPOLLIN);
    var a := turns + [Wait([r])];
    var b := a + [Handle([]), Act(W.Rearm)];
    var d := b + [Act(W.Finish), Act(W.Swap)];
    var e := d + [Act(W.Run)];
    assert e + [Act(W.End)] == turns + Serving(o);
    Wakens(o, turns, r);
    WakeHandled(o, a, r);
    SwapsOut(o, b);
    Publishes(o, d, c);
    Ends(o, e);
  }

  lemma PeerHangsUp(o: Owner, turns: seq<Turn>, c: TCPConnection)
    requires Run(o, turns) && Asleep(Exec(o, turns), c, {c.fd}) && c.channel.fd == c.fd && c.channel != o.wake
    ensures Run(o, turns + HangUp(c)) && Asleep(Exec(o, turns + HangUp(c)), c, {})
  {
    hide Run, Exec;
    var r := Report(c.channel, R.EPOLLHUP);
    var a := turns + [Wait([r])];
    var b := a + [Handle([])];
    var d := b + [Act(W.Finish), Act(W.Swap)];
    assert d + [Act(W.End)] == turns + HangUp(c);
    Wakens(o, turns, r);
    HangUpHandled(o, a, r);
    SwapsOut(o, b);
    Ends(o, d);
  }

  /**
    A connection is handed over, published and armed; its peer hangs up, and the loop goes
    back to sleep with the connection published and disarmed.
   */
  lemma HungUpAndDeaf(o: Owner, c: TCPConnection)
    requires c.fd != WakeFd(o) && c.channel.fd == c.fd && c.channel != o.wake
    ensures var turns := HandedOver(c) + Serving(o) + HangUp(c);
            && Run(o, turns) && Exec(o, turns).loop.pc == W.Polling
            && c.fd in Exec(o, turns).connections && c.fd !in Exec(o, turns).armed
  {
    hide Run, Exec;
    HandedOverRuns(o, c);
    ServingRuns(o, HandedOver(c), c);
    PeerHangsUp(o, HandedOver(c) + Serving(o), c);
  }

  // ---------- A request answered ----------

  lemma SlotsKept(o: Owner, s: Service, turn: Turn)
    ensures Next(o, s, turn).slots >= s.slots
  {
  }

  lemma {:induction false} RoomForReports(o: Owner, turns: seq<Turn>)
    ensures Exec(o, turns).slots >= EVENT_SUM
  {
    hide Next;
    if turns != [] {
      RoomForReports(o, turns[..|turns| - 1]);
      SlotsKept(o, Exec(o, turns[..|turns| - 1]), turns[|turns| - 1]);
    }
  }

  /** The read callback of the only report finds data. */
  lemma DataHandled(o: Owner, turns: seq<Turn>, r: Report)
    requires Run(o, turns) && r.channel != o.wake && r.revents & R.EPOLLIN != 0
    requires var s := Exec(o, turns); s.loop.pc == W.Dispatching([W.OtherReady]) && !s.loop.ownWrite && s.batch == [r]
    ensures var s, after := Exec(o, turns), turns + [Handle([R.Data])];
            && Run(o, after)
            && Exec(o, after) == s.(loop := s.loop.(pc := W.Dispatching([])), batch := [], reading := false,
                                    armed := s.armed + {r.channel.fd})
  {
    hide Run, Exec, Seen, Channels, CanReport;
    Then(o, turns, Handle([R.Data]));
  }

  /**
    In every run, a sleeping loop can be told of input on any connection it has armed. The
    handler reads it, offers the peer one answer, and arms the connection again.
   */
  lemma {:induction false} RequestIsAnswered(o: Owner, turns: seq<Turn>, fd: int)
    requires Run(o, turns)
    requires var s := Exec(o, turns);
             && s.loop.pc == W.Polling && !s.loop.ownWrite && fd in s.armed && fd in s.connections
             && s.connections[fd].Wired() && s.connections[fd].channel != o.wake
    ensures var c := Exec(o, turns).connections[fd];
            var more := turns + [Wait([Report(c.channel, R.EPOLLIN)]), Handle([R.Data])];
            && Run(o, more) && Exec(o, more).batch == []
            && Exec(o, more).connections == Exec(o, turns).connections && Exec(o, more).armed == Exec(o, turns).armed
            && Offered(o, more, c) == Offered(o, turns, c) + 1
  {
    hide Run, Exec, CanReport, Queue, Table, Batch, Next, Offered, Offers;
    var s, c := Exec(o, turns), Exec(o, turns).connections[fd];
    var r := Report(c.channel, R.EPOLLIN);
    var a, more := turns + [Wait([r])], turns + [Wait([r]), Handle([R.Data])];
    RunIsSane(o, turns);
    RoomForReports(o, turns);
    ArmedCanReport(o, s, fd);
    Wakens(o, turns, r);
    DataHandled(o, a, r);
    assert a + [Handle([R.Data])] == more;
    assert more[..|turns|] == turns && more[..|turns| + 1] == a && more[..|turns| + 2] == more;
    OfferedNext(o, more, |turns|, c);
    OfferedNext(o, more, |turns| + 1, c);
    OneAnswer(o, Exec(o, a), fd);
    assert Offers(o, s, Wait([r]), c) == 0 by { NoAnswer(o, s, [r], c); }
  }

  lemma NoAnswer(o: Owner, s: Service, reports: seq<Report>, c: TCPConnection)
    ensures Offers(o, s, Wait(reports), c) == 0
  {
  }

  lemma OneAnswer(o: Owner, s: Service, fd: int)
    requires fd in s.connections && s.connections[fd].Wired() && s.connections[fd].fd == fd && s.connections[fd].channel != o.wake
    requires s.batch == [Report(s.connections[fd].channel, R.EPOLLIN)]
    ensures Offers(o, s, Handle([R.Data]), s.connections[fd]) == 1
  {
  }

  /** What is armed can be reported to a sleeping loop as having input. */
  lemma ArmedCanReport(o: Owner, s: Service, fd: int)
    requires Sane(o, s) && s.loop.pc == W.Polling && fd in s.armed && fd in s.connections
    requires s.connections[fd].Wired() && s.connections[fd].channel != o.wake
    ensures CanReport(o, s, Report(s.connections[fd].channel, R.EPOLLIN)) && s.batch == [] && !s.reading
    ensures s.connections[fd].fd == fd
  {
    hide R.Delivered;
    R.ReadDelivers(R.EPOLLIN);
  }
}

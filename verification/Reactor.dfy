/**
  The reactor's objects. Channels register themselves with the kernel through their
  loop; each method of EventLoop that belongs to the wakeup protocol is one atomic step
  of a thread and its contract says that it is the step of the same name of
  EventLoopSpec.
 */
module Reactor {
  import R = RegistrationSpec
  import W = EventLoopSpec
  import Own = OwnershipSpec
  import Decimal

  const EVENT_SUM := 4096

  /** One entry of the array that epoll_wait fills. */
  datatype Report = Report(channel: Channel, revents: R.Mask)

  function Channels(reports: seq<Report>): (cs: seq<Channel>)
    ensures |cs| == |reports| && forall i :: 0 <= i < |cs| ==> cs[i] == reports[i].channel
  {
    if reports == [] then [] else Channels(reports[..|reports| - 1]) + [reports[|reports| - 1].channel]
  }

  predicate Distinct(cs: seq<Channel>) {
    forall i, j :: 0 <= i < j < |cs| ==> cs[i] != cs[j]
  }

  function Descriptors(cs: seq<Channel>): set<int> {
    set c | c in cs :: c.fd
  }

  class Epoll {
    var kernel: R.Kernel    // what epoll_fd_ stands for
    var slots: nat          // the size of event_array_

    constructor ()
      ensures kernel == R.Kernel(map[], 0) && slots == EVENT_SUM == 4096
    {
      kernel, slots := R.Kernel(map[], 0), EVENT_SUM;
    }

    /** Refused exactly if the descriptor is watched already; then nothing changes. */
    method EpollAdd(c: Channel)
      modifies this`kernel
      ensures kernel.faults == old(kernel.faults) + if c.fd in old(kernel.interest) then 1 else 0
      ensures kernel.interest - {c.fd} == old(kernel.interest) - {c.fd} && c.fd in kernel.interest
      ensures kernel.interest[c.fd] == if c.fd in old(kernel.interest) then old(kernel.interest)[c.fd]
                                       else R.Registration(c.events, true)
      ensures kernel == R.CtlAdd(old(kernel), c.fd, c.events)
    {
      kernel := R.CtlAdd(kernel, c.fd, c.events);
    }

    /** Refused exactly if the descriptor is not watched; otherwise it is armed afresh. */
    method EpollMod(c: Channel)
      modifies this`kernel
      ensures kernel.faults == old(kernel.faults) + if c.fd in old(kernel.interest) then 0 else 1
      ensures kernel.interest - {c.fd} == old(kernel.interest) - {c.fd}
      ensures c.fd in kernel.interest <==> c.fd in old(kernel.interest)
      ensures c.fd in kernel.interest ==> kernel.interest[c.fd] == R.Registration(c.events, true)
      ensures kernel == R.CtlMod(old(kernel), c.fd, c.events)
    {
      kernel := R.CtlMod(kernel, c.fd, c.events);
    }

    /** Refused exactly if the descriptor is not watched; afterwards it is not. */
    method EpollDel(c: Channel)
      modifies this`kernel
      ensures kernel.faults == old(kernel.faults) + if c.fd in old(kernel.interest) then 0 else 1
      ensures kernel.interest == old(kernel.interest) - {c.fd}
      ensures kernel == R.CtlDel(old(kernel), c.fd)
    {
      kernel := R.CtlDel(kernel, c.fd);
    }

    /** `reports` is what epoll_wait answers; a full array is doubled for the next time. */
    method Poll(reports: seq<Report>) returns (active: seq<Channel>)
      requires |reports| <= slots && Distinct(Channels(reports))
      modifies this, (set r | r in reports :: r.channel)`revents
      ensures active == Channels(reports)
      ensures forall r :: r in reports ==> r.channel.revents == r.revents
      ensures kernel == R.Report(old(kernel), Descriptors(active))
      ensures slots == if |reports| == old(slots) then 2 * old(slots) else old(slots)
      ensures old(slots) > 0 ==> |reports| < slots
    {
      active := [];
      var i := 0;
      while i < |reports|
        invariant 0 <= i <= |reports|
        invariant active == Channels(reports)[..i]
        invariant forall j :: 0 <= j < i ==> reports[j].channel.revents == reports[j].revents
        invariant kernel == old(kernel) && slots == old(slots)
      {
        assert forall j :: 0 <= j < i ==> Channels(reports)[j] != Channels(reports)[i];
        reports[i].channel.revents := reports[i].revents;
        active := active + [reports[i].channel];
        i := i + 1;
      }
      kernel := R.Report(kernel, Descriptors(active));
      if |reports| == slots {
        slots := slots * 2;
      }
    }
  }

  class Channel {
    const loop: EventLoop
    const fd: int
    var status: R.Status
    var events: R.Mask
    var revents: R.Mask
    var installed: set<R.Callback>
    var target: TCPConnection?      // what the callbacks are bound to, unless it is the loop or the server

    ghost function View(): R.Pair
      reads this, loop.poll
    {
      R.Pair(R.Channel(events, status), loop.poll.kernel)
    }

    constructor (loop: EventLoop, fd: int)
      ensures this.loop == loop && this.fd == fd && installed == {} && target == null
      ensures status == R.NEW && events == R.NONE_EVENT && revents == 0
    {
      this.loop, this.fd, installed, target := loop, fd, {}, null;
      status, events, revents := R.NEW, R.NONE_EVENT, 0;
    }

    method SetReadCallback(target: TCPConnection?)
      modifies this`installed, this`target
      ensures installed == old(installed) + {R.OnRead} && this.target == target
    {
      installed, this.target := installed + {R.OnRead}, target;
    }

    method SetErrorCallback(target: TCPConnection?)
      modifies this`installed, this`target
      ensures installed == old(installed) + {R.OnError} && this.target == target
    {
      installed, this.target := installed + {R.OnError}, target;
    }

    method Update()
      modifies this`status, loop.poll`kernel
      ensures View() == R.Update(old(View()), fd)
    {
      loop.UpdateChannel(this);
    }

    method Remove()
      modifies this`status, loop.poll`kernel
      ensures View() == R.Apply(old(View()), fd, R.Deregister)
    {
      loop.RemoveChannel(this);
    }

    method EnableRead()
      modifies this`status, this`events, loop.poll`kernel
      ensures View() == R.Apply(old(View()), fd, R.EnableRead)
      ensures R.Turns(R.EnableRead, old(events), events)
    {
      hide R.Update, R.Turns;
      R.MaskBits(events, R.EnableRead);
      events := events | R.READ_EVENT;
      Update();
    }

    method EnableWrite()
      modifies this`status, this`events, loop.poll`kernel
      ensures View() == R.Apply(old(View()), fd, R.EnableWrite)
      ensures R.Turns(R.EnableWrite, old(events), events)
    {
      hide R.Update, R.Turns;
      R.MaskBits(events, R.EnableWrite);
      events := events | R.WRITE_EVENT;
      Update();
    }

    method DisableRead()
      modifies this`status, this`events, loop.poll`kernel
      ensures View() == R.Apply(old(View()), fd, R.DisableRead)
      ensures R.Turns(R.DisableRead, old(events), events)
    {
      hide R.Update, R.Turns;
      R.MaskBits(events, R.DisableRead);
      events := events & !R.READ_EVENT;
      Update();
    }

    method DisableWrite()
      modifies this`status, this`events, loop.poll`kernel
      ensures View() == R.Apply(old(View()), fd, R.DisableWrite)
      ensures R.Turns(R.DisableWrite, old(events), events)
    {
      hide R.Update, R.Turns;
      R.MaskBits(events, R.DisableWrite);
      events := events & !R.WRITE_EVENT;
      Update();
    }

    method DisableAll()
      modifies this`status, this`events, loop.poll`kernel
      ensures View() == R.Apply(old(View()), fd, R.DisableAll)
      ensures R.Turns(R.DisableAll, old(events), events)
    {
      events := R.NONE_EVENT;
      Update();
    }

    /** The callbacks that the last report leads to, in order. */
    method HandleEvents() returns (calls: seq<R.Callback>)
      ensures calls == R.Callbacks(revents, installed)
    {
      calls := [];
      if revents & R.EPOLLHUP != 0 && revents & R.EPOLLIN == 0 {
        if R.OnClose in installed {
          calls := [R.OnClose];
        }
        return;
      }
      if revents & R.EPOLLERR != 0 && R.OnError in installed {
        calls := calls + [R.OnError];
      }
      if revents & R.EPOLLIN != 0 && R.OnRead in installed {
        calls := calls + [R.OnRead];
      }
      if revents & R.EPOLLOUT != 0 && R.OnWrite in installed {
        calls := calls + [R.OnWrite];
      }
    }
  }

  /** A callback queued for a loop. */
  datatype Task = NewEvent(conn: TCPConnection) | Other(id: nat)

  type Wakeups = W.State<Task>

  /** What epoll_wait reported, as the protocol sees it. */
  function Seen(active: seq<Channel>, wake: Channel?): (ready: seq<W.Ready>)
    ensures |ready| == |active|
    ensures forall i :: 0 <= i < |active| ==> ready[i] == if active[i] == wake then W.WakeReady else W.OtherReady
  {
    if active == [] then [] else
    Seen(active[..|active| - 1], wake) + [if active[|active| - 1] == wake then W.WakeReady else W.OtherReady]
  }

  lemma SeenWake(active: seq<Channel>, wake: Channel)
    ensures W.WakeReady in Seen(active, wake) <==> wake in active
  {
    forall i | 0 <= i < |active|
      ensures Seen(active, wake)[i] == W.WakeReady <==> active[i] == wake
    {
    }
  }

  lemma SeenRest(active: seq<Channel>, wake: Channel)
    requires active != []
    ensures Seen(active, wake) != [] && (Seen(active, wake)[0] == W.WakeReady <==> active[0] == wake)
    ensures Seen(active[1..], wake) == Seen(active, wake)[1..]
  {
  }

  lemma HandleMeans(s: Wakeups)
    requires W.Enabled(s, W.Handle)
    ensures s.pc.Dispatching? && s.pc.active != [] && W.Step(s, W.Spin) == s
    ensures W.Step(s, W.Handle) ==
            if s.pc.active[0] == W.WakeReady then s.(counter := 0, pc := W.Rearming(s.pc.active))
            else s.(pc := W.Dispatching(s.pc.active[1..]))
  {
  }

  lemma OnlyOther(before: R.Interest, after: R.Interest, changed: int, other: int)
    requires after - {changed} == before - {changed} && changed != other
    ensures other in after <==> other in before
    ensures other in before ==> after[other] == before[other]
  {
    assert other in before <==> other in before - {changed};
    assert other in after <==> other in after - {changed};
  }

  /** A report disarms the wake channel exactly when it is part of it. */
  lemma ReportDisarms(k: R.Kernel, active: seq<Channel>, wake: Channel, armed: bool)
    requires wake.fd in k.interest && k.interest[wake.fd] == R.Registration(R.READ_EVENT, armed)
    requires forall c :: c in active ==> (c == wake <==> c.fd == wake.fd)
    ensures var after := R.Report(k, Descriptors(active)).interest;
            && after.Keys == k.interest.Keys
            && after[wake.fd] == R.Registration(R.READ_EVENT, armed && W.WakeReady !in Seen(active, wake))
  {
    SeenWake(active, wake);
    assert wake.fd in Descriptors(active) <==> wake in active;
  }

  /** The channel of the connection that the next task publishes. */
  function Touched(tasks: seq<Task>, next: nat): set<Channel> {
    if next < |tasks| && tasks[next].NewEvent? then {tasks[next].conn.channel} else {}
  }

  class EventLoop {
    const poll: Epoll
    const wakeUpFd: int
    var wakeUpChannel: Channel?
    var counter: nat                // of the eventfd
    var pending: seq<Task>          // pending_functions_
    var functors: seq<Task>         // local to do_pending_functions, like `next`
    var next: nat
    var handling: bool              // handle_pending_functions
    var active: seq<Channel>        // the rest of active_vector
    var reading: bool               // in the read loop of the first of them, past its error callback
    var connections: map<int, TCPConnection>
    ghost var spec: Wakeups

    /** The channel belongs to this loop, and is not mistaken for its wake channel. */
    predicate Attached(c: Channel)
      reads this`wakeUpChannel
    {
      c.loop == this && (c == wakeUpChannel <==> c.fd == wakeUpFd)
    }

    predicate Runnable(task: Task) {
      task.NewEvent? ==> task.conn.Wired() && task.conn.loop == this && task.conn.fd != wakeUpFd
    }

    /** Fields and state of the protocol say the same. */
    ghost predicate Shows()
      reads this
    {
      && counter == spec.counter && pending == spec.pending && functors == spec.functors
      && handling == spec.handling
      && (spec.pc.Running? ==> next == spec.pc.next)
      && (spec.pc.Dispatching? ==> Seen(active, wakeUpChannel) == spec.pc.active)
      && (spec.pc.Rearming? ==> Seen(active, wakeUpChannel) == spec.pc.active)
      && (forall task :: task in pending ==> Runnable(task))
      && (forall task :: task in functors ==> Runnable(task))
    }

    /** So does the kernel, about the wake channel. */
    ghost predicate WakeRegistered()
      reads this, poll, wakeUpChannel
    {
      && wakeUpChannel != null && Attached(wakeUpChannel)
      && wakeUpChannel.events == R.READ_EVENT && wakeUpChannel.installed == {R.OnRead}
      && wakeUpChannel.status == R.ADD
      && wakeUpFd in poll.kernel.interest
      && poll.kernel.interest[wakeUpFd] == R.Registration(R.READ_EVENT, spec.armed)
    }

    /** A reported wake channel has something to read. */
    ghost predicate WakeReadable()
      reads this, wakeUpChannel
    {
      wakeUpChannel != null && wakeUpChannel in active ==> wakeUpChannel.revents == R.EPOLLIN
    }

    ghost predicate Valid()
      reads this, poll, wakeUpChannel
    {
      Shows() && WakeRegistered() && WakeReadable()
    }

    constructor (fd: int)
      ensures Valid() && spec == W.Init() && fresh(poll) && fresh(wakeUpChannel)
      ensures wakeUpFd == fd && connections == map[] && poll.kernel.faults == 0
      ensures poll.kernel.interest.Keys == {fd} && poll.slots == EVENT_SUM == 4096 && active == [] && !reading
    {
      poll := new Epoll();
      wakeUpFd, connections := fd, map[];
      counter, pending, functors, next, handling, active, reading := 0, [], [], 0, false, [], false;
      spec := W.Init();
      new;
      wakeUpChannel := new Channel(this, fd);
      wakeUpChannel.SetReadCallback(null);
      wakeUpChannel.EnableRead();
    }

    method UpdateChannel(c: Channel)
      requires c.loop == this
      modifies c`status, poll`kernel
      ensures c.View() == R.Update(old(c.View()), c.fd)
    {
      if c.status == R.NEW || c.status == R.DEL {
        c.status := R.ADD;
        poll.EpollAdd(c);
      } else if c.status == R.ADD {
        poll.EpollMod(c);
      }
    }

    method RemoveChannel(c: Channel)
      requires c.loop == this
      modifies c`status, poll`kernel
      ensures c.View() == R.Remove(old(c.View()), c.fd)
      ensures c.status == R.NEW && c.fd !in poll.kernel.interest
    {
      poll.EpollDel(c);
      c.status := R.NEW;
    }

    method Put(conn: TCPConnection)
      modifies this`connections
      ensures connections == Own.Insert(old(connections), conn.fd, conn)
      ensures conn.fd in old(connections) ==> connections == old(connections)
      ensures conn.fd !in old(connections) ==> connections == old(connections)[conn.fd := conn]
    {
      if conn.fd !in connections {
        connections := connections[conn.fd := conn];
      }
    }

    method Erase(fd: int)
      modifies this`connections
      ensures connections == old(connections) - {fd}
    {
      if fd in connections {
        connections := connections - {fd};
      }
    }

    // ---------- The wakeup protocol ----------

    /** queue_in_loop under the mutex; `own` says that the loop's thread calls it. */
    method Queue(task: Task, own: bool)
      requires Valid() && Runnable(task)
      requires W.Enabled(spec, if own then W.OwnPush(task) else W.Push(task))
      modifies this`pending, this`spec
      ensures Valid() && spec == W.Step(old(spec), if own then W.OwnPush(task) else W.Push(task))
    {
      pending := pending + [task];
      spec := W.Step(spec, if own then W.OwnPush(task) else W.Push(task));
    }

    /** wake_up_cur_thread, outside the mutex. */
    method WakeUp(own: bool)
      requires Valid() && W.Enabled(spec, if own then W.OwnWrite else W.Write)
      modifies this`counter, this`spec
      ensures Valid() && spec == W.Step(old(spec), if own then W.OwnWrite else W.Write)
    {
      counter := W.Bump(counter);
      spec := W.Step(spec, if own then W.OwnWrite else W.Write);
    }

    method Start()
      requires Valid() && W.Enabled(spec, W.Start)
      modifies this`spec
      ensures Valid() && spec == W.Step(old(spec), W.Start)
    {
      spec := W.Step(spec, W.Start);
    }

    /** What epoll_wait may answer. */
    ghost predicate Reportable(reports: seq<Report>)
      reads this, poll
    {
      && |reports| <= poll.slots && Distinct(Channels(reports))
      && (forall r :: r in reports ==> Attached(r.channel) && r.channel.fd in poll.kernel.interest
                                       && R.Delivered(poll.kernel.interest[r.channel.fd].mask, r.revents)
                                       && (r.channel == wakeUpChannel ==> r.revents == R.EPOLLIN))
    }

    method PollReturns(reports: seq<Report>)
      requires Valid() && Reportable(reports)
      requires W.Enabled(spec, W.Poll(Seen(Channels(reports), wakeUpChannel)))
      modifies this`active, this`spec, poll, (set r | r in reports :: r.channel)`revents
      ensures Valid() && spec == W.Step(old(spec), W.Poll(Seen(Channels(reports), wakeUpChannel)))
      ensures active == Channels(reports) && forall r :: r in reports ==> r.channel.revents == r.revents
      ensures poll.kernel == R.Report(old(poll.kernel), Descriptors(active))
      ensures poll.kernel.interest.Keys == old(poll.kernel.interest.Keys)
      ensures poll.slots == if |reports| == old(poll.slots) then 2 * old(poll.slots) else old(poll.slots)
    {
      hide R.Report, R.Delivered, Descriptors, Seen, Channels, Distinct, W.CanReport;
      ReportDisarms(poll.kernel, Channels(reports), wakeUpChannel, spec.armed);
      SeenWake(Channels(reports), wakeUpChannel);
      active := poll.Poll(reports);
      spec := W.Step(spec, W.Poll(Seen(active, wakeUpChannel)));
    }

    /** The channel's callbacks are those of a connection of this loop. */
    predicate Bound(c: Channel)
      reads c, this`wakeUpChannel
    {
      && c.target != null && c.target.Wired() && c.target.channel == c && c.target.loop == this
      && c != wakeUpChannel && c.fd != wakeUpFd && c.installed == R.CONNECTION_CALLBACKS
    }

    /** The next channel of the batch is the wake channel: the read of wake_up_response. */
    method HandleWake()
      requires Valid() && W.Enabled(spec, W.Handle) && active != [] && active[0] == wakeUpChannel
      modifies this`counter, this`spec
      ensures Valid() && spec == W.Step(old(spec), W.Handle) && counter == 0
    {
      SeenRest(active, wakeUpChannel);
      var calls := active[0].HandleEvents();
      assert calls == [R.OnRead];
      counter := 0;
      spec := W.Step(spec, W.Handle);
    }

    /**
      The next channel of the batch is a connection's: its callbacks, with the answers that
      read(2) gives. The handler is not done while the answers have not settled it.
     */
    method HandleConnection(item: Channel, answers: seq<R.Received>) returns (done: bool)
      requires Valid() && W.Enabled(spec, W.Handle) && active != [] && item == active[0]
      requires item != wakeUpChannel && Bound(item)
      modifies this`active, this`reading, this`spec, this`connections, poll`kernel, item`status, item`events, item.target
      ensures Valid() && spec == W.Step(old(spec), if done then W.Handle else W.Spin)
      ensures done <==> item.revents & R.EPOLLIN == 0 || R.Outcome(answers) != R.Error
      ensures active == (if done then old(active)[1..] else old(active)) && reading == !done
      ensures item.target.offered == old(item.target.offered) + Copies(
                (if !old(reading) && item.revents & R.EPOLLERR != 0 && (item.revents & R.EPOLLHUP == 0 || item.revents & R.EPOLLIN != 0)
                 then 1 else 0) +
                (if item.revents & R.EPOLLIN != 0 && R.Outcome(answers) == R.Data then 1 else 0))
      ensures item.target.state == if item.revents & R.EPOLLIN != 0 && R.Outcome(answers) == R.PeerClosed then DISCONNECTED
                                   else old(item.target.state)
      ensures if item.revents & R.EPOLLIN == 0 then
                item.View() == old(item.View()) && connections == old(connections)
              else
                && item.View() == R.AfterRead(old(item.View()), item.fd, R.Outcome(answers))
                && connections == if R.Outcome(answers) == R.PeerClosed then old(connections) - {item.fd} else old(connections)
    {
      hide W.Step, W.Enabled, Seen, R.AfterRead, Bound, Copies;
      ghost var before := poll.kernel.interest;
      BoundElsewhere(item);
      var conn := item.target;
      done := Respond(item, answers);
      OnlyOther(before, poll.kernel.interest, item.fd, wakeUpFd);
      assert Valid();
      hide Valid;
      MoveOn(done);
    }

    /** The batch moves on when the handler of its first channel, a connection's, is done. */
    method MoveOn(done: bool)
      requires Valid() && W.Enabled(spec, W.Handle) && active != [] && active[0] != wakeUpChannel
      modifies this`active, this`reading, this`spec
      ensures Valid() && spec == W.Step(old(spec), if done then W.Handle else W.Spin)
      ensures active == (if done then old(active)[1..] else old(active)) && reading == !done
    {
      hide W.Step, W.Enabled, Seen;
      SeenRest(active, wakeUpChannel);
      HandleMeans(spec);
      if done {
        active := active[1..];
      }
      reading := !done;
      spec := W.Step(spec, if done then W.Handle else W.Spin);
    }

    lemma BoundElsewhere(item: Channel)
      requires Bound(item)
      ensures item != wakeUpChannel && item.fd != wakeUpFd && item.target != null
    {
    }

    /**
      The callbacks of a connection's channel. The peer is offered an answer for an error,
      once, and one when a read finds data; a read that finds the end disconnects.
     */
    method Respond(item: Channel, answers: seq<R.Received>) returns (done: bool)
      requires Bound(item)
      modifies this`connections, poll`kernel, item`status, item`events, item.target
      ensures done <==> item.revents & R.EPOLLIN == 0 || R.Outcome(answers) != R.Error
      ensures item.target.offered == old(item.target.offered) + Copies(
                (if !reading && item.revents & R.EPOLLERR != 0 && (item.revents & R.EPOLLHUP == 0 || item.revents & R.EPOLLIN != 0)
                 then 1 else 0) +
                (if item.revents & R.EPOLLIN != 0 && R.Outcome(answers) == R.Data then 1 else 0))
      ensures item.target.state == if item.revents & R.EPOLLIN != 0 && R.Outcome(answers) == R.PeerClosed then DISCONNECTED
                                   else old(item.target.state)
      ensures poll.kernel.interest - {item.fd} == old(poll.kernel.interest) - {item.fd}
      ensures if item.revents & R.EPOLLIN == 0 then
                item.View() == old(item.View()) && connections == old(connections)
              else
                && item.View() == R.AfterRead(old(item.View()), item.fd, R.Outcome(answers))
                && connections == if R.Outcome(answers) == R.PeerClosed then old(connections) - {item.fd} else old(connections)
    {
      hide R.AfterRead, R.Callbacks, Answer;
      R.ReadIff(item.revents);
      done := true;
      var calls := item.HandleEvents();
      if R.OnError in calls && !reading {
        item.target.HandleErr();
      }
      if R.OnRead in calls {
        R.AfterReadIsLocal(item.View(), item.fd, R.Outcome(answers));
        done := item.target.HandleRead(answers);
      }
    }

    /** The rest of wake_up_response. */
    method Rearm()
      requires Valid() && W.Enabled(spec, W.Rearm)
      modifies this`active, this`spec, wakeUpChannel`status, wakeUpChannel`events, poll`kernel
      ensures Valid() && wakeUpChannel == old(wakeUpChannel) && spec == W.Step(old(spec), W.Rearm)
      ensures wakeUpChannel.View() == R.Apply(old(wakeUpChannel.View()), wakeUpFd, R.EnableRead)
      ensures active == if old(active) == [] then [] else old(active)[1..]
      ensures poll.kernel.interest.Keys == old(poll.kernel.interest.Keys) && poll.slots == old(poll.slots)
    {
      wakeUpChannel.EnableRead();
      active := if active == [] then [] else active[1..];
      spec := W.Step(spec, W.Rearm);
    }

    method Finish()
      requires Valid() && W.Enabled(spec, W.Finish)
      modifies this`handling, this`spec
      ensures Valid() && spec == W.Step(old(spec), W.Finish)
    {
      handling := true;
      spec := W.Step(spec, W.Finish);
    }

    method Swap()
      requires Valid() && W.Enabled(spec, W.Swap)
      modifies this`pending, this`functors, this`next, this`spec
      ensures Valid() && spec == W.Step(old(spec), W.Swap)
    {
      functors, pending, next := pending, [], 0;
      spec := W.Step(spec, W.Swap);
    }

    method End()
      requires Valid() && W.Enabled(spec, W.End)
      modifies this`handling, this`spec
      ensures Valid() && spec == W.Step(old(spec), W.End)
    {
      handling := false;
      spec := W.Step(spec, W.End);
    }

    /** Runs the next task: a connection handed to this loop is published and watched. */
    method RunNext()
      requires Valid() && W.Enabled(spec, W.Run)
      modifies this`next, this`spec, this`connections, poll`kernel
      modifies Touched(functors, next)`status, Touched(functors, next)`events
      ensures Valid() && spec == W.Step(old(spec), W.Run)
      ensures old(next < |functors|)
      ensures match old(functors[next])
              case NewEvent(conn) =>
                && connections == Own.Insert(old(connections), conn.fd, conn)
                && conn.channel.View() == R.Apply(old(functors[next].conn.channel.View()), conn.fd, R.EnableRead)
              case Other(_) => connections == old(connections) && poll.kernel == old(poll.kernel)
    {
      var task := functors[next];
      assert task in functors;
      if task.NewEvent? {
        assert task.conn.channel in Touched(functors, next);
        ghost var before := task.conn.channel.View();
        task.conn.NewEvent();
        R.ApplyIsLocal(before, task.conn.fd, R.EnableRead);
      }
      next := next + 1;
      spec := W.Step(spec, W.Run);
    }
  }

  const BODY: string :=
    "<html><title> error </title>" + "<body bgcolor=\"ffffff\">" + "200" + "<hr><em>Web Server</em>\n</body></html>"

  function Headers(): seq<string> {
    ["HTTP/1.0 200 ok", "Content-type:text/plain", "Connection:Close",
     LENGTH_IS + Decimal.Render(|BODY|), "Server: Shoot Web Server"]
  }

  function Lines(lines: seq<string>): string {
    if lines == [] then "" else lines[0] + "\r\n" + Lines(lines[1..])
  }

  /** What every request is answered with. */
  function Answer(): string {
    Lines(Headers()) + "\r\n" + BODY
  }

  /** The answer, `n` times. */
  function Copies(n: nat): (r: seq<string>)
    ensures |r| == n && forall k :: 0 <= k < n ==> r[k] == Answer()
  {
    seq(n, _ => Answer())
  }

  lemma MoreCopies(a: nat, b: nat)
    ensures Copies(a) + Copies(b) == Copies(a + b)
  {
    hide Answer;
  }

  const SEND_BUFFER := 4096

  lemma {:induction false} LinesLength(lines: seq<string>, max: nat)
    requires forall k :: 0 <= k < |lines| ==> |lines[k]| <= max
    ensures |Lines(lines)| <= |lines| * (max + 2)
  {
    if lines != [] {
      LinesLength(lines[1..], max);
    }
  }

  /** A header line is not blank and does not end early. */
  predicate OneLine(line: string) {
    line != "" && '\r' !in line && '\n' !in line
  }

  const LENGTH_IS: string := "Content-Length: "

  /** What the answer declares as the length of its body. */
  predicate Declares(line: string, length: nat) {
    && |line| > 16 && line[..16] == LENGTH_IS
    && Decimal.Canonical(line[16..]) && Decimal.Parse(line[16..]) == length
  }

  lemma LengthLine(n: nat)
    ensures Declares(LENGTH_IS + Decimal.Render(n), n) && OneLine(LENGTH_IS + Decimal.Render(n))
  {
    var s := Decimal.Render(n);
    Decimal.RoundTrip(n);
    assert (LENGTH_IS + s)[..16] == LENGTH_IS && (LENGTH_IS + s)[16..] == s;
    forall k | 0 <= k < |s|
      ensures s[k] != '\r' && s[k] != '\n'
    {
      assert Decimal.IsDigit(s[k]);
    }
  }

  /** The answer starts with its status line. */
  lemma StatusLine()
    ensures |Answer()| > 17 && Answer()[..17] == "HTTP/1.0 200 ok\r\n" && |BODY| == 92
  {
    hide Decimal.Render;
    var hs := Headers();
    assert Lines(hs) == hs[0] + "\r\n" + Lines(hs[1..]);
    assert (hs[0] + "\r\n")[..17] == "HTTP/1.0 200 ok\r\n";
  }

  lemma StatusAndType()
    ensures OneLine("HTTP/1.0 200 ok") && OneLine("Content-type:text/plain")
  {
  }

  lemma ConnectionAndServer()
    ensures OneLine("Connection:Close") && OneLine("Server: Shoot Web Server")
  {
  }

  lemma AnswerFits()
    ensures |Answer()| < SEND_BUFFER
  {
    Decimal.SixtyFourBitLength(|BODY|);
    hide Decimal.Render, Lines;
    LinesLength(Headers(), 40);
  }

  /**
    The answer is a complete message: the length it declares, read back, is that of what
    follows the blank line, no header line is blank, and it fits the buffer it is sent from.
   */
  lemma AnswerIsComplete()
    ensures Answer() == Lines(Headers()) + "\r\n" + BODY && |Answer()| < SEND_BUFFER
    ensures exists line :: line in Headers() && Declares(line, |BODY|)
    ensures forall k :: 0 <= k < |Headers()| ==> OneLine(Headers()[k])
    ensures |Answer()| > 17 && Answer()[..17] == "HTTP/1.0 200 ok\r\n" && |BODY| == 92
  {
    StatusLine();
    LengthLine(|BODY|);
    StatusAndType();
    ConnectionAndServer();
    AnswerFits();
    hide OneLine, Declares, Decimal.Render, Lines;
    assert Headers()[3] in Headers();
  }

  datatype ConnectionState = CONNECTED | CONNECTING | DISCONNECTING | DISCONNECTED

  class TCPConnection {
    const loop: EventLoop
    const channel: Channel
    const fd: int
    var state: ConnectionState
    var offered: seq<string>    // what was passed to write(2); the code ignores its result

    /** Which fields of which objects belong together. */
    predicate Wired() {
      channel.loop == loop && channel.fd == fd
    }

    constructor (loop: EventLoop, fd: int)
      ensures Wired() && this.loop == loop && this.fd == fd && state == CONNECTED && offered == [] && fresh(channel)
      ensures channel.status == R.NEW && channel.events == R.NONE_EVENT
      ensures channel.installed == R.CONNECTION_CALLBACKS && channel.target == this
    {
      this.loop, this.fd, state, offered := loop, fd, CONNECTING, [];
      channel := new Channel(loop, fd);
      new;
      channel.SetReadCallback(this);
      channel.SetErrorCallback(this);
      state := CONNECTED;
    }

    method HandleErr()
      modifies this`offered
      ensures offered == old(offered) + [Answer()]
    {
      offered := offered + [Answer()];
    }

    method NewEvent()
      requires Wired()
      modifies loop`connections, channel`status, channel`events, loop.poll`kernel
      ensures channel.View() == R.Apply(old(channel.View()), fd, R.EnableRead)
      ensures loop.connections == Own.Insert(old(loop.connections), fd, this)
    {
      loop.Put(this);
      channel.EnableRead();
    }

    method HandleClose()
      requires Wired()
      modifies this`state, loop`connections, channel`status, channel`events, loop.poll`kernel
      ensures state == DISCONNECTED && loop.connections == old(loop.connections) - {fd}
      ensures channel.View() == R.Apply(R.Apply(old(channel.View()), fd, R.DisableAll), fd, R.Deregister)
    {
      state := DISCONNECTED;
      channel.DisableAll();
      DestroyConn();
    }

    method DestroyConn()
      requires Wired()
      modifies this`state, loop`connections, channel`status, channel`events, loop.poll`kernel
      ensures loop.connections == old(loop.connections) - {fd}
      ensures state == if old(state) == CONNECTED then DISCONNECTED else old(state)
      ensures var off := if old(state) == CONNECTED then R.Apply(old(channel.View()), fd, R.DisableAll) else old(channel.View());
              channel.View() == R.Apply(off, fd, R.Deregister)
    {
      if state == CONNECTED {
        state := DISCONNECTED;
        channel.DisableAll();
      }
      channel.Remove();
      loop.Erase(fd);
    }

    /**
      Reads until the peer has sent something or has gone. Any error, not only EAGAIN,
      means another turn; `settled` is false if the answers run out before that.
     */
    method HandleRead(answers: seq<R.Received>) returns (settled: bool)
      requires Wired()
      modifies this, loop`connections, channel`status, channel`events, loop.poll`kernel
      ensures settled <==> R.Outcome(answers) != R.Error
      ensures channel.View() == R.AfterRead(old(channel.View()), fd, R.Outcome(answers))
      ensures state == if R.Outcome(answers) == R.PeerClosed then DISCONNECTED else old(state)
      ensures offered == if R.Outcome(answers) == R.Data then old(offered) + [Answer()] else old(offered)
      ensures loop.connections == if R.Outcome(answers) == R.PeerClosed then old(loop.connections) - {fd} else old(loop.connections)
    {
      hide R.Apply;
      for i := 0 to |answers|
        invariant R.Outcome(answers[i..]) == R.Outcome(answers)
        invariant channel.View() == old(channel.View()) && state == old(state) && offered == old(offered)
        invariant loop.connections == old(loop.connections)
      {
        match answers[i]
        case Data =>
          HandleErr();
          channel.EnableRead();
          return true;
        case PeerClosed =>
          HandleClose();
          return true;
        case Error =>
      }
      settled := false;
    }
  }

  /**
    A connection's whole life on its loop, whatever it received in between, leaves the
    kernel and the connection map as they were and makes no call that epoll_ctl refuses.
   */
  method Lifetime(loop: EventLoop, fd: int, visits: seq<seq<R.Received>>) returns (conn: TCPConnection)
    requires fd !in loop.connections && fd !in loop.poll.kernel.interest
    requires forall v :: v in visits ==> R.Outcome(v) == R.Data
    modifies loop`connections, loop.poll`kernel
    ensures loop.connections == old(loop.connections) && loop.poll.kernel == old(loop.poll.kernel)
    ensures conn.state == DISCONNECTED && conn.channel.status != R.ADD
  {
    hide R.Apply;
    conn := new TCPConnection(loop, fd);
    R.ApplyAgrees(conn.channel.View(), fd, R.EnableRead);
    conn.NewEvent();
    for i := 0 to |visits|
      invariant conn.channel.status == R.ADD && R.Agrees(conn.channel.View().channel, loop.poll.kernel.interest, fd)
      invariant loop.poll.kernel.interest - {fd} == old(loop.poll.kernel.interest) - {fd}
      invariant loop.poll.kernel.faults == old(loop.poll.kernel.faults)
      invariant loop.connections - {fd} == old(loop.connections) - {fd}
    {
      R.ApplyAgrees(conn.channel.View(), fd, R.EnableRead);
      var settled := conn.HandleRead(visits[i]);
    }
    R.ApplyAgrees(conn.channel.View(), fd, R.DisableAll);
    R.ApplyAgrees(R.Apply(conn.channel.View(), fd, R.DisableAll), fd, R.Deregister);
    var settled := conn.HandleRead([R.PeerClosed]);
    assert loop.poll.kernel.interest == loop.poll.kernel.interest - {fd};
    assert old(loop.poll.kernel.interest) == old(loop.poll.kernel.interest) - {fd};
    assert old(loop.connections) == old(loop.connections) - {fd};
  }
}

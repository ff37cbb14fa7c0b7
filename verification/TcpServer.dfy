/** The accepting side: the pool of loops and the handler of the listening socket. */
module TcpServers {
  import R = RegistrationSpec
  import W = EventLoopSpec
  import Own = OwnershipSpec
  import opened RoundRobin
  import opened Reactor

  class EventLoopPool {
    const baseLoop: EventLoop
    const loops: seq<EventLoop>
    var next: nat
    ghost var calls: nat

    ghost predicate Valid()
      reads this
    {
      if loops == [] then next == 0 else next == calls % |loops|
    }

    constructor (baseLoop: EventLoop, loops: seq<EventLoop>)
      ensures Valid() && calls == 0 && next == 0 && this.baseLoop == baseLoop && this.loops == loops
    {
      this.baseLoop, this.loops, next, calls := baseLoop, loops, 0, 0;
    }

    /** The calls go round the loops; without loops the base loop serves. */
    method GetNextLoop() returns (loop: EventLoop)
      requires Valid()
      modifies this
      ensures Valid() && calls == old(calls) + 1
      ensures next == NextIndex(old(next), |loops|)
      ensures loop == if loops == [] then baseLoop else loops[old(calls) % |loops|]
    {
      loop := baseLoop;
      if loops != [] {
        Successor(calls, |loops|);
        loop := loops[next];
        next := (next + 1) % |loops|;
      }
      calls := calls + 1;
    }
  }

  class TCPServer {
    const loop: EventLoop
    const pool: EventLoopPool
    const acceptChannel: Channel
    var open: set<int>     // the descriptors that accept returned and nobody has closed

    /** The worker loops are their own objects, and so are the server's. */
    ghost predicate Separate()
    {
      && pool.baseLoop == loop && acceptChannel.loop == loop && acceptChannel.fd != loop.wakeUpFd
      && (forall l :: l in pool.loops ==> l != loop && l.poll != loop.poll)
    }

    ghost predicate Valid()
      reads *
    {
      && Separate() && pool.Valid() && loop.Valid()
      && R.Agrees(acceptChannel.View().channel, loop.poll.kernel.interest, acceptChannel.fd)
      && acceptChannel != loop.wakeUpChannel
      && (forall l :: l in pool.loops ==> l.Valid())
    }

    /** The new descriptor is none of those already in use. */
    ghost predicate Unused(fd: int)
    {
      && fd != acceptChannel.fd && fd != loop.wakeUpFd
      && (forall l :: l in pool.loops ==> fd != l.wakeUpFd)
    }

    /** The loop that the next connection goes to. */
    ghost function Chosen(): EventLoop
      reads pool
    {
      if pool.loops == [] then loop else pool.loops[pool.calls % |pool.loops|]
    }

    constructor (loop: EventLoop, loops: seq<EventLoop>, listenFd: int)
      requires loop.Valid() && listenFd != loop.wakeUpFd && listenFd !in loop.poll.kernel.interest
      requires forall l :: l in loops ==> l.Valid() && l != loop && l.poll != loop.poll
      ensures Valid() && this.loop == loop && pool.loops == loops && fresh(pool) && fresh(acceptChannel)
      ensures pool.calls == 0 && acceptChannel.fd == listenFd && acceptChannel.status == R.NEW
      ensures open == {} && pool.next == 0 && acceptChannel.installed == {R.OnRead}
    {
      this.loop, open := loop, {};
      pool := new EventLoopPool(loop, loops);
      acceptChannel := new Channel(loop, listenFd);
      new;
      acceptChannel.SetReadCallback(null);
    }

    /** Arms the accept channel: when the server starts, and after each connection. */
    method Rearm()
      requires Valid()
      modifies acceptChannel, loop.poll`kernel
      ensures Valid()
      ensures acceptChannel.View() == R.Apply(old(acceptChannel.View()), acceptChannel.fd, R.EnableRead)
      ensures acceptChannel.fd in loop.poll.kernel.interest && loop.poll.kernel.interest[acceptChannel.fd].armed
      ensures R.Asks(loop.poll.kernel.interest[acceptChannel.fd].mask, R.EPOLLIN)
      ensures loop.poll.kernel.interest - {acceptChannel.fd} == old(loop.poll.kernel.interest) - {acceptChannel.fd}
    {
      hide R.Apply, R.Asks, W.Step;
      R.ApplyAgrees(acceptChannel.View(), acceptChannel.fd, R.EnableRead);
      R.AsksFor(acceptChannel.View(), acceptChannel.fd, R.EnableRead);
      ghost var before := loop.poll.kernel.interest;
      acceptChannel.EnableRead();
      OnlyOther(before, loop.poll.kernel.interest, acceptChannel.fd, loop.wakeUpFd);
    }

    /** A turn of the pool. */
    method Choose() returns (next: EventLoop)
      requires Valid()
      modifies pool
      ensures Valid() && pool.calls == old(pool.calls) + 1
      ensures pool.next == NextIndex(old(pool.next), |pool.loops|)
      ensures next == old(Chosen())
    {
      next := pool.GetNextLoop();
    }

    /** The base loop has no workers: it publishes and watches the connection at once. */
    method Serve(fd: int) returns (conn: TCPConnection)
      requires Valid() && Unused(fd)
      modifies loop`connections, loop.poll`kernel
      ensures Valid() && conn.Wired() && conn.fd == fd && conn.loop == loop && fresh(conn)
      ensures fd in loop.poll.kernel.interest
      ensures fd !in old(loop.poll.kernel.interest) ==> loop.poll.kernel.interest[fd] == R.Registration(R.READ_EVENT, true)
      ensures loop.connections == Own.Insert(old(loop.connections), fd, conn)
    {
      hide R.Apply, W.Step;
      conn := new TCPConnection(loop, fd);
      R.ApplyIsLocal(conn.channel.View(), fd, R.EnableRead);
      ghost var before := loop.poll.kernel.interest;
      conn.NewEvent();
      OnlyOther(before, loop.poll.kernel.interest, fd, loop.wakeUpFd);
      OnlyOther(before, loop.poll.kernel.interest, fd, acceptChannel.fd);
    }

    /** queue_in_loop, from the accepting thread to a worker. */
    method HandOver(to: EventLoop, fd: int) returns (conn: TCPConnection)
      requires Valid() && Unused(fd) && to in pool.loops
      modifies to`pending, to`counter, to`spec
      ensures Valid() && conn.Wired() && conn.fd == fd && conn.loop == to && fresh(conn)
      ensures to.spec == W.Step(W.Step(old(to.spec), W.Push(NewEvent(conn))), W.Write)
    {
      conn := new TCPConnection(to, fd);
      hide W.Step, EventLoop.Valid;
      Push(to, conn);
    }

    method Push(to: EventLoop, conn: TCPConnection)
      requires to.Valid() && to.Runnable(NewEvent(conn))
      modifies to`pending, to`counter, to`spec
      ensures to.Valid() && to.spec == W.Step(W.Step(old(to.spec), W.Push(NewEvent(conn))), W.Write)
    {
      to.Queue(NewEvent(conn), false);
      to.WakeUp(false);
    }

    /** run_in_loop with the new connection's first event. */
    method Welcome(to: EventLoop, fd: int) returns (conn: TCPConnection)
      requires Valid() && Unused(fd) && (to == loop || to in pool.loops)
      modifies loop`connections, loop.poll`kernel, to`pending, to`counter, to`spec
      ensures Valid() && conn.Wired() && conn.fd == fd && conn.loop == to && fresh(conn)
      ensures to == loop ==>
                && fd in loop.poll.kernel.interest && loop.connections == Own.Insert(old(loop.connections), fd, conn)
                && (fd !in old(loop.poll.kernel.interest) ==>
                      loop.poll.kernel.interest[fd] == R.Registration(R.READ_EVENT, true))
      ensures to != loop ==>
                && to.spec == W.Step(W.Step(old(to.spec), W.Push(NewEvent(conn))), W.Write)
                && loop.connections == old(loop.connections) && loop.poll.kernel == old(loop.poll.kernel)
    {
      hide Valid, W.Step, Own.Insert;
      if to == loop {
        conn := Serve(fd);
      } else {
        conn := HandOver(to, fd);
      }
    }

    // ---------- accept(2), close(2) and fcntl(2) on a connection's descriptor ----------

    method Accept(fd: int)
      requires Valid()
      modifies this`open
      ensures Valid() && open == if fd < 0 then old(open) else old(open) + {fd}
    {
      if fd >= 0 {
        open := open + {fd};
      }
    }

    method Close(fd: int)
      requires Valid()
      modifies this`open
      ensures Valid() && open == old(open) - {fd}
    {
      open := open - {fd};
    }

    /** fcntl fails on a descriptor that is not open; `permitted` says what it does otherwise. */
    method SetNonBlocking(fd: int, permitted: bool) returns (r: int)
      ensures r == if fd in open && permitted then 0 else -1
    {
      r := if fd in open && permitted then 0 else -1;
    }

    /** Everything that happens to a descriptor that accept returned: null if it is refused. */
    method Admit(fd: int, permitted: bool) returns (conn: TCPConnection?)
      requires Valid() && Unused(fd) && fd in open
      modifies this`open, pool, loop.poll`kernel, loop`connections
      modifies Chosen()`pending, Chosen()`counter, Chosen()`spec
      ensures Valid() && pool.calls == old(pool.calls) + 1 && pool.next == NextIndex(old(pool.next), |pool.loops|)
      ensures open == if fd >= Own.MAXFDS then old(open) - {fd} else old(open)
      ensures conn == null <==> fd >= Own.MAXFDS || !permitted
      ensures conn == null ==>
                && loop.connections == old(loop.connections) && loop.poll.kernel == old(loop.poll.kernel)
                && old(Chosen()).spec == old(Chosen().spec)
      ensures conn != null ==> conn.Wired() && conn.fd == fd && conn.loop == old(Chosen())
      ensures conn != null && old(Chosen()) == loop ==>
                && fd in loop.poll.kernel.interest && loop.connections == Own.Insert(old(loop.connections), fd, conn)
                && (fd !in old(loop.poll.kernel.interest) ==>
                      loop.poll.kernel.interest[fd] == R.Registration(R.READ_EVENT, true))
      ensures conn != null && old(Chosen()) != loop ==>
                && old(Chosen()).spec == W.Step(W.Step(old(Chosen().spec), W.Push(NewEvent(conn))), W.Write)
                && loop.connections == old(loop.connections) && loop.poll.kernel == old(loop.poll.kernel)
    {
      ChosenIsSeparate();
      hide Valid, W.Step, Own.Insert;
      var next := Choose();
      if fd >= Own.MAXFDS {
        Close(fd);
      }
      var r := SetNonBlocking(fd, permitted);
      if r < 0 {
        return null;
      }
      conn := Welcome(next, fd);
    }

    /** The server, next to what OwnershipSpec says about it. */
    ghost predicate Matches(m: Own.Server)
      reads this, pool
    {
      && open == m.open && pool.next == m.next
      && m.inline == (pool.loops == []) && |m.loops| == (if pool.loops == [] then 1 else |pool.loops|)
    }

    /** The loop with this index. */
    ghost function LoopAt(i: nat): EventLoop {
      if i < |pool.loops| then pool.loops[i] else loop
    }

    /**
      `acceptFd` is what accept(2) returned; `permitted` says whether fcntl(2) would succeed
      on an open descriptor. The handler is the accept step of OwnershipSpec: it opens,
      closes and hands over what that step does, and arms the accept channel, which has just
      been reported, exactly if that step leaves it armed.
     */
    method HandleNewConn(acceptFd: int, permitted: bool, ghost m: Own.Server) returns (conn: TCPConnection?)
      requires Valid() && Unused(acceptFd)
      requires Matches(m) && Own.Dealt(m) && Own.Enabled(m, Own.Accept(acceptFd, permitted))
      requires acceptChannel.fd in loop.poll.kernel.interest && !loop.poll.kernel.interest[acceptChannel.fd].armed
      modifies this`open, pool, acceptChannel, loop.poll`kernel, loop`connections
      modifies Chosen()`pending, Chosen()`counter, Chosen()`spec
      ensures Valid() && pool.calls == old(pool.calls) + if acceptFd > 0 then 1 else 0
      ensures var t := Own.Step(m, Own.Accept(acceptFd, permitted));
              && Matches(t)
              && acceptChannel.fd in loop.poll.kernel.interest
              && loop.poll.kernel.interest[acceptChannel.fd].armed == t.armed
              && (t.armed ==> R.Asks(loop.poll.kernel.interest[acceptChannel.fd].mask, R.EPOLLIN))
              && t.handed == m.handed + (if conn != null then [Own.Conn(|m.handed|, conn.fd, m.next)] else [])
      // a new connection belongs to the chosen loop
      ensures conn != null ==> conn.Wired() && conn.fd == acceptFd && conn.loop == old(Chosen()) == LoopAt(m.next)
      ensures conn == null ==> loop.connections == old(loop.connections) && old(Chosen()).spec == old(Chosen().spec)
      ensures conn != null && pool.loops != [] ==>
                && old(Chosen()).spec == W.Step(W.Step(old(Chosen().spec), W.Push(NewEvent(conn))), W.Write)
                && loop.connections == old(loop.connections)
      ensures conn != null && pool.loops == [] ==>
                && acceptFd in loop.poll.kernel.interest
                && (acceptFd !in old(loop.poll.kernel.interest) ==>
                      loop.poll.kernel.interest[acceptFd] == R.Registration(R.READ_EVENT, true))
                && loop.connections == Own.Insert(old(loop.connections), acceptFd, conn)
    {
      hide Valid, W.Step, R.Apply, R.Asks, Own.Step, Own.Enabled, Own.Dealt, Own.Insert;
      ChosenIsSeparate();
      AcceptMeans(m, acceptFd, permitted);
      conn := null;
      Accept(acceptFd);
      if acceptFd > 0 {
        conn := Admit(acceptFd, permitted);
        if conn == null {
          return;
        }
      }
      ghost var before := loop.poll.kernel.interest;
      Rearm();
      OnlyOther(before, loop.poll.kernel.interest, acceptChannel.fd, acceptFd);
    }

    /** The accept step, case by case. */
    lemma AcceptMeans(m: Own.Server, fd: int, permitted: bool)
      requires Own.Dealt(m) && Own.Enabled(m, Own.Accept(fd, permitted))
      ensures m.armed && fd !in m.open && m.next < |m.loops|
      ensures var t, refused := Own.Step(m, Own.Accept(fd, permitted)), fd >= Own.MAXFDS || !permitted;
              && t.inline == m.inline && |t.loops| == |m.loops|
              && t.next == (if fd > 0 then NextIndex(m.next, |m.loops|) else m.next)
              && t.open == (if fd < 0 || fd >= Own.MAXFDS then m.open else m.open + {fd})
              && t.armed == !(fd > 0 && refused)
              && t.handed == m.handed + if fd > 0 && !refused then [Own.Conn(|m.handed|, fd, m.next)] else []
    {
    }

    lemma ChosenIsSeparate()
      requires Valid()
      ensures pool.loops == [] ==> Chosen() == loop && pool.next == 0
      ensures pool.loops != [] ==> Chosen() in pool.loops && Chosen() != loop
      ensures Chosen() == LoopAt(pool.next)
    {
    }
  }
}

/**
  Who holds an open connection. The accepting thread chooses a loop and hands the new
  connection to it; the loop's thread publishes it in its map, watches it, and, when the
  peer is gone, stops watching it and drops it; the last reference closes the descriptor,
  whose number the kernel may then give to the next connection.

  A schedule is any sequence of thread turns; a turn that is not possible does nothing.
 */
module OwnershipSpec {
  import opened RoundRobin

  const MAXFDS := 100000

  /** One TCPConnection object; `id` tells apart two that had the same descriptor. */
  datatype Conn = Conn(id: nat, fd: int, home: nat)

  /** The loop's thread between two calls that other threads can observe. */
  datatype Doing =
    | Idle
    | Arming(conn: Conn)    // new_event: after put, before enable_read
    | Erasing(conn: Conn)   // handle_close: after the channel is removed, before erase

  datatype Loop = Loop(
    queue: seq<Conn>,             // new_event tasks not yet run
    connections: map<int, Conn>,
    watched: map<int, Conn>,      // the epoll set: descriptor to channel pointer
    doing: Doing,
    active: seq<Conn>)            // channel pointers from epoll_wait still to be handled

  datatype Server = Server(
    loops: seq<Loop>,
    inline: bool,          // no worker threads: the base loop takes every connection itself
    next: nat,
    armed: bool,           // the accept channel
    open: set<int>,        // descriptors returned by accept and not yet closed
    closing: set<Conn>,    // dropped by their loop, last reference still held
    leaked: set<int>,      // open, and held by nothing
    handed: seq<Conn>,     // history: every connection made, in order
    clash: bool)           // history: put met a key, or epoll_ctl a descriptor, already there

  datatype Event =
    | Accept(fd: int, nonBlocking: bool)
    | Put(at: nat) | Enable(at: nat)
    | Poll(at: nat, ready: seq<Conn>) | Serve(at: nat)
    | Unwatch(at: nat) | Erase(at: nat)
    | Release(conn: Conn)

  // ---------- One loop ----------

  /** std::unordered_map::insert: an entry that is already there stays. */
  function Insert<V>(m: map<int, V>, fd: int, v: V): map<int, V> {
    if fd in m then m else m[fd := v]
  }

  function PutStep(lp: Loop, c: Conn): Loop {
    lp.(connections := Insert(lp.connections, c.fd, c), doing := Arming(c))
  }

  function EnableStep(lp: Loop, c: Conn): Loop {
    lp.(watched := Insert(lp.watched, c.fd, c), doing := Idle)
  }

  function UnwatchStep(lp: Loop, c: Conn): Loop {
    lp.(watched := lp.watched - {c.fd}, doing := Erasing(c))
  }

  function EraseStep(lp: Loop, c: Conn): Loop {
    lp.(connections := lp.connections - {c.fd}, doing := Idle, active := if lp.active == [] then [] else lp.active[1..])
  }

  predicate Distinct(s: seq<Conn>) {
    forall i, j :: 0 <= i < j < |s| ==> s[i] != s[j]
  }

  predicate CanReport(lp: Loop, ready: seq<Conn>) {
    Distinct(ready) && forall c :: c in ready ==> c.fd in lp.watched && lp.watched[c.fd] == c
  }

  // ---------- The server ----------

  /** accept(2) succeeds and the handler goes on to choose a loop. */
  predicate Admits(e: Event) {
    e.Accept? && e.fd > 0
  }

  /** The handler returns without re-arming the accept channel. */
  predicate Refuses(e: Event) {
    Admits(e) && (e.fd >= MAXFDS || !e.nonBlocking)
  }

  predicate Enabled(s: Server, e: Event) {
    match e
    case Accept(fd, _) => s.armed && fd !in s.open && (s.inline ==> s.loops != [] && s.loops[0].doing.Idle?)
    case Release(c) => c in s.closing
    case _ =>
      e.at < |s.loops| &&
      var lp := s.loops[e.at];
      match e
      case Put(_) => lp.doing.Idle? && lp.active == [] && lp.queue != []
      case Enable(_) => lp.doing.Arming?
      case Poll(_, ready) => lp.doing.Idle? && lp.active == [] && CanReport(lp, ready)
      case Serve(_) => lp.doing.Idle? && lp.active != []
      case Unwatch(_) => lp.doing.Idle? && lp.active != []
      case _ => lp.doing.Erasing?
  }

  function Refuse(s: Server, fd: int): Server {
    var t := s.(next := NextIndex(s.next, |s.loops|), armed := false);
    if fd >= MAXFDS then t else t.(open := s.open + {fd}, leaked := s.leaked + {fd})
  }

  function Admit(s: Server, fd: int): Server {
    var c := Conn(|s.handed|, fd, s.next);
    var t := s.(next := NextIndex(s.next, |s.loops|), open := s.open + {fd}, handed := s.handed + [c]);
    if s.next >= |s.loops| then t else
    var lp := s.loops[s.next];
    if s.inline then
      t.(loops := s.loops[s.next := EnableStep(PutStep(lp, c), c)],
         clash := s.clash || fd in lp.connections || fd in lp.watched)
    else
      t.(loops := s.loops[s.next := lp.(queue := lp.queue + [c])])
  }

  function AcceptStep(s: Server, e: Event): Server
    requires e.Accept?
  {
    if e.fd < 0 then s                                                           // accept failed
    else if e.fd == 0 then s.(open := s.open + {0}, leaked := s.leaked + {0})    // mistaken for a failure
    else if Refuses(e) then Refuse(s, e.fd)
    else Admit(s, e.fd)
  }

  function Step(s: Server, e: Event): Server {
    if !Enabled(s, e) then s else
    match e
    case Accept(_, _) => AcceptStep(s, e)
    case Release(c) => s.(closing := s.closing - {c}, open := s.open - {c.fd})
    case Put(i) =>
      var lp := s.loops[i]; var c := lp.queue[0];
      s.(loops := s.loops[i := PutStep(lp, c).(queue := lp.queue[1..])], clash := s.clash || c.fd in lp.connections)
    case Enable(i) =>
      var lp := s.loops[i];
      s.(loops := s.loops[i := EnableStep(lp, lp.doing.conn)], clash := s.clash || lp.doing.conn.fd in lp.watched)
    case Poll(i, ready) => s.(loops := s.loops[i := s.loops[i].(active := ready)])
    case Serve(i) => s.(loops := s.loops[i := s.loops[i].(active := s.loops[i].active[1..])])
    case Unwatch(i) => s.(loops := s.loops[i := UnwatchStep(s.loops[i], s.loops[i].active[0])])
    case Erase(i) =>
      var lp := s.loops[i]; var c := lp.doing.conn;
      s.(loops := s.loops[i := EraseStep(lp, c)],
         closing := if c.fd in lp.connections then s.closing + {lp.connections[c.fd]} else s.closing)
  }

  function Exec(s: Server, es: seq<Event>): Server {
    if es == [] then s else Step(Exec(s, es[..|es| - 1]), es[|es| - 1])
  }

  const FRESH_LOOP := Loop([], map[], map[], Idle, [])

  /** `workers` worker loops, or the base loop alone. */
  function Init(workers: nat): Server {
    Server(seq(if workers == 0 then 1 else workers, _ => FRESH_LOOP), workers == 0, 0, true, {}, {}, {}, [], false)
  }

  // ---------- Ownership ----------

  datatype Place = Queued(conn: Conn) | Connected(conn: Conn) | Closing(conn: Conn) | Leaked

  type Owners = map<int, Place>

  predicate At(owner: Owners, fd: int, p: Place) {
    fd in owner && owner[fd] == p
  }

  predicate Holds(m: map<int, Conn>, c: Conn) {
    c.fd in m && m[c.fd] == c
  }

  /** `owner` says exactly which connections the loop has queued and which it has published. */
  ghost predicate LoopOwns(lp: Loop, home: nat, owner: Owners) {
    && Distinct(lp.queue)
    && (forall c :: c in lp.queue <==> c.home == home && At(owner, c.fd, Queued(c)))
    && (forall c :: Holds(lp.connections, c) <==> c.home == home && At(owner, c.fd, Connected(c)))
    && (forall fd :: fd in lp.connections ==> lp.connections[fd].fd == fd)
  }

  /** What the kernel and the active list point to is published, hence alive. */
  ghost predicate Watching(lp: Loop) {
    && (forall fd :: fd in lp.watched ==> fd in lp.connections && lp.connections[fd] == lp.watched[fd])
    && (forall fd :: fd in lp.connections ==> lp.connections[fd].fd == fd)
    && (forall fd :: fd in lp.connections && fd !in lp.watched ==> !lp.doing.Idle? && lp.doing.conn.fd == fd)
    && (!lp.doing.Idle? ==> Holds(lp.connections, lp.doing.conn) && lp.doing.conn.fd !in lp.watched)
    && (lp.doing.Erasing? ==> lp.active != [] && lp.active[0] == lp.doing.conn)
    && Distinct(lp.active)
    && (forall c :: c in lp.active ==> Holds(lp.watched, c) || lp.doing == Erasing(c))
  }

  /** Every open descriptor is in exactly one place, and nothing else is anywhere. */
  ghost predicate Owns(s: Server, owner: Owners) {
    && owner.Keys == s.open
    && (forall fd :: fd in owner && owner[fd] != Leaked ==>
          owner[fd].conn.fd == fd && owner[fd].conn.home < |s.loops|)
    && (forall c :: c in s.closing <==> At(owner, c.fd, Closing(c)))
    && (forall fd :: fd in s.leaked <==> At(owner, fd, Leaked))
    && (forall i :: 0 <= i < |s.loops| ==> LoopOwns(s.loops[i], i, owner))
  }

  ghost predicate Inv(s: Server, owner: Owners) {
    && Owns(s, owner)
    && (forall i :: 0 <= i < |s.loops| ==> Watching(s.loops[i]))
    && !s.clash
  }

  /** A place in some other loop, or in none. */
  predicate Elsewhere(owner: Owners, fd: int, home: nat) {
    fd in owner ==> owner[fd] == Leaked || owner[fd].Closing? || owner[fd].conn.home != home
  }

  lemma LoopFrame(lp: Loop, home: nat, owner: Owners, after: Owners, fd: int)
    requires LoopOwns(lp, home, owner)
    requires after - {fd} == owner - {fd}
    requires Elsewhere(owner, fd, home) && Elsewhere(after, fd, home)
    ensures LoopOwns(lp, home, after)
  {
    forall g, p | g != fd
      ensures At(owner, g, p) <==> At(after, g, p)
    {
      assert g in owner <==> g in owner - {fd};
      assert g in after <==> g in after - {fd};
    }
  }

  lemma QueueOwns(lp: Loop, home: nat, owner: Owners, c: Conn)
    requires LoopOwns(lp, home, owner) && c.fd !in owner && c.home == home
    ensures LoopOwns(lp.(queue := lp.queue + [c]), home, owner[c.fd := Queued(c)])
  {
    var q, after := lp.queue + [c], owner[c.fd := Queued(c)];
    forall d: Conn
      ensures d in q <==> d.home == home && At(after, d.fd, Queued(d))
      ensures Holds(lp.connections, d) <==> d.home == home && At(after, d.fd, Connected(d))
    {
      assert d in q <==> d in lp.queue || d == c;
      assert At(after, d.fd, Queued(d)) <==> At(owner, d.fd, Queued(d)) || d == c;
      assert At(after, d.fd, Connected(d)) <==> At(owner, d.fd, Connected(d));
    }
  }

  /** The head of the queue has no entry in the map yet, and gets one. */
  lemma PutOwns(lp: Loop, home: nat, owner: Owners)
    requires LoopOwns(lp, home, owner) && lp.queue != []
    ensures var c := lp.queue[0];
            && c.fd !in lp.connections
            && LoopOwns(PutStep(lp, c).(queue := lp.queue[1..]), home, owner[c.fd := Connected(c)])
  {
    var c, rest := lp.queue[0], lp.queue[1..];
    assert lp.queue == [c] + rest;
    assert At(owner, c.fd, Queued(c));
    if c.fd in lp.connections {
      assert Holds(lp.connections, lp.connections[c.fd]);
      assert false;
    }
    PublishOwns(lp.(queue := rest), home, owner, c);
  }

  /** Publishing a connection that is at most queued. */
  lemma PublishOwns(lp: Loop, home: nat, owner: Owners, c: Conn)
    requires Distinct(lp.queue) && c !in lp.queue && c.fd !in lp.connections && c.home == home
    requires c.fd in owner ==> owner[c.fd] == Queued(c)
    requires forall d :: d in lp.queue || (d == c && c.fd in owner) <==> d.home == home && At(owner, d.fd, Queued(d))
    requires forall d :: Holds(lp.connections, d) <==> d.home == home && At(owner, d.fd, Connected(d))
    requires forall fd :: fd in lp.connections ==> lp.connections[fd].fd == fd
    ensures LoopOwns(PutStep(lp, c), home, owner[c.fd := Connected(c)])
  {
    var after, m := owner[c.fd := Connected(c)], PutStep(lp, c).connections;
    forall d: Conn
      ensures d in lp.queue <==> d.home == home && At(after, d.fd, Queued(d))
      ensures Holds(m, d) <==> d.home == home && At(after, d.fd, Connected(d))
    {
      assert At(owner, d.fd, Queued(d)) <==> At(after, d.fd, Queued(d)) || (d == c && c.fd in owner);
      assert Holds(m, d) <==> Holds(lp.connections, d) || d == c;
    }
  }

  lemma EraseOwns(lp: Loop, home: nat, owner: Owners, c: Conn)
    requires LoopOwns(lp, home, owner) && Holds(lp.connections, c)
    ensures LoopOwns(EraseStep(lp, c), home, owner[c.fd := Closing(c)])
  {
    var after, m := owner[c.fd := Closing(c)], lp.connections - {c.fd};
    forall d: Conn
      ensures d in lp.queue <==> d.home == home && At(after, d.fd, Queued(d))
      ensures Holds(m, d) <==> d.home == home && At(after, d.fd, Connected(d))
    {
      assert At(owner, c.fd, Connected(c));
      assert At(owner, d.fd, Queued(d)) <==> At(after, d.fd, Queued(d));
      assert Holds(m, d) <==> Holds(lp.connections, d) && d.fd != c.fd;
    }
  }

  lemma PutWatches(lp: Loop, c: Conn, queue: seq<Conn>)
    requires Watching(lp) && lp.doing.Idle? && c.fd !in lp.connections
    ensures Watching(PutStep(lp, c).(queue := queue))
  {
  }

  lemma EnableWatches(lp: Loop)
    requires Watching(lp) && lp.doing.Arming?
    ensures Watching(EnableStep(lp, lp.doing.conn)) && lp.doing.conn.fd !in lp.watched
  {
  }

  lemma UnwatchWatches(lp: Loop)
    requires Watching(lp) && lp.doing.Idle? && lp.active != []
    ensures Watching(UnwatchStep(lp, lp.active[0]))
  {
    var c, t := lp.active[0], UnwatchStep(lp, lp.active[0]);
    assert Holds(lp.watched, c);
    forall d | d in t.active && d != c
      ensures Holds(t.watched, d)
    {
      assert Holds(lp.watched, d);
      assert lp.connections[d.fd] == d && lp.connections[c.fd] == c;
    }
  }

  lemma EraseWatches(lp: Loop)
    requires Watching(lp) && lp.doing.Erasing?
    ensures Watching(EraseStep(lp, lp.doing.conn))
  {
    var c, t := lp.doing.conn, EraseStep(lp, lp.doing.conn);
    assert lp.active == [c] + t.active;
    assert c !in t.active;
  }

  lemma ServeWatches(lp: Loop)
    requires Watching(lp) && lp.doing.Idle? && lp.active != []
    ensures Watching(lp.(active := lp.active[1..]))
  {
  }

  // ---------- One step ----------

  /** One loop changes, and at most the place of one descriptor with it. */
  lemma OneLoop(s: Server, t: Server, owner: Owners, after: Owners, i: nat, fd: int)
    requires Inv(s, owner) && i < |s.loops|
    requires |t.loops| == |s.loops| && t.loops == s.loops[i := t.loops[i]] && !t.clash
    requires after - {fd} == owner - {fd} && after.Keys == t.open
    requires forall j :: 0 <= j < |s.loops| && j != i ==> Elsewhere(owner, fd, j) && Elsewhere(after, fd, j)
    requires fd in after && after[fd] != Leaked ==> after[fd].conn.fd == fd && after[fd].conn.home < |s.loops|
    requires LoopOwns(t.loops[i], i, after) && Watching(t.loops[i])
    requires forall c :: c in t.closing <==> At(after, c.fd, Closing(c))
    requires forall g :: g in t.leaked <==> At(after, g, Leaked)
    ensures Inv(t, after)
  {
    forall g | g in after && after[g] != Leaked
      ensures after[g].conn.fd == g && after[g].conn.home < |t.loops|
    {
      assert g != fd ==> g in after - {fd} && g in owner - {fd};
    }
    hide LoopOwns, Watching;
    forall j | 0 <= j < |s.loops|
      ensures LoopOwns(t.loops[j], j, after) && Watching(t.loops[j])
    {
      assert LoopOwns(s.loops[j], j, owner) && Watching(s.loops[j]);
      if j != i {
        LoopFrame(s.loops[j], j, owner, after, fd);
      }
    }
  }

  /** No loop changes; a descriptor that no loop holds does. */
  lemma NoLoop(s: Server, t: Server, owner: Owners, after: Owners, fd: int)
    requires Inv(s, owner) && t.loops == s.loops && t.clash == s.clash
    requires after - {fd} == owner - {fd} && after.Keys == t.open
    requires fd in owner ==> owner[fd] == Leaked || owner[fd].Closing?
    requires fd in after ==> after[fd] == Leaked
    requires forall c :: c in t.closing <==> At(after, c.fd, Closing(c))
    requires forall g :: g in t.leaked <==> At(after, g, Leaked)
    ensures Inv(t, after)
  {
    forall g | g in after && after[g] != Leaked
      ensures after[g].conn.fd == g && after[g].conn.home < |t.loops|
    {
      assert g != fd ==> g in after - {fd} && g in owner - {fd};
    }
    hide LoopOwns, Watching;
    forall j | 0 <= j < |s.loops|
      ensures LoopOwns(t.loops[j], j, after)
    {
      assert LoopOwns(s.loops[j], j, owner);
      LoopFrame(s.loops[j], j, owner, after, fd);
    }
  }

  /** One loop goes on without touching its queue or its map. */
  lemma SameOwners(s: Server, owner: Owners, i: nat, lp: Loop)
    requires Inv(s, owner) && i < |s.loops|
    requires lp.queue == s.loops[i].queue && lp.connections == s.loops[i].connections && Watching(lp)
    ensures Inv(s.(loops := s.loops[i := lp]), owner)
  {
    var t := s.(loops := s.loops[i := lp]);
    assert LoopOwns(lp, i, owner) by {
      assert LoopOwns(s.loops[i], i, owner);
    }
    hide LoopOwns, Watching;
    forall j | 0 <= j < |s.loops|
      ensures LoopOwns(t.loops[j], j, owner) && Watching(t.loops[j])
    {
      assert LoopOwns(s.loops[j], j, owner) && Watching(s.loops[j]);
    }
  }

  ghost predicate Dealt(s: Server) {
    && s.loops != [] && s.next < |s.loops| && (s.inline ==> |s.loops| == 1)
    && (forall k :: 0 <= k < |s.handed| ==> s.handed[k].id == k && s.handed[k].home == k % |s.loops|)
    && (s.armed ==> s.next == |s.handed| % |s.loops|)
  }

  lemma {:induction false} DealtStep(s: Server, e: Event)
    requires Dealt(s)
    ensures Dealt(Step(s, e))
  {
    if e.Accept? && Enabled(s, e) {
      Successor(|s.handed|, |s.loops|);
      var n := |s.loops|;
      assert s.next == |s.handed| % n && NextIndex(s.next, n) == (|s.handed| + 1) % n;
    }
  }

  /** What a new connection means for the places no loop knows. */
  lemma AddPlace(s: Server, owner: Owners, fd: int, p: Place)
    requires Owns(s, owner) && fd !in owner && (p.Queued? || p.Connected?)
    ensures var after := owner[fd := p];
            && after - {fd} == owner - {fd} && after.Keys == s.open + {fd}
            && (forall g :: g in s.leaked <==> At(after, g, Leaked))
            && (forall c :: c in s.closing <==> At(after, c.fd, Closing(c)))
  {
    hide LoopOwns;
    var after := owner[fd := p];
    assert after - {fd} == owner - {fd};
    assert forall g, q :: At(after, g, q) ==> At(owner, g, q) || (g == fd && q == p);
    assert forall g, q :: At(owner, g, q) ==> At(after, g, q);
  }

  lemma AdmitKeeps(s: Server, owner: Owners, fd: int) returns (after: Owners)
    requires Inv(s, owner) && Dealt(s) && fd !in s.open && fd > 0
    requires s.inline ==> s.loops[0].doing.Idle?
    ensures Inv(Admit(s, fd), after)
  {
    var t, c, lp := Admit(s, fd), Conn(|s.handed|, fd, s.next), s.loops[s.next];
    assert LoopOwns(lp, s.next, owner) && Watching(lp);
    if s.inline {
      after := owner[fd := Connected(c)];
      assert fd in lp.connections ==> Holds(lp.connections, lp.connections[fd]);
      PublishOwns(lp, s.next, owner, c);
      PutWatches(lp, c, lp.queue);
      EnableWatches(PutStep(lp, c));
    } else {
      after := owner[fd := Queued(c)];
      QueueOwns(lp, s.next, owner, c);
    }
    hide LoopOwns, Watching;
    AddPlace(s, owner, fd, after[fd]);
    OneLoop(s, t, owner, after, s.next, fd);
  }

  lemma LeakKeeps(s: Server, t: Server, owner: Owners, fd: int) returns (after: Owners)
    requires Inv(s, owner) && fd !in s.open
    requires t.loops == s.loops && t.clash == s.clash && t.closing == s.closing
    requires t.open == s.open + {fd} && t.leaked == s.leaked + {fd}
    ensures Inv(t, after)
  {
    after := owner[fd := Leaked];
    assert after - {fd} == owner - {fd};
    assert forall p, g :: At(owner, g, p) ==> At(after, g, p);
    assert forall p, g :: At(after, g, p) ==> (g == fd && p == Leaked) || At(owner, g, p);
    NoLoop(s, t, owner, after, fd);
  }

  lemma AcceptKeeps(s: Server, owner: Owners, e: Event) returns (after: Owners)
    requires Inv(s, owner) && Dealt(s) && e.Accept? && Enabled(s, e)
    ensures Inv(Step(s, e), after)
  {
    hide LoopOwns, Watching;
    if e.fd == 0 || (Refuses(e) && e.fd < MAXFDS) {
      after := LeakKeeps(s, Step(s, e), owner, e.fd);
    } else if Admits(e) && !Refuses(e) {
      after := AdmitKeeps(s, owner, e.fd);
    } else {
      after := owner;
    }
  }

  lemma ReleaseKeeps(s: Server, owner: Owners, c: Conn) returns (after: Owners)
    requires Inv(s, owner) && c in s.closing
    ensures Inv(Step(s, Release(c)), after)
  {
    assert At(owner, c.fd, Closing(c));
    after := owner - {c.fd};
    assert after - {c.fd} == owner - {c.fd};
    assert forall p, g :: At(after, g, p) <==> At(owner, g, p) && g != c.fd;
    assert forall d :: d in s.closing - {c} <==> At(after, d.fd, Closing(d)) by {
      forall d ensures d in s.closing - {c} <==> At(after, d.fd, Closing(d)) {
        assert d in s.closing <==> At(owner, d.fd, Closing(d));
      }
    }
    hide LoopOwns, Watching;
    NoLoop(s, Step(s, Release(c)), owner, after, c.fd);
  }

  lemma PutKeeps(s: Server, owner: Owners, i: nat) returns (after: Owners)
    requires Inv(s, owner) && Enabled(s, Put(i))
    ensures Inv(Step(s, Put(i)), after)
  {
    var lp := s.loops[i];
    var c := lp.queue[0];
    assert LoopOwns(lp, i, owner) && Watching(lp);
    assert At(owner, c.fd, Queued(c));
    after := owner[c.fd := Connected(c)];
    PutOwns(lp, i, owner);
    PutWatches(lp, c, lp.queue[1..]);
    assert after - {c.fd} == owner - {c.fd};
    MovePlace(s, owner, c.fd, Connected(c));
    hide LoopOwns, Watching;
    OneLoop(s, Step(s, Put(i)), owner, after, i, c.fd);
  }

  lemma EraseKeeps(s: Server, owner: Owners, i: nat) returns (after: Owners)
    requires Inv(s, owner) && Enabled(s, Erase(i))
    ensures Inv(Step(s, Erase(i)), after)
  {
    var lp := s.loops[i];
    var c, t := lp.doing.conn, Step(s, Erase(i));
    assert LoopOwns(lp, i, owner) && Watching(lp) && Holds(lp.connections, c);
    assert At(owner, c.fd, Connected(c));
    after := owner[c.fd := Closing(c)];
    EraseOwns(lp, i, owner, c);
    EraseWatches(lp);
    assert after - {c.fd} == owner - {c.fd};
    MovePlace(s, owner, c.fd, Closing(c));
    hide LoopOwns, Watching;
    OneLoop(s, t, owner, after, i, c.fd);
  }

  /** What moving a held connection means for the places no loop knows. */
  lemma MovePlace(s: Server, owner: Owners, fd: int, p: Place)
    requires Owns(s, owner) && fd in owner && (owner[fd].Queued? || owner[fd].Connected?)
    requires p != Leaked && p.conn.fd == fd
    ensures var after := owner[fd := p];
            && (forall g :: g in s.leaked <==> At(after, g, Leaked))
            && (forall c :: c in s.closing || p == Closing(c) <==> At(after, c.fd, Closing(c)))
            && after.Keys == s.open
  {
    var after := owner[fd := p];
    assert forall g, q :: At(after, g, q) <==> (At(owner, g, q) && g != fd) || (g == fd && q == p);
  }

  lemma {:induction false} LocalKeeps(s: Server, owner: Owners, e: Event)
    requires Inv(s, owner) && Enabled(s, e) && (e.Enable? || e.Poll? || e.Serve? || e.Unwatch?)
    ensures Inv(Step(s, e), owner)
  {
    var lp := s.loops[e.at];
    assert Watching(lp);
    match e {
      case Enable(i) =>
        EnableWatches(lp);
        SameOwners(s, owner, i, EnableStep(lp, lp.doing.conn));
      case Poll(i, ready) => SameOwners(s, owner, i, lp.(active := ready));
      case Serve(i) =>
        ServeWatches(lp);
        SameOwners(s, owner, i, lp.(active := lp.active[1..]));
      case Unwatch(i) =>
        UnwatchWatches(lp);
        SameOwners(s, owner, i, UnwatchStep(lp, lp.active[0]));
    }
  }

  lemma StepKeeps(s: Server, owner: Owners, e: Event) returns (after: Owners)
    requires Inv(s, owner) && Dealt(s)
    ensures Inv(Step(s, e), after) && Dealt(Step(s, e))
  {
    DealtStep(s, e);
    hide Inv, Dealt;
    if Enabled(s, e) {
      hide Step;
      match e
      case Accept(_, _) => after := AcceptKeeps(s, owner, e);
      case Release(c) => after := ReleaseKeeps(s, owner, c);
      case Put(i) => after := PutKeeps(s, owner, i);
      case Erase(i) => after := EraseKeeps(s, owner, i);
      case _ =>
        LocalKeeps(s, owner, e);
        after := owner;
    } else {
      after := owner;
    }
  }

  lemma {:induction false} ExecKeeps(s: Server, owner: Owners, es: seq<Event>) returns (after: Owners)
    requires Inv(s, owner) && Dealt(s)
    ensures Inv(Exec(s, es), after) && Dealt(Exec(s, es))
  {
    if es == [] {
      after := owner;
    } else {
      var o := ExecKeeps(s, owner, es[..|es| - 1]);
      hide Inv, Dealt, Step;
      after := StepKeeps(Exec(s, es[..|es| - 1]), o, es[|es| - 1]);
    }
  }

  lemma Begins(workers: nat)
    ensures Inv(Init(workers), map[]) && Dealt(Init(workers))
  {
  }

  lemma Reached(workers: nat, es: seq<Event>) returns (owner: Owners)
    ensures Inv(Exec(Init(workers), es), owner) && Dealt(Exec(Init(workers), es))
  {
    hide Inv, Dealt, Exec;
    Begins(workers);
    owner := ExecKeeps(Init(workers), map[], es);
  }

  // ---------- What holds in every run ----------

  /**
    Each open descriptor has one place: the queue or the map of one loop, the last
    reference to a connection its loop dropped, or the leak. Hence put never meets a
    key, and epoll_ctl never adds a descriptor that a loop already watches.
   */
  lemma EachDescriptorHasOneHolder(workers: nat, es: seq<Event>)
    ensures var s := Exec(Init(workers), es);
            (exists owner :: Owns(s, owner)) && !s.clash
  {
    var owner := Reached(workers, es);
    assert Owns(Exec(Init(workers), es), owner);
  }

  /** In particular no descriptor is with two loops, or twice with one. */
  lemma NoDescriptorWithTwoLoops(workers: nat, es: seq<Event>, i: nat, j: nat, fd: int)
    requires var s := Exec(Init(workers), es); i < |s.loops| && j < |s.loops|
    ensures var s := Exec(Init(workers), es);
            var (a, b) := (s.loops[i], s.loops[j]);
            && (fd in a.connections && fd in b.connections ==> i == j)
            && (fd in a.watched && fd in b.watched ==> i == j)
            && (fd in a.connections ==> fd in s.open && fd !in s.leaked)
            && (forall k :: 0 <= k < |a.queue| && a.queue[k].fd == fd ==>
                  && fd in s.open && fd !in b.connections && fd !in s.leaked
                  && (forall m :: 0 <= m < |b.queue| && b.queue[m].fd == fd ==> i == j && k == m))
  {
    var s := Exec(Init(workers), es);
    var owner := Reached(workers, es);
    hide Exec;
    var a, b := s.loops[i], s.loops[j];
    assert LoopOwns(a, i, owner) && LoopOwns(b, j, owner) && Watching(a) && Watching(b);
    assert fd in a.connections ==> Holds(a.connections, a.connections[fd]);
    assert fd in b.connections ==> Holds(b.connections, b.connections[fd]);
    forall k | 0 <= k < |a.queue| && a.queue[k].fd == fd
      ensures At(owner, fd, Queued(a.queue[k])) && i == a.queue[k].home
    {
      assert a.queue[k] in a.queue;
    }
    forall m | 0 <= m < |b.queue| && b.queue[m].fd == fd
      ensures At(owner, fd, Queued(b.queue[m])) && j == b.queue[m].home
    {
      assert b.queue[m] in b.queue;
    }
  }

  /**
    No dangling channel: whatever a loop's epoll set or active list points to is in the
    loop's own map, so neither destroyed nor about to be, whichever other connections
    were closed earlier in the same batch and however often its number was used before.
   */
  lemma NothingDangles(workers: nat, es: seq<Event>, i: nat, c: Conn)
    requires var s := Exec(Init(workers), es); i < |s.loops| && (Holds(s.loops[i].watched, c) || c in s.loops[i].active)
    ensures var s := Exec(Init(workers), es);
            Holds(s.loops[i].connections, c) && c.home == i && c.fd in s.open && c !in s.closing
  {
    var s := Exec(Init(workers), es);
    var owner := Reached(workers, es);
    hide Exec;
    assert LoopOwns(s.loops[i], i, owner) && Watching(s.loops[i]);
    assert Holds(s.loops[i].connections, c);
    assert At(owner, c.fd, Connected(c));
  }

  /**
    Closing gets through: a loop that handles a connection whose peer has gone stops
    watching it and drops it, and the last reference to it then closes its descriptor,
    whose number accept may return again.
   */
  lemma {:induction false} ClosingEnds(workers: nat, es: seq<Event>, i: nat)
    requires var s := Exec(Init(workers), es); i < |s.loops| && s.loops[i].doing.Idle? && s.loops[i].active != []
    ensures var s := Exec(Init(workers), es);
            var c := s.loops[i].active[0];
            var t := Step(s, Unwatch(i));
            var u := Step(t, Erase(i));
            var v := Step(u, Release(c));
            && Enabled(s, Unwatch(i)) && Enabled(t, Erase(i)) && Enabled(u, Release(c))
            && c.fd in s.open && v.open == s.open - {c.fd} && c !in v.closing
            && c.fd !in v.loops[i].connections && c.fd !in v.loops[i].watched
            && v.loops[i].doing == Idle && v.loops[i].active == s.loops[i].active[1..]
  {
    NothingDangles(workers, es, i, Exec(Init(workers), es).loops[i].active[0]);
    hide Exec;
  }

  /** The server accepts until the first refusal, and no longer. */
  lemma {:induction false} AcceptsUntilRefusal(workers: nat, es: seq<Event>)
    ensures Exec(Init(workers), es).armed <==>
            forall k :: 0 <= k < |es| && Refuses(es[k]) ==> !Enabled(Exec(Init(workers), es[..k]), es[k])
  {
    if es != [] {
      var front := es[..|es| - 1];
      AcceptsUntilRefusal(workers, front);
      assert forall k :: 0 <= k < |front| ==> front[..k] == es[..k];
    }
  }

  /** After a refusal the server makes no connection any more. */
  lemma {:induction false} RefusalIsFinal(s: Server, es: seq<Event>)
    requires !s.armed
    ensures !Exec(s, es).armed && Exec(s, es).handed == s.handed
  {
    if es != [] {
      RefusalIsFinal(s, es[..|es| - 1]);
    }
  }

  /** A number that is too high, or a failing fcntl: the server never accepts again. */
  lemma RefusedAndSilent(workers: nat, later: seq<Event>)
    ensures Exec(Exec(Init(workers), [Accept(100000, true)]), later).handed == []
    ensures Exec(Exec(Init(workers), [Accept(7, false)]), later).handed == []
    ensures Exec(Init(workers), [Accept(100000, true)]).open == {}
    ensures Exec(Init(workers), [Accept(7, false)]).leaked == {7}
  {
    assert [Accept(MAXFDS, true)][..0] == [] && [Accept(7, false)][..0] == [];
    assert Init(workers).loops[0] == FRESH_LOOP;
    assert Exec(Init(workers), []) == Init(workers);
    RefusalIsFinal(Exec(Init(workers), [Accept(MAXFDS, true)]), later);
    RefusalIsFinal(Exec(Init(workers), [Accept(7, false)]), later);
  }

  /** The number 0 is taken for a failure: it stays open, nobody has it, and the server goes on. */
  lemma ZeroIsLeaked(workers: nat, nonBlocking: bool)
    ensures var s := Exec(Init(workers), [Accept(0, nonBlocking)]);
            s.open == s.leaked == {0} && s.handed == [] && s.armed && s.next == 0
  {
    assert [Accept(0, nonBlocking)][..0] == [];
    assert Init(workers).loops[0] == FRESH_LOOP;
    assert Exec(Init(workers), []) == Init(workers);
  }

  /** How many of the connections were given to loop `j`. */
  function Given(handed: seq<Conn>, j: nat): nat {
    if handed == [] then 0 else Given(handed[..|handed| - 1], j) + (if handed[|handed| - 1].home == j then 1 else 0)
  }

  lemma {:induction false} GivenIsShare(handed: seq<Conn>, n: nat, j: nat)
    requires n > 0 && forall k :: 0 <= k < |handed| ==> handed[k].home == k % n
    ensures Given(handed, j) == Share(|handed|, n, j)
  {
    if handed != [] {
      GivenIsShare(handed[..|handed| - 1], n, j);
    }
  }

  /**
    Over every run the loops receive equally many connections, give or take one. A
    refused descriptor uses up a turn, but then it was the last.
   */
  lemma HandedOverEvenly(workers: nat, es: seq<Event>, i: nat, j: nat)
    requires var s := Exec(Init(workers), es); i < |s.loops| && j < |s.loops|
    ensures var s := Exec(Init(workers), es);
            s.next < |s.loops| && -1 <= Given(s.handed, i) - Given(s.handed, j) <= 1
  {
    var s := Exec(Init(workers), es);
    var owner := Reached(workers, es);
    hide Exec, Given, Inv;
    GivenIsShare(s.handed, |s.loops|, i);
    GivenIsShare(s.handed, |s.loops|, j);
    Balanced(|s.handed|, |s.loops|, i, j);
  }
}

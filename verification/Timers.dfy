/**
  Deadlines: what a history of arming, cancelling and expiring timers means, and
  the version 1.0 timer that implements it with lazy deletion in a heap. Line numbers
  are those of version1.0/time.cpp.
 */
module DeadlineSpec {

  datatype Op<R> =
    | Add(request: R, deadline: nat)
    | Del(request: R)
    | Expire(now: nat)

  /** Who is armed, and until when. */
  type Deadlines<R> = map<R, nat>

  function Due<R>(d: Deadlines<R>, now: nat): set<R> {
    set r | r in d && d[r] <= now
  }

  function Apply<R>(d: Deadlines<R>, op: Op<R>): Deadlines<R> {
    match op
    case Add(r, t) => d[r := t]
    case Del(r) => d - {r}
    case Expire(now) => map r | r in d && d[r] > now :: d[r]
  }

  function After<R>(ops: seq<Op<R>>): Deadlines<R> {
    if ops == [] then map[] else Apply(After(ops[..|ops| - 1]), ops[|ops| - 1])
  }

  /** Whether operation `op` disarms a timer of `r` that is due at `deadline`. */
  predicate Disarms<R(==)>(op: Op<R>, r: R, deadline: nat) {
    match op
    case Add(q, _) => q == r
    case Del(q) => q == r
    case Expire(now) => deadline <= now
  }

  /** `ops[j]` armed `r`, and nothing has disarmed it since. */
  predicate StillArmedBy<R(==)>(ops: seq<Op<R>>, j: nat, r: R) {
    && j < |ops| && ops[j].Add? && ops[j].request == r
    && forall k :: j < k < |ops| ==> !Disarms(ops[k], r, ops[j].deadline)
  }

  lemma {:induction false} ArmedIff<R>(ops: seq<Op<R>>, r: R)
    ensures r in After(ops) <==> exists j: nat :: StillArmedBy(ops, j, r)
    ensures forall j: nat :: StillArmedBy(ops, j, r) ==> r in After(ops) && After(ops)[r] == ops[j].deadline
  {
    if ops != [] {
      var n := |ops| - 1;
      var before, op := ops[..n], ops[n];
      ArmedIff(before, r);
      forall j: nat | StillArmedBy(ops, j, r)
        ensures r in After(ops) && After(ops)[r] == ops[j].deadline
      {
        if j < n {
          assert StillArmedBy(before, j, r);
          assert !Disarms(ops[n], r, ops[j].deadline);
        }
      }
      if r in After(ops) {
        if op == Add(r, After(ops)[r]) {
          assert StillArmedBy(ops, n, r);
        } else {
          assert r in After(before) && After(before)[r] == After(ops)[r];
          var j: nat :| StillArmedBy(before, j, r);
          assert !Disarms(op, r, ops[j].deadline);
          assert StillArmedBy(ops, j, r);
        }
      }
    }
  }

  /**
    A request fires in an expiry exactly when some earlier arming is due by then and
    nothing re-armed, cancelled or fired it in between: once per arming, never before
    its latest deadline.
   */
  lemma FiresIff<R>(ops: seq<Op<R>>, now: nat, r: R)
    ensures r in Due(After(ops), now) <==> exists j: nat :: StillArmedBy(ops, j, r) && ops[j].deadline <= now
  {
    ArmedIff(ops, r);
    if r in Due(After(ops), now) {
      var j: nat :| StillArmedBy(ops, j, r);
      assert ops[j].deadline <= now;
    }
  }

  /** At most one arming of a request is in force. */
  lemma OneArming<R>(ops: seq<Op<R>>, i: nat, j: nat, r: R)
    requires StillArmedBy(ops, i, r) && StillArmedBy(ops, j, r)
    ensures i == j
  {
    assert i < j ==> Disarms(ops[j], r, ops[i].deadline);
    assert j < i ==> Disarms(ops[i], r, ops[j].deadline);
  }

  // ---------- Armings that were not cancelled ----------

  /** Whether the k-th operation ends the j-th, an arming: by firing it, or by cancelling the last one. */
  predicate Ends<R(==)>(ops: seq<Op<R>>, j: nat, k: nat)
    requires j < k < |ops| && ops[j].Add?
  {
    match ops[k]
    case Add(_, _) => false
    case Del(q) => q == ops[j].request && forall i :: j < i < k ==> !(ops[i].Add? && ops[i].request == q)
    case Expire(now) => ops[j].deadline <= now
  }

  /** An arming is in force until an expiry is due for it, or its request is cancelled before it is armed again. */
  predicate InForce<R(==)>(ops: seq<Op<R>>, j: nat) {
    j < |ops| && ops[j].Add? && forall k :: j < k < |ops| ==> !Ends(ops, j, k)
  }

  /** The last arming of a request, or -1. */
  function LastArmed<R(==)>(ops: seq<Op<R>>, r: R): (k: int)
    ensures -1 <= k < |ops|
    ensures k >= 0 ==> ops[k].Add? && ops[k].request == r
    ensures forall i :: k < i < |ops| ==> !(ops[i].Add? && ops[i].request == r)
  {
    if ops == [] then -1 else
    var n := |ops| - 1;
    if ops[n].Add? && ops[n].request == r then n else LastArmed(ops[..n], r)
  }

  /** The armings whose nodes are live, as the operations make and unmake them. */
  function Live<R(==)>(ops: seq<Op<R>>): (live: set<nat>)
    ensures forall j :: j in live ==> j < |ops| && ops[j].Add?
  {
    if ops == [] then {} else
    var n := |ops| - 1;
    var before := Live(ops[..n]);
    match ops[n]
    case Add(_, _) => before + {n}
    case Del(r) => before - {LastArmed(ops[..n], r)}
    case Expire(now) => set j | j in before && ops[j].deadline > now
  }

  lemma {:induction false} LiveIff<R>(ops: seq<Op<R>>, j: nat)
    ensures j in Live(ops) <==> InForce(ops, j)
  {
    if ops != [] {
      var n := |ops| - 1;
      var before := ops[..n];
      LiveIff(before, j);
      if j < n && ops[j].Add? {
        assert forall k :: j < k < n ==> (Ends(ops, j, k) <==> Ends(before, j, k));
        assert InForce(ops, j) <==> InForce(before, j) && !Ends(ops, j, n);
        if ops[n].Del? && ops[n].request == ops[j].request {
          var last := LastArmed(before, ops[j].request);
          assert j <= last && (j == last || ops[last].Add?);
        }
      }
    }
  }
}

module Timers {
  import opened TimerHeap
  import opened Sequences
  import DeadlineSpec

  /** What gettimeofday answers at its k-th call; None is a failure. */
  type Clock = nat -> Option<nat>

  /** The clock never goes back behind `now` or behind itself. */
  ghost predicate NonDecreasing(clock: Clock, now: nat) {
    && (forall k :: clock(k).Some? ==> now <= clock(k).value)
    && (forall j, k :: j <= k && clock(j).Some? && clock(k).Some? ==> clock(j).value <= clock(k).value)
  }

  /** Handler calls made for these nodes; a node without a handler expires silently. */
  function Calls(fired: seq<TimeNode>): seq<HttpRequest> {
    if fired == [] then [] else
    Calls(fired[..|fired| - 1]) +
    (if fired[|fired| - 1].handler then [fired[|fired| - 1].request] else [])
  }

  /** `now` is what some call of the clock answered, or where it was before. */
  ghost predicate Shown(clock: Clock, before: nat, now: nat) {
    now == before || exists k :: clock(k) == Some(now)
  }

  lemma ShownNext(clock: Clock, before: nat, now: nat, k: nat)
    requires Shown(clock, before, now)
    ensures Shown(clock, before, if clock(k).Some? then clock(k).value else now)
  {
  }

  lemma ShownNow(clock: Clock, now: nat)
    ensures Shown(clock, now, now)
  {
  }

  function Requests(fired: seq<TimeNode>): set<HttpRequest> {
    set n | n in fired :: n.request
  }

  /** How many nodes are no longer there. */
  function Gone(start: set<TimeNode>, held: set<TimeNode>): nat {
    |start - held|
  }

  predicate Sorted(fired: seq<TimeNode>) {
    forall i, j :: 0 <= i < j < |fired| ==> fired[i] != fired[j] && fired[i].key <= fired[j].key
  }

  const SIZE_MAX := 0xffff_ffff_ffff_ffff

  /** A sum of two size_t. */
  function Deadline(now: nat, timeout: nat): nat {
    (now + timeout) % (SIZE_MAX + 1)
  }

  /** What one turn of the expiry loop finds at the front. */
  datatype Outcome = Dead(node: TimeNode) | Early(node: TimeNode) | Fired(node: TimeNode)

  /** `dead` are those of the nodes `all` that are marked deleted. */
  ghost predicate Marked(all: set<TimeNode>, dead: set<TimeNode>)
    reads all
  {
    forall n :: n in all ==> (n in dead <==> n.deleted)
  }

  /** The timer field of each armed request is its one live node. */
  ghost predicate Tied(held: set<TimeNode>, d: DeadlineSpec.Deadlines<HttpRequest>)
    reads held, d.Keys, set n | n in held :: n.request
  {
    && (forall n :: n in held && !n.deleted ==> n.request in d && d[n.request] == n.key && n.request.timer == n)
    && (forall r :: r in d ==> r.timer != null && r.timer in held && !r.timer.deleted && r.timer.request == r)
  }

  class Time {
    const pq: PriorityQueue
    var currentTime: nat
    ghost var deadlines: DeadlineSpec.Deadlines<HttpRequest>

    /** The nodes in the queue, deleted ones included. */
    ghost function Held(): (h: set<TimeNode>)
      reads pq, pq.heap
    {
      if pq.size < pq.heap.Length then set n: TimeNode | n in pq.Nodes() else {}
    }

    ghost predicate Valid()
      reads pq, pq.heap
    {
      && pq.Valid() && pq.size < pq.heap.Length
      && (forall n :: n in pq.Nodes() ==> n != null && pq.Nodes()[n] == 1)
    }

    ghost predicate Refreshed()
      reads *
    {
      Tied(Held(), deadlines)
    }

    constructor (now: Option<nat>)
      ensures Valid() && Refreshed() && deadlines == map[] && fresh(pq) && fresh(pq.heap)
      ensures Held() == {} && Live() == {} && pq.size == 0 && currentTime == if now.Some? then now.value else 0
    {
      pq := new PriorityQueue();
      currentTime := if now.Some? then now.value else 0;
      deadlines := map[];
    }

    method Update(now: Option<nat>)
      modifies this`currentTime
      ensures currentTime == if now.Some? then now.value else old(currentTime)
    {
      if now.Some? {
        currentTime := now.value;
      }
    }

    /** Whether nothing is left in the queue. */
    method Idle() returns (r: bool)
      requires Valid()
      ensures r <==> Held() == {}
      ensures r <==> pq.size == 0
    {
      r := pq.IsEmpty();
      assert r || pq.heap[..][1] in pq.Nodes();
      assert r || pq.heap[1] in Held();
    }

    /** The node that is due first. */
    method First() returns (node: TimeNode)
      requires Valid() && pq.size > 0
      ensures node in Held() && node == pq.heap[1]
      ensures forall n :: n in Held() ==> node.key <= n.key
    {
      node := pq.Front();
    }

    method DropFirst()
      requires Valid() && pq.size > 0 && pq.heap[1] != null
      modifies pq, pq.heap
      ensures Valid() && pq.size == old(pq.size) - 1
      ensures Held() == old(Held()) - {old(pq.heap[1])}
    {
      ghost var before, node := pq.Nodes(), pq.heap[1];
      var first := pq.Front();
      pq.Pop();
      assert forall n :: n in pq.Nodes() <==> n in before && n != node;
    }

    /** One turn of the loop of lines 17-34. */
    method Turn(reading: Option<nat>, ghost start: set<TimeNode>, ghost dead: set<TimeNode>) returns (outcome: Outcome, calls: seq<HttpRequest>)
      requires Valid() && pq.size > 0 && Held() <= start && Marked(start, dead)
      modifies this`currentTime, pq, pq.heap
      ensures currentTime == if reading.Some? then reading.value else old(currentTime)
      ensures Valid() && Marked(start, dead) && pq.size == old(pq.size) - if outcome.Early? then 0 else 1
      ensures outcome.node in old(Held()) && forall n :: n in old(Held()) ==> outcome.node.key <= n.key
      ensures outcome.node in dead <==> outcome.Dead?
      ensures outcome.Early? ==> outcome.node.key > currentTime
      ensures outcome.Fired? ==> outcome.node.key <= currentTime
      ensures Held() == if outcome.Early? then old(Held()) else old(Held()) - {outcome.node}
      ensures calls == if outcome.Fired? && outcome.node.handler then [outcome.node.request] else []
    {
      hide PriorityQueue.Valid, Valid;
      calls := [];
      Update(reading);
      var node := First();
      if node.deleted {
        outcome := Dead(node);
        DropFirst();
      } else if node.key > currentTime {
        outcome := Early(node);
      } else {
        if node.handler {
          calls := [node.request];
        }
        outcome := Fired(node);
        DropFirst();
      }
    }

    /** The loop itself, for the nodes `start` of which `dead` are marked deleted. */
    method Drain(clock: Clock, ghost start: set<TimeNode>, ghost dead: set<TimeNode>)
      returns (fired: seq<TimeNode>, calls: seq<HttpRequest>)
      requires Valid() && Held() == start && Marked(start, dead)
      modifies this`currentTime, pq, pq.heap
      ensures Valid() && Marked(start, dead)
      ensures Progress(start, dead, Held(), fired) && calls == Calls(fired)
      ensures forall n :: n in Held() && n !in dead ==> n.key > currentTime
      ensures NonDecreasing(clock, old(currentTime)) ==> forall n :: n in fired ==> n.key <= currentTime
      ensures Shown(clock, old(currentTime), currentTime)
      ensures pq.size + Gone(start, Held()) == old(pq.size)
    {
      hide Progress, Timely, NonDecreasing, Valid, Held, Calls, Shown, Marked, Gone;
      assert Gone(start, start) == 0 by { NoneGone(start); }
      fired, calls := [], [];
      Started(start, dead, clock, currentTime);
      assert Shown(clock, old(currentTime), currentTime) by { ShownNow(clock, currentTime); }
      var readings := 0;
      var empty := Idle();
      while !empty
        invariant Valid() && (empty <==> Held() == {}) && (empty <==> pq.size == 0) && Held() <= start && Marked(start, dead)
        invariant Progress(start, dead, Held(), fired) && calls == Calls(fired)
        invariant NonDecreasing(clock, old(currentTime)) ==> Timely(clock, currentTime, readings, fired)
        invariant Shown(clock, old(currentTime), currentTime)
        invariant pq.size + Gone(start, Held()) == old(pq.size)
        decreases pq.size
      {
        TimePasses(clock, old(currentTime), currentTime, readings, fired);
        ShownNext(clock, old(currentTime), currentTime, readings);
        ghost var held := Held();
        var outcome, handled := Turn(clock(readings), start, dead);
        readings := readings + 1;
        OneLess(start, held, outcome.node);
        match outcome {
          case Early(node) =>
            InTime(clock, currentTime, readings, fired);
            return;
          case Dead(node) =>
            Dropped(start, dead, held, fired, node);
          case Fired(node) =>
            Fires(start, dead, held, fired, node);
            FiresInTime(clock, currentTime, readings, fired, node);
            fired, calls := fired + [node], calls + handled;
        }
        empty := Idle();
      }
      InTime(clock, currentTime, readings, fired);
    }

    /**
      Lines 16-35. Among the nodes held at the start, what leaves the queue is
      deleted or fired; what fires is live, due and in order of deadline; what stays
      and is live is not due at the last clock reading.
     */
    method HandleExpired(clock: Clock) returns (fired: seq<TimeNode>, calls: seq<HttpRequest>)
      requires Valid()
      modifies this`currentTime, this`deadlines, pq, pq.heap
      ensures Valid()
      ensures Progress(old(Held()), old(DeadNodes()), Held(), fired) && calls == Calls(fired)
      ensures forall n :: n in Held() && !n.deleted ==> n.key > currentTime
      ensures NonDecreasing(clock, old(currentTime)) ==> forall n :: n in fired ==> n.key <= currentTime
      ensures deadlines == DeadlineSpec.Apply(old(deadlines), DeadlineSpec.Expire(currentTime))
      ensures old(Refreshed()) && NonDecreasing(clock, old(currentTime)) ==>
                Refreshed() && Requests(fired) == DeadlineSpec.Due(old(deadlines), currentTime)
      ensures old(Refreshed()) ==> forall i, j :: 0 <= i < j < |fired| ==> fired[i].request != fired[j].request
      ensures Shown(clock, old(currentTime), currentTime)
      ensures pq.size + Gone(old(Held()), Held()) == old(pq.size)
    {
      hide Valid, Held, Progress, Calls, NonDecreasing, Shown;
      ghost var start, dead, d := Held(), DeadNodes(), deadlines;
      fired, calls := Drain(clock, start, dead);
      if old(Refreshed()) {
        assert Tied(start, d);
        FiredOnce(start, dead, Held(), fired, d);
        if NonDecreasing(clock, old(currentTime)) {
          ExpiryKeepsTied(start, dead, Held(), fired, d, currentTime);
        }
      }
      deadlines := DeadlineSpec.Apply(deadlines, DeadlineSpec.Expire(currentTime));
    }

    /** Lines 37-48. The node replaces whatever the request's timer was, without cancelling it. */
    method Add(request: HttpRequest, timeout: nat, handler: bool, now: Option<nat>)
      requires Valid() && pq.size < HEAPSIZE - 1
      modifies this`currentTime, this`deadlines, request`timer, pq, pq.heap
      ensures Valid() && request.timer != null && fresh(request.timer) && pq.size == old(pq.size) + 1
      ensures request.timer.request == request && request.timer.key == Deadline(currentTime, timeout)
      // the sum of two size_t, which wraps around
      ensures currentTime + timeout <= SIZE_MAX ==> request.timer.key == currentTime + timeout
      ensures currentTime <= SIZE_MAX && timeout <= SIZE_MAX < currentTime + timeout ==>
                request.timer.key == currentTime + timeout - 0x1_0000_0000_0000_0000
      ensures request.timer.handler == handler
      ensures Held() == old(Held()) + {request.timer} && !request.timer.deleted
      ensures currentTime == if now.Some? then now.value else old(currentTime)
      ensures deadlines == DeadlineSpec.Apply(old(deadlines), DeadlineSpec.Add(request, Deadline(currentTime, timeout)))
      ensures old(Refreshed()) ==> (Refreshed() <==> request !in old(deadlines))
    {
      hide Valid, Held, Tied;
      AddTo(Held(), request, timeout, handler, now);
    }

    method AddTo(ghost held: set<TimeNode>, request: HttpRequest, timeout: nat, handler: bool, now: Option<nat>)
      requires Valid() && pq.size < HEAPSIZE - 1 && held == Held()
      modifies this`currentTime, this`deadlines, request`timer, pq, pq.heap
      ensures Valid() && request.timer != null && fresh(request.timer) && pq.size == old(pq.size) + 1
      ensures request.timer.request == request && request.timer.key == Deadline(currentTime, timeout)
      ensures request.timer.handler == handler
      ensures Held() == held + {request.timer} && !request.timer.deleted
      ensures currentTime == if now.Some? then now.value else old(currentTime)
      ensures deadlines == old(deadlines)[request := request.timer.key]
      ensures old(Tied(held, deadlines)) ==> (Tied(held + {request.timer}, deadlines) <==> request !in old(deadlines))
    {
      hide Valid, Held;
      Update(now);
      var node := new TimeNode(Deadline(currentTime, timeout), request, handler);
      request.timer := node;
      Enqueue(node);
      deadlines := deadlines[request := node.key];
      if old(Tied(held, deadlines)) {
        if request in old(deadlines) {
          assert old(request.timer) in held && !old(request.timer).deleted;
          assert old(request.timer) in held + {node};
        } else {
          forall n | n in held && !n.deleted
            ensures n.request != request && n.request in deadlines && deadlines[n.request] == n.key && n.request.timer == n
          {
          }
          forall r | r in deadlines && r != request
            ensures r.timer != null && r.timer in held && !r.timer.deleted && r.timer.request == r
          {
          }
        }
      }
    }

    method Enqueue(node: TimeNode)
      requires Valid() && pq.size < HEAPSIZE - 1 && node !in Held()
      modifies pq, pq.heap
      ensures Valid() && Held() == old(Held()) + {node} && pq.size == old(pq.size) + 1
    {
      pq.Insert(node);
    }

    /** Lines 50-56: lazy deletion, the node stays in the heap. */
    method Cancel(request: HttpRequest, now: Option<nat>)
      requires Valid() && request.timer != null && request.timer.request == request
      modifies this`currentTime, this`deadlines, request.timer`deleted
      ensures Valid() && request.timer.deleted && Held() == old(Held()) && pq.size == old(pq.size)
      ensures currentTime == if now.Some? then now.value else old(currentTime)
      ensures deadlines == DeadlineSpec.Apply(old(deadlines), DeadlineSpec.Del(request))
      ensures old(Refreshed()) ==> Refreshed()
    {
      hide Valid, Held, Tied;
      Mark(Held(), request, now);
    }

    method Mark(ghost held: set<TimeNode>, request: HttpRequest, now: Option<nat>)
      requires request.timer != null && request.timer.request == request
      modifies this`currentTime, this`deadlines, request.timer`deleted
      ensures request.timer.deleted && deadlines == old(deadlines) - {request}
      ensures currentTime == if now.Some? then now.value else old(currentTime)
      ensures old(Tied(held, deadlines)) ==> Tied(held, deadlines)
    {
      Update(now);
      request.timer.deleted := true;
      deadlines := deadlines - {request};
    }

    ghost function DeadNodes(): set<TimeNode>
      reads pq, pq.heap, Held()
    {
      set n | n in Held() && n.deleted
    }

    ghost function Live(): set<TimeNode>
      reads pq, pq.heap, Held()
    {
      set n | n in Held() && !n.deleted
    }
  }

  // ---------- The invariants of the expiry loop ----------

  /** Of the nodes in `start`, `held` are left, and `fired` plus some dead ones are gone. */
  ghost predicate Progress(start: set<TimeNode>, dead: set<TimeNode>, held: set<TimeNode>, fired: seq<TimeNode>) {
    && held <= start && Sorted(fired)
    && (forall n :: n in fired ==> n in start && n !in held && n !in dead)
    && (forall n :: n in start && n !in held ==> n in dead || n in fired)
    && (forall x, n :: x in fired && n in held ==> x.key <= n.key)
  }

  /** With `readings` readings taken, `now` is not ahead of the clock nor behind what fired. */
  ghost predicate Timely(clock: Clock, now: nat, readings: nat, fired: seq<TimeNode>) {
    && (forall j :: j >= readings && clock(j).Some? ==> now <= clock(j).value)
    && (forall n :: n in fired ==> n.key <= now)
  }

  lemma Started(start: set<TimeNode>, dead: set<TimeNode>, clock: Clock, now: nat)
    ensures Progress(start, dead, start, []) && Calls([]) == []
    ensures NonDecreasing(clock, now) ==> Timely(clock, now, 0, [])
  {
  }

  lemma TimePasses(clock: Clock, start: nat, now: nat, readings: nat, fired: seq<TimeNode>)
    ensures NonDecreasing(clock, start) && Timely(clock, now, readings, fired) ==>
              Timely(clock, if clock(readings).Some? then clock(readings).value else now, readings + 1, fired)
  {
  }

  lemma FiredOnce(start: set<TimeNode>, dead: set<TimeNode>, held: set<TimeNode>, fired: seq<TimeNode>,
                  d: DeadlineSpec.Deadlines<HttpRequest>)
    requires Tied(start, d) && Marked(start, dead) && Progress(start, dead, held, fired)
    ensures forall i, j :: 0 <= i < j < |fired| ==> fired[i].request != fired[j].request
  {
    forall i, j | 0 <= i < j < |fired|
      ensures fired[i].request != fired[j].request
    {
      assert fired[i] in fired && fired[j] in fired;
      assert fired[i].request.timer == fired[i] && fired[j].request.timer == fired[j];
    }
  }

  /** One live node for each armed request, before and after; and exactly the due ones fire. */
  lemma ExpiryKeepsTied(start: set<TimeNode>, dead: set<TimeNode>, held: set<TimeNode>, fired: seq<TimeNode>,
                        d: DeadlineSpec.Deadlines<HttpRequest>, now: nat)
    requires Tied(start, d) && Marked(start, dead) && Progress(start, dead, held, fired)
    requires forall n :: n in held && n !in dead ==> n.key > now
    requires forall n :: n in fired ==> n.key <= now
    ensures Tied(held, DeadlineSpec.Apply(d, DeadlineSpec.Expire(now)))
    ensures Requests(fired) == DeadlineSpec.Due(d, now)
  {
    forall r | r in DeadlineSpec.Due(d, now)
      ensures r in Requests(fired)
    {
      assert r.timer in start && r.timer !in dead;
      assert r.timer in fired;
    }
    forall r | r in Requests(fired)
      ensures r in DeadlineSpec.Due(d, now)
    {
      var n :| n in fired && n.request == r;
    }
  }

  lemma NoneGone(start: set<TimeNode>)
    ensures Gone(start, start) == 0
  {
  }

  lemma OneLess(start: set<TimeNode>, held: set<TimeNode>, node: TimeNode)
    requires node in held && held <= start
    ensures Gone(start, held - {node}) == Gone(start, held) + 1
  {
    assert start - (held - {node}) == start - held + {node};
  }

  lemma Dropped(start: set<TimeNode>, dead: set<TimeNode>, held: set<TimeNode>, fired: seq<TimeNode>, node: TimeNode)
    requires Progress(start, dead, held, fired) && node in dead
    ensures Progress(start, dead, held - {node}, fired)
  {
  }

  lemma Fires(start: set<TimeNode>, dead: set<TimeNode>, held: set<TimeNode>, fired: seq<TimeNode>, node: TimeNode)
    requires Progress(start, dead, held, fired) && node in held && node !in dead
    requires forall n :: n in held ==> node.key <= n.key
    ensures Progress(start, dead, held - {node}, fired + [node])
    ensures Calls(fired + [node]) == Calls(fired) + if node.handler then [node.request] else []
  {
    assert (fired + [node])[..|fired|] == fired;
  }

  lemma FiresInTime(clock: Clock, now: nat, readings: nat, fired: seq<TimeNode>, node: TimeNode)
    requires node.key <= now
    ensures Timely(clock, now, readings, fired) ==> Timely(clock, now, readings, fired + [node])
  {
  }

  lemma InTime(clock: Clock, now: nat, readings: nat, fired: seq<TimeNode>)
    ensures Timely(clock, now, readings, fired) ==> forall n :: n in fired ==> n.key <= now
  {
  }

  // ---------- Whole histories ----------

  /** A call on the timer, with what the clock answers during it. */
  datatype Call =
    | Arm(request: HttpRequest, timeout: nat, handler: bool, now: Option<nat>)
    | Disarm(request: HttpRequest, now: Option<nat>)
    | Expire(clock: Clock)

  /** The time after the call, given the time before. */
  ghost predicate Stamp(c: Call, before: nat, after: nat) {
    match c
    case Expire(clock) => Shown(clock, before, after)
    case _ => after == if c.now.Some? then c.now.value else before
  }

  /** What the call means for the deadlines. */
  function OpOf(c: Call, at: nat): DeadlineSpec.Op<HttpRequest> {
    match c
    case Arm(r, timeout, _, _) => DeadlineSpec.Add(r, Deadline(at, timeout))
    case Disarm(r, _) => DeadlineSpec.Del(r)
    case Expire(_) => DeadlineSpec.Expire(at)
  }

  function OpsOf(calls: seq<Call>, times: seq<nat>): (ops: seq<DeadlineSpec.Op<HttpRequest>>)
    requires |times| <= |calls|
    ensures |ops| == |times| && forall i :: 0 <= i < |ops| ==> ops[i] == OpOf(calls[i], times[i])
  {
    seq(|times|, i requires 0 <= i < |times| => OpOf(calls[i], times[i]))
  }

  function TimeBefore(start: nat, times: seq<nat>, i: nat): nat
    requires i <= |times|
  {
    if i == 0 then start else times[i - 1]
  }

  /** The clock can show `t` during the call. */
  ghost predicate Reads(c: Call, t: nat) {
    match c
    case Expire(clock) => exists k :: clock(k) == Some(t)
    case _ => c.now == Some(t)
  }

  /** No clock goes back, within a call or from one to the next. */
  ghost predicate Rising(start: nat, calls: seq<Call>) {
    && (forall i, t :: 0 <= i < |calls| && Reads(calls[i], t) ==> start <= t)
    && (forall i, j, s, t :: 0 <= i < j < |calls| && Reads(calls[i], s) && Reads(calls[j], t) ==> s <= t)
    && (forall i :: 0 <= i < |calls| && calls[i].Expire? ==> NonDecreasing(calls[i].clock, 0))
  }

  /** No request is armed again while it is armed. */
  predicate ArmedOnce(ops: seq<DeadlineSpec.Op<HttpRequest>>) {
    forall k :: 0 <= k < |ops| && ops[k].Add? ==> ops[k].request !in DeadlineSpec.After(ops[..k])
  }

  ghost predicate FiresExactly(d: DeadlineSpec.Deadlines<HttpRequest>, now: nat, fired: seq<TimeNode>) {
    && Sorted(fired) && Requests(fired) == DeadlineSpec.Due(d, now)
    && forall i, j :: 0 <= i < j < |fired| ==> fired[i].request != fired[j].request
  }

  /** In terms of the history: who was armed, not re-armed, cancelled or fired since, and is due. */
  lemma FiresExactlyIff(ops: seq<DeadlineSpec.Op<HttpRequest>>, now: nat, fired: seq<TimeNode>, r: HttpRequest)
    requires FiresExactly(DeadlineSpec.After(ops), now, fired)
    ensures r in Requests(fired) <==>
            exists j: nat :: DeadlineSpec.StillArmedBy(ops, j, r) && ops[j].deadline <= now
  {
    DeadlineSpec.FiresIff(ops, now, r);
  }

  /** What the code relies on its callers for: room in the heap, and a timer to delete. */
  predicate Allowed(time: Time, c: Call)
    reads time.pq, if c.Disarm? then {c.request} else {}
  {
    match c
    case Arm(_, _, _, _) => time.pq.size < HEAPSIZE - 1
    case Disarm(r, _) => r.timer != null
    case Expire(_) => true
  }

  predicate OwnTimer(c: Call)
    reads if c.Expire? then {} else {c.request}
  {
    c.Expire? || c.request.timer == null || c.request.timer.request == c.request
  }

  function Nodes(fired: seq<TimeNode>): set<TimeNode> {
    set n | n in fired
  }

  /** The timer of the request that the call is about. */
  ghost function TimerOf(c: Call): TimeNode?
    reads if c.Expire? then {} else {c.request}
  {
    if c.Expire? then null else c.request.timer
  }

  /** What the call does to the live nodes, and which of them it fires. */
  ghost predicate Handled(c: Call, live: set<TimeNode>, after: set<TimeNode>, node: TimeNode?, now: nat, fired: seq<TimeNode>) {
    match c
    case Arm(r, timeout, _, _) => node != null && node.request == r && node.key == Deadline(now, timeout) && after == live + {node}
    case Disarm(_, _) => node != null && after == live - {node}
    case Expire(_) =>
      && Sorted(fired) && Nodes(fired) == (set n | n in live && n.key <= now)
      && after == set n | n in live && n.key > now
  }

  lemma FiresLive(start: set<TimeNode>, dead: set<TimeNode>, held: set<TimeNode>, fired: seq<TimeNode>, now: nat)
    requires Progress(start, dead, held, fired)
    ensures Sorted(fired) && held <= start
    ensures (forall n :: n in held && n !in dead ==> n.key > now) && (forall n :: n in fired ==> n.key <= now) ==>
              && Nodes(fired) == (set n | n in start - dead && n.key <= now)
              && held - dead == set n | n in start - dead && n.key > now
  {
  }

  method Perform(time: Time, ghost held: set<TimeNode>, c: Call) returns (fired: seq<TimeNode>)
    requires time.Valid() && Allowed(time, c) && OwnTimer(c) && held == time.Held()
    modifies time, time.pq, time.pq.heap
    modifies (if c.Arm? then {c.request} else {})`timer
    modifies (if c.Disarm? && c.request.timer != null then {c.request.timer} else {})`deleted
    ensures time.Valid() && OwnTimer(c)
    ensures Stamp(c, old(time.currentTime), time.currentTime)
    ensures time.deadlines == DeadlineSpec.Apply(old(time.deadlines), OpOf(c, time.currentTime))
    ensures c.Arm? ==> c.request.timer != null && fresh(c.request.timer)
    ensures !c.Expire? ==> fired == []
    ensures old(time.Refreshed()) && (c.Arm? ==> c.request !in old(time.deadlines)) &&
            (c.Expire? ==> NonDecreasing(c.clock, old(time.currentTime))) ==>
              && time.Refreshed()
              && (c.Expire? ==> FiresExactly(old(time.deadlines), time.currentTime, fired))
    ensures (c.Expire? ==> NonDecreasing(c.clock, old(time.currentTime))) ==>
              Handled(c, old(time.Live()), time.Live(), TimerOf(c), time.currentTime, fired)
    ensures c.Disarm? ==> c.request.timer == old(c.request.timer)
  {
    hide Time.Valid, Time.Held, Tied, NonDecreasing, Shown, Progress;
    fired := [];
    ghost var dead := time.DeadNodes();
    match c
    case Arm(r, timeout, handler, now) =>
      time.Add(r, timeout, handler, now);
      assert time.Live() == old(time.Live()) + {r.timer};
    case Disarm(r, now) =>
      time.Cancel(r, now);
      assert time.Live() == old(time.Live()) - {r.timer};
    case Expire(clock) =>
      var calls;
      fired, calls := time.HandleExpired(clock);
      FiresLive(held, dead, time.Held(), fired, time.currentTime);
      assert held - dead == old(time.Live()) && time.Held() - dead == time.Live();
  }

  /** `now` is where the clock started or what it has shown in one of the first `n` calls. */
  ghost predicate Past(start: nat, calls: seq<Call>, n: nat, now: nat) {
    now == start || exists j :: 0 <= j < n && j < |calls| && Reads(calls[j], now)
  }

  lemma PastNext(start: nat, calls: seq<Call>, n: nat, before: nat, after: nat)
    requires n < |calls| && Past(start, calls, n, before) && Stamp(calls[n], before, after)
    ensures Past(start, calls, n + 1, after)
  {
    assert after == before || Reads(calls[n], after);
  }

  lemma RisingAhead(start: nat, calls: seq<Call>, n: nat, now: nat)
    requires n < |calls| && Past(start, calls, n, now) && Rising(start, calls) && calls[n].Expire?
    ensures NonDecreasing(calls[n].clock, now)
  {
    forall k | calls[n].clock(k).Some?
      ensures now <= calls[n].clock(k).value
    {
      assert Reads(calls[n], calls[n].clock(k).value);
    }
  }

  lemma OpsNext(calls: seq<Call>, times: seq<nat>, t: nat)
    requires |times| < |calls|
    ensures var ops := OpsOf(calls, times + [t]);
            && ops == OpsOf(calls, times) + [OpOf(calls[|times|], t)]
            && DeadlineSpec.After(ops) == DeadlineSpec.Apply(DeadlineSpec.After(OpsOf(calls, times)), OpOf(calls[|times|], t))
            && (ArmedOnce(ops) ==>
                  && ArmedOnce(OpsOf(calls, times))
                  && (calls[|times|].Arm? ==> calls[|times|].request !in DeadlineSpec.After(OpsOf(calls, times))))
  {
    var ops, before := OpsOf(calls, times + [t]), OpsOf(calls, times);
    assert ops == before + [OpOf(calls[|times|], t)];
    assert ops[..|before|] == before;
    assert forall k :: 0 <= k <= |before| ==> ops[..k] == before[..k];
  }

  /** The i-th call, if an expiry, fired exactly what the history before it says. */
  ghost predicate FiredRight(calls: seq<Call>, times: seq<nat>, fired: seq<seq<TimeNode>>, i: nat)
    requires |times| == |fired| <= |calls|
  {
    i < |times| ==>
      if calls[i].Expire? then FiresExactly(DeadlineSpec.After(OpsOf(calls, times)[..i]), times[i], fired[i])
      else fired[i] == []
  }

  lemma FiredRightStays(calls: seq<Call>, times: seq<nat>, fired: seq<seq<TimeNode>>, i: nat, t: nat, f: seq<TimeNode>)
    requires |times| == |fired| < |calls| && i < |times| && FiredRight(calls, times, fired, i)
    ensures FiredRight(calls, times + [t], fired + [f], i)
  {
    assert OpsOf(calls, times + [t])[..i] == OpsOf(calls, times)[..i];
  }

  lemma FiredNow(calls: seq<Call>, times: seq<nat>, fired: seq<seq<TimeNode>>, t: nat, f: seq<TimeNode>)
    requires |times| == |fired| < |calls|
    ensures FiredRight(calls, times + [t], fired + [f], |times|) <==>
            if calls[|times|].Expire? then FiresExactly(DeadlineSpec.After(OpsOf(calls, times)), t, f) else f == []
  {
    assert OpsOf(calls, times + [t])[..|times|] == OpsOf(calls, times);
  }

  /** What the calls made so far, at these times and with these nodes fired, have led to. */
  ghost predicate History(start: nat, calls: seq<Call>, times: seq<nat>, fired: seq<seq<TimeNode>>,
                          d: DeadlineSpec.Deadlines<HttpRequest>, now: nat, tied: bool)
  {
    && |times| == |fired| <= |calls|
    && now == TimeBefore(start, times, |times|) && Past(start, calls, |times|, now)
    && (forall i :: 0 <= i < |times| ==> Stamp(calls[i], TimeBefore(start, times, i), times[i]))
    && d == DeadlineSpec.After(OpsOf(calls, times))
    && (ArmedOnce(OpsOf(calls, times)) && Rising(start, calls) ==>
          tied && forall i: nat :: i < |times| ==> FiredRight(calls, times, fired, i))
  }

  lemma HistoryBegins(start: nat, calls: seq<Call>)
    ensures History(start, calls, [], [], map[], start, true)
  {
  }

  lemma HistoryGoesOn(start: nat, calls: seq<Call>, times: seq<nat>, fired: seq<seq<TimeNode>>,
                      d: DeadlineSpec.Deadlines<HttpRequest>, now: nat, tied: bool,
                      d': DeadlineSpec.Deadlines<HttpRequest>, now': nat, tied': bool, f: seq<TimeNode>)
    requires History(start, calls, times, fired, d, now, tied) && |times| < |calls|
    requires var c := calls[|times|];
             && Stamp(c, now, now') && d' == DeadlineSpec.Apply(d, OpOf(c, now')) && (!c.Expire? ==> f == [])
             && (tied && (c.Arm? ==> c.request !in d) && (c.Expire? ==> NonDecreasing(c.clock, now)) ==>
                   tied' && (c.Expire? ==> FiresExactly(d, now', f)))
    ensures History(start, calls, times + [now'], fired + [f], d', now', tied')
  {
    hide Rising, Stamp, OpsOf, OpOf, ArmedOnce, FiresExactly, FiredRight, Past, NonDecreasing;
    hide DeadlineSpec.Apply, DeadlineSpec.After;
    var n, c := |times|, calls[|times|];
    if c.Expire? && Rising(start, calls) {
      RisingAhead(start, calls, n, now);
    }
    PastNext(start, calls, n, now, now');
    OpsNext(calls, times, now');
    forall i: nat | i < n && FiredRight(calls, times, fired, i)
      ensures FiredRight(calls, times + [now'], fired + [f], i)
    {
      FiredRightStays(calls, times, fired, i, now', f);
    }
    FiredNow(calls, times, fired, now', f);
  }

  // ---------- Whole histories, node by node ----------

  /** One node for each arming, with its request and deadline. */
  ghost predicate Armings(ops: seq<DeadlineSpec.Op<HttpRequest>>, nodes: seq<TimeNode?>) {
    && |nodes| == |ops|
    && (forall j :: 0 <= j < |ops| && ops[j].Add? ==>
          nodes[j] != null && nodes[j].request == ops[j].request && nodes[j].key == ops[j].deadline)
    && (forall i, j :: 0 <= i < j < |ops| && ops[i].Add? && ops[j].Add? ==> nodes[i] != nodes[j])
  }

  /** The nodes of some of the armings. */
  function NodesOf(nodes: seq<TimeNode?>, armings: set<nat>): set<TimeNode> {
    set j | j in armings && j < |nodes| && nodes[j] != null :: nodes[j]
  }

  /** The armings in force that are due. */
  function DueArmings(ops: seq<DeadlineSpec.Op<HttpRequest>>, now: nat): set<nat> {
    set j: nat | j < |ops| && DeadlineSpec.InForce(ops, j) && ops[j].deadline <= now
  }

  ghost predicate FiresArmings(ops: seq<DeadlineSpec.Op<HttpRequest>>, nodes: seq<TimeNode?>, now: nat, fired: seq<TimeNode>) {
    Sorted(fired) && Nodes(fired) == NodesOf(nodes, DueArmings(ops, now))
  }

  /** The timer of a request is the node of its last arming. */
  function TimerAfter(ops: seq<DeadlineSpec.Op<HttpRequest>>, nodes: seq<TimeNode?>, r: HttpRequest): TimeNode?
    requires |nodes| == |ops|
  {
    var k := DeadlineSpec.LastArmed(ops, r);
    if k < 0 then null else nodes[k]
  }

  function NodeOf(c: Call, node: TimeNode?): TimeNode? {
    if c.Arm? then node else null
  }

  lemma TimerNext(ops: seq<DeadlineSpec.Op<HttpRequest>>, nodes: seq<TimeNode?>, c: Call, now: nat, node: TimeNode?, r: HttpRequest)
    requires |nodes| == |ops|
    ensures TimerAfter(ops + [OpOf(c, now)], nodes + [NodeOf(c, node)], r) ==
            if c.Arm? && c.request == r then node else TimerAfter(ops, nodes, r)
  {
    assert (ops + [OpOf(c, now)])[..|ops|] == ops;
  }

  lemma ArmingsNext(ops: seq<DeadlineSpec.Op<HttpRequest>>, nodes: seq<TimeNode?>, c: Call, now: nat, node: TimeNode?)
    requires Armings(ops, nodes)
    requires c.Arm? ==> node != null && node !in nodes && node.request == c.request && node.key == Deadline(now, c.timeout)
    ensures Armings(ops + [OpOf(c, now)], nodes + [NodeOf(c, node)])
  {
  }

  /** The call takes the live nodes from those of the armings in force to those of the armings still in force. */
  lemma LiveNext(ops: seq<DeadlineSpec.Op<HttpRequest>>, nodes: seq<TimeNode?>, c: Call, now: nat, node: TimeNode?,
                 after: set<TimeNode>, fired: seq<TimeNode>)
    requires Armings(ops, nodes) && Handled(c, NodesOf(nodes, DeadlineSpec.Live(ops)), after, node, now, fired)
    requires c.Disarm? ==> node == TimerAfter(ops, nodes, c.request)
    ensures after == NodesOf(nodes + [NodeOf(c, node)], DeadlineSpec.Live(ops + [OpOf(c, now)]))
    ensures c.Expire? ==> FiresArmings(ops, nodes, now, fired)
  {
    var op := OpOf(c, now);
    assert (ops + [op])[..|ops|] == ops;
    var live, later := DeadlineSpec.Live(ops), DeadlineSpec.Live(ops + [op]);
    match c {
    case Arm(_, _, _, _) => OneMoreNode(ops, nodes, live, node);
    case Disarm(r, _) => OneNodeLess(ops, nodes, live, DeadlineSpec.LastArmed(ops, r));
    case Expire(_) =>
      NotDue(ops, nodes, live, now);
      assert later == set j | j in live && ops[j].deadline > now;
      forall j: nat { DeadlineSpec.LiveIff(ops, j); }
      assert DueArmings(ops, now) == set j | j in live && ops[j].deadline <= now;
    }
  }

  lemma OneMoreNode(ops: seq<DeadlineSpec.Op<HttpRequest>>, nodes: seq<TimeNode?>, live: set<nat>, node: TimeNode)
    requires Armings(ops, nodes) && forall j :: j in live ==> j < |ops| && ops[j].Add?
    ensures NodesOf(nodes + [node], live + {|ops|}) == NodesOf(nodes, live) + {node}
  {
    forall j | j in live
      ensures (nodes + [node])[j] == nodes[j] && nodes[j] in NodesOf(nodes + [node], live + {|ops|})
    {
    }
    assert (nodes + [node])[|ops|] == node;
  }

  lemma OneNodeLess(ops: seq<DeadlineSpec.Op<HttpRequest>>, nodes: seq<TimeNode?>, live: set<nat>, k: nat)
    requires Armings(ops, nodes) && k < |ops| && ops[k].Add? && forall j :: j in live ==> j < |ops| && ops[j].Add?
    ensures NodesOf(nodes + [null], live - {k}) == NodesOf(nodes, live) - {nodes[k]}
  {
    forall j | j in live && j != k
      ensures (nodes + [null])[j] == nodes[j] && nodes[j] != nodes[k] && nodes[j] in NodesOf(nodes + [null], live - {k})
    {
      assert j < k || k < j;
    }
  }

  /** Due armings and due nodes are the same, and so are the others. */
  lemma NotDue(ops: seq<DeadlineSpec.Op<HttpRequest>>, nodes: seq<TimeNode?>, live: set<nat>, now: nat)
    requires Armings(ops, nodes) && forall j :: j in live ==> j < |ops| && ops[j].Add?
    ensures (set n | n in NodesOf(nodes, live) && n.key > now) ==
            NodesOf(nodes + [null], set j | j in live && ops[j].deadline > now)
    ensures (set n | n in NodesOf(nodes, live) && n.key <= now) == NodesOf(nodes, set j | j in live && ops[j].deadline <= now)
  {
    var kept, due := set j | j in live && ops[j].deadline > now, set j | j in live && ops[j].deadline <= now;
    forall j | j in live
      ensures nodes[j] != null && nodes[j].key == ops[j].deadline && (nodes + [null])[j] == nodes[j]
      ensures nodes[j] in NodesOf(nodes, live)
      ensures j in kept ==> nodes[j] in NodesOf(nodes + [null], kept)
      ensures j in due ==> nodes[j] in NodesOf(nodes, due)
    {
    }
  }

  /** The i-th call, if an expiry, fired the node of each arming in force that was due, once each. */
  ghost predicate FiredArmings(calls: seq<Call>, times: seq<nat>, fired: seq<seq<TimeNode>>, nodes: seq<TimeNode?>, i: nat)
    requires |times| == |fired| == |nodes| <= |calls|
  {
    i < |times| && calls[i].Expire? ==> FiresArmings(OpsOf(calls, times)[..i], nodes[..i], times[i], fired[i])
  }

  ghost predicate Ledger(start: nat, calls: seq<Call>, times: seq<nat>, fired: seq<seq<TimeNode>>,
                         nodes: seq<TimeNode?>, live: set<TimeNode>)
  {
    && |times| == |fired| == |nodes| <= |calls| && Armings(OpsOf(calls, times), nodes)
    && (Rising(start, calls) ==>
          && live == NodesOf(nodes, DeadlineSpec.Live(OpsOf(calls, times)))
          && forall i: nat :: i < |times| ==> FiredArmings(calls, times, fired, nodes, i))
  }

  lemma FiredArmingsStay(calls: seq<Call>, times: seq<nat>, fired: seq<seq<TimeNode>>, nodes: seq<TimeNode?>,
                         i: nat, t: nat, f: seq<TimeNode>, node: TimeNode?)
    requires |times| == |fired| == |nodes| < |calls| && i < |times|
    ensures FiredArmings(calls, times + [t], fired + [f], nodes + [node], i) <==> FiredArmings(calls, times, fired, nodes, i)
  {
    assert OpsOf(calls, times + [t])[..i] == OpsOf(calls, times)[..i] && (nodes + [node])[..i] == nodes[..i];
  }

  lemma FiredArmingsNow(calls: seq<Call>, times: seq<nat>, fired: seq<seq<TimeNode>>, nodes: seq<TimeNode?>,
                        t: nat, f: seq<TimeNode>, node: TimeNode?)
    requires |times| == |fired| == |nodes| < |calls|
    ensures FiredArmings(calls, times + [t], fired + [f], nodes + [node], |times|) <==>
            (calls[|times|].Expire? ==> FiresArmings(OpsOf(calls, times), nodes, t, f))
  {
    assert OpsOf(calls, times + [t])[..|times|] == OpsOf(calls, times) && (nodes + [node])[..|times|] == nodes;
  }

  /** No expiry fires a timer before its time; sums that wrap around are another matter. */
  ghost predicate NoneEarly(calls: seq<Call>, times: seq<nat>, fired: seq<seq<TimeNode>>, nodes: seq<TimeNode?>)
    requires |times| == |fired| == |nodes| <= |calls|
  {
    forall i, j :: 0 <= j < |times| && 0 <= i < |times| && calls[j].Arm? && calls[i].Expire? && nodes[j] in fired[i] ==>
      times[j] + calls[j].timeout > SIZE_MAX || times[j] + calls[j].timeout <= times[i]
  }

  lemma FiredInTime(calls: seq<Call>, times: seq<nat>, fired: seq<seq<TimeNode>>, nodes: seq<TimeNode?>)
    requires |times| == |fired| == |nodes| <= |calls| && Armings(OpsOf(calls, times), nodes)
    requires forall i: nat :: i < |times| ==> FiredArmings(calls, times, fired, nodes, i)
    ensures NoneEarly(calls, times, fired, nodes)
  {
    forall i: nat, j: nat | i < |times| && j < |times| && calls[j].Arm? && calls[i].Expire? && nodes[j] in fired[i]
      ensures times[j] + calls[j].timeout > SIZE_MAX || times[j] + calls[j].timeout <= times[i]
    {
      assert FiredArmings(calls, times, fired, nodes, i);
      assert nodes[j] in Nodes(fired[i]);
      var ops := OpsOf(calls, times);
      var k :| k in DueArmings(ops[..i], times[i]) && nodes[..i][k] == nodes[j];
      assert nodes[k] == nodes[j] && nodes[k].key == ops[k].deadline <= times[i];
      assert nodes[j].key == ops[j].deadline == Deadline(times[j], calls[j].timeout);
    }
  }

  lemma LedgerBegins(start: nat, calls: seq<Call>)
    ensures Ledger(start, calls, [], [], [], {}) && forall r :: TimerAfter(OpsOf(calls, []), [], r) == null
  {
  }

  lemma LedgerGoesOn(start: nat, calls: seq<Call>, times: seq<nat>, fired: seq<seq<TimeNode>>, nodes: seq<TimeNode?>,
                     d: DeadlineSpec.Deadlines<HttpRequest>, live: set<TimeNode>, now: nat, tied: bool,
                     now': nat, node: TimeNode?, after: set<TimeNode>, f: seq<TimeNode>)
    requires History(start, calls, times, fired, d, now, tied) && Ledger(start, calls, times, fired, nodes, live) && |times| < |calls|
    requires var c := calls[|times|];
             && ((c.Expire? ==> NonDecreasing(c.clock, now)) ==> Handled(c, live, after, node, now', f))
             && (c.Arm? ==> node !in nodes) && (c.Disarm? ==> node == TimerAfter(OpsOf(calls, times), nodes, c.request))
    ensures Ledger(start, calls, times + [now'], fired + [f], nodes + [NodeOf(calls[|times|], node)], after)
    ensures forall r ::
              TimerAfter(OpsOf(calls, times + [now']), nodes + [NodeOf(calls[|times|], node)], r) ==
              if calls[|times|].Arm? && calls[|times|].request == r then node else TimerAfter(OpsOf(calls, times), nodes, r)
  {
    hide FiredRight, ArmedOnce, Stamp, Past, DeadlineSpec.After, DeadlineSpec.Live, DeadlineSpec.LastArmed, FiredArmings, OpsOf, TimerAfter, NonDecreasing, FiresArmings;
    var n, c := |times|, calls[|times|];
    var x := NodeOf(c, node);
    OpsNext(calls, times, now');
    ArmingsNext(OpsOf(calls, times), nodes, c, now', node);
    forall r { TimerNext(OpsOf(calls, times), nodes, c, now', node, r); }
    if Rising(start, calls) {
      if c.Expire? {
        RisingAhead(start, calls, n, now);
      }
      hide Rising, OpsOf, OpOf, Past, NonDecreasing, Armings, Handled, FiresArmings, FiredArmings, NodesOf, TimerAfter;
      LiveNext(OpsOf(calls, times), nodes, c, now', node, after, f);
      forall i: nat | i < n
        ensures FiredArmings(calls, times + [now'], fired + [f], nodes + [x], i)
      {
        FiredArmingsStay(calls, times, fired, nodes, i, now', f, x);
      }
      FiredArmingsNow(calls, times, fired, nodes, now', f, x);
    }
  }

  /**
    Any history of calls on one timer, up to the first that the code does not allow. The
    deadlines are those of the history. If no clock goes back, each expiry fires, once each
    and in order, the nodes of exactly those armings that are due and in force, however often
    a request was armed; and if no armed request is armed again, every request keeps at most
    one live node and the expiry fires exactly the requests that are due by the history.
   */
  method Play(now: Option<nat>, calls: seq<Call>)
    returns (time: Time, times: seq<nat>, fired: seq<seq<TimeNode>>, ghost nodes: seq<TimeNode?>)
    requires forall c :: c in calls && !c.Expire? ==> c.request.timer == null
    modifies (set c | c in calls && !c.Expire? :: c.request)`timer
    ensures time.Valid() && |times| == |fired| == |nodes| <= |calls|
    ensures |times| < |calls| ==> !Allowed(time, calls[|times|])
    ensures Armings(OpsOf(calls, times), nodes)
    ensures var start := if now.Some? then now.value else 0;
            && (forall i :: 0 <= i < |times| ==> Stamp(calls[i], TimeBefore(start, times, i), times[i]))
            && time.deadlines == DeadlineSpec.After(OpsOf(calls, times))
            && (Rising(start, calls) ==>
                  && (forall i: nat :: i < |times| ==> FiredArmings(calls, times, fired, nodes, i))
                  && NoneEarly(calls, times, fired, nodes))
            && (ArmedOnce(OpsOf(calls, times)) && Rising(start, calls) ==>
                  time.Refreshed() && forall i: nat :: i < |times| ==> FiredRight(calls, times, fired, i))
  {
    hide Time.Valid, Tied, Time.Held, Time.Live, History, Ledger, Handled, TimerAfter, OpsOf, Armings, OpOf, Allowed, NonDecreasing, Stamp, FiresExactly;
    time := new Time(now);
    times, fired, nodes := [], [], [];
    ghost var start := time.currentTime;
    HistoryBegins(start, calls);
    LedgerBegins(start, calls);
    while |times| < |calls| && Allowed(time, calls[|times|])
      invariant time.Valid() && fresh(time) && fresh(time.pq) && fresh(time.pq.heap)
      invariant |times| == |fired| == |nodes| <= |calls|
      invariant forall c :: c in calls ==> OwnTimer(c) && (!c.Expire? && c.request.timer != null ==> fresh(c.request.timer))
      invariant History(start, calls, times, fired, time.deadlines, time.currentTime, time.Refreshed())
      invariant Ledger(start, calls, times, fired, nodes, time.Live())
      invariant forall c :: c in calls && !c.Expire? ==> c.request.timer == TimerAfter(OpsOf(calls, times), nodes, c.request)
      decreases |calls| - |times|
    {
      ghost var before, at, tied, live := time.deadlines, time.currentTime, time.Refreshed(), time.Live();
      ghost var c := calls[|times|];
      var f := Perform(time, time.Held(), calls[|times|]);
      HistoryGoesOn(start, calls, times, fired, before, at, tied, time.deadlines, time.currentTime, time.Refreshed(), f);
      LedgerGoesOn(start, calls, times, fired, nodes, before, live, at, tied, time.currentTime, TimerOf(c), time.Live(), f);
      times, fired, nodes := times + [time.currentTime], fired + [f], nodes + [NodeOf(c, TimerOf(c))];
    }
    Told(start, calls, times, fired, nodes, time.deadlines, time.Live(), time.currentTime, time.Refreshed());
  }

  lemma Told(start: nat, calls: seq<Call>, times: seq<nat>, fired: seq<seq<TimeNode>>, nodes: seq<TimeNode?>,
             d: DeadlineSpec.Deadlines<HttpRequest>, live: set<TimeNode>, now: nat, tied: bool)
    requires History(start, calls, times, fired, d, now, tied) && Ledger(start, calls, times, fired, nodes, live)
    ensures |times| == |fired| == |nodes| <= |calls| && d == DeadlineSpec.After(OpsOf(calls, times))
    ensures Armings(OpsOf(calls, times), nodes)
    ensures forall i :: 0 <= i < |times| ==> Stamp(calls[i], TimeBefore(start, times, i), times[i])
    ensures Rising(start, calls) ==>
              && (forall i: nat :: i < |times| ==> FiredArmings(calls, times, fired, nodes, i))
              && NoneEarly(calls, times, fired, nodes)
    ensures ArmedOnce(OpsOf(calls, times)) && Rising(start, calls) ==>
              tied && forall i: nat :: i < |times| ==> FiredRight(calls, times, fired, i)
  {
    if Rising(start, calls) {
      FiredInTime(calls, times, fired, nodes);
    }
  }

  /** An expiry makes a request fire twice exactly if two due armings of it are in force. */
  lemma FiresTwiceIff(ops: seq<DeadlineSpec.Op<HttpRequest>>, nodes: seq<TimeNode?>, now: nat, fired: seq<TimeNode>, r: HttpRequest)
    requires Armings(ops, nodes) && FiresArmings(ops, nodes, now, fired)
    ensures (exists i, j :: 0 <= i < j < |fired| && fired[i].request == fired[j].request == r) <==>
            exists i, j :: i in DueArmings(ops, now) && j in DueArmings(ops, now) && i < j && ops[i].request == ops[j].request == r
  {
    var due := DueArmings(ops, now);
    if i, j :| 0 <= i < j < |fired| && fired[i].request == fired[j].request == r {
      assert fired[i] in Nodes(fired) && fired[j] in Nodes(fired);
      var a :| a in due && nodes[a] == fired[i];
      var b :| b in due && nodes[b] == fired[j];
      assert a != b && ops[a].request == ops[b].request == r;
      assert a < b || b < a;
    }
    if a, b :| a in due && b in due && a < b && ops[a].request == ops[b].request == r {
      assert nodes[a] in NodesOf(nodes, due) && nodes[b] in NodesOf(nodes, due);
      assert nodes[a] in Nodes(fired) && nodes[b] in Nodes(fired);
      var i :| 0 <= i < |fired| && fired[i] == nodes[a];
      var j :| 0 <= j < |fired| && fired[j] == nodes[b];
      assert i < j || j < i;
    }
  }

  lemma Pigeons(fired: seq<TimeNode>, a: TimeNode, b: TimeNode)
    requires forall i :: 0 <= i < |fired| ==> fired[i] in {a, b}
    ensures |fired| > 2 ==> exists i, j :: 0 <= i < j < |fired| && fired[i] == fired[j]
  {
    if |fired| > 2 {
      assert fired[0] == fired[1] || fired[0] == fired[2] || fired[1] == fired[2];
    }
  }

  lemma BothFire(a: TimeNode, b: TimeNode, held: set<TimeNode>, fired: seq<TimeNode>)
    requires a != b && a.request == b.request && a.handler && b.handler
    requires Progress({a, b}, {}, held, fired) && held == {}
    ensures Calls(fired) == [a.request, a.request]
  {
    assert a in fired && b in fired;
    assert forall i :: 0 <= i < |fired| ==> fired[i] in {a, b} by {
      assert forall i :: 0 <= i < |fired| ==> fired[i] in fired;
    }
    var i :| 0 <= i < |fired| && fired[i] == a;
    var j :| 0 <= j < |fired| && fired[j] == b;
    Pigeons(fired, a, b);
    assert |fired| == 2;
    var one := fired[..1];
    assert one == [fired[0]] && one[..0] == [];
    assert Calls(one) == [] + [fired[0].request];
    assert Calls(fired) == Calls(one) + [fired[1].request];
  }

  /** At time 9, two timers for one request, both due at once. */
  method ArmTwice() returns (time: Time, request: HttpRequest, first: TimeNode, second: TimeNode)
    ensures time.Valid() && time.currentTime == 9 && fresh(time) && fresh(time.pq) && fresh(time.pq.heap)
    ensures time.Held() == {first, second} && first != second && !first.deleted && !second.deleted
    ensures first.key == second.key == 9 && first.handler && second.handler
    ensures first.request == second.request == request
    ensures !time.Refreshed()
  {
    hide Time.Valid, Time.Held;
    request := new HttpRequest();
    time := new Time(Some(9));
    time.Add(request, 0, true, None);
    first := request.timer;
    time.Add(request, 0, true, None);
    second := request.timer;
    assert first in time.Held() && second in time.Held();
  }

  /** Arming an armed request again leaves its first timer behind: the request fires twice. */
  method ArmedTwiceFiresTwice(clock: Clock) returns (request: HttpRequest, calls: seq<HttpRequest>)
    requires NonDecreasing(clock, 9)
    ensures calls == [request, request]
  {
    hide Time.Valid, Tied, Progress, Calls, Sorted, Shown, NonDecreasing;
    var time, first, second, fired;
    time, request, first, second := ArmTwice();
    assert time.DeadNodes() == {};
    fired, calls := time.HandleExpired(clock);
    NothingLeft({first, second}, time.Held(), fired, clock, time.currentTime);
    BothFire(first, second, time.Held(), fired);
  }

  lemma NothingLeft(start: set<TimeNode>, held: set<TimeNode>, fired: seq<TimeNode>, clock: Clock, now: nat)
    requires Progress(start, {}, held, fired) && Shown(clock, 9, now) && NonDecreasing(clock, 9)
    requires forall n :: n in start ==> n.key == 9 && !n.deleted
    requires forall n :: n in held && !n.deleted ==> n.key > now
    ensures held == {}
  {
    assert now >= 9;
  }
}

/**
  The cross-thread task queue of an event loop. Producers append a task under the
  mutex and write the eventfd afterwards, outside it; the loop sleeps in epoll_wait,
  on a one-shot wake channel that its handler must drain and then re-arm.

  A schedule is any sequence of thread turns; a turn that is not possible does nothing.
 */
module EventLoopSpec {
  import opened Sequences

  /** What epoll_wait can report: the wake channel or some other channel. */
  datatype Ready = WakeReady | OtherReady

  datatype Pc =
    | NotStarted                               // before loop()
    | Polling                                  // in epoll_wait, or about to call it
    | Dispatching(active: seq<Ready>)          // the head of `active` is being handled
    | Rearming(active: seq<Ready>)             // wake handler: read done, channel not re-armed
    | Swapping                                 // handle_pending_functions is set
    | Running(next: nat)                       // functors[next] is the next to run

  datatype State<T> = State(
    pc: Pc,
    counter: nat,          // of the eventfd
    armed: bool,           // the wake channel is armed in epoll
    handling: bool,        // handle_pending_functions
    pending: seq<T>,
    functors: seq<T>,
    writers: nat,          // other threads between their push and their write
    ownWrite: bool,        // the loop's own thread is between its push and its write
    // history
    queued: seq<T>,        // every task, in lock order
    executed: seq<T>,
    rounds: nat,           // how often the queue has been swapped out
    pushedIn: seq<nat>,    // the round in which each queued task was pushed
    ranIn: seq<nat>)       // the round in which each executed task ran

  datatype Event<T> =
    | Start
    | Push(task: T) | Write
    | OwnPush(task: T) | OwnWrite
    | Poll(ready: seq<Ready>) | Handle | Spin | Rearm | Finish   // Spin: the handler is not done yet
    | Swap | Run | End

  const COUNTER_MAX := 0xffff_ffff_ffff_fffe

  /** write(2) of 1 to a non-blocking eventfd: at the maximum it fails, and stays positive. */
  function Bump(counter: nat): nat {
    if counter < COUNTER_MAX then counter + 1 else counter
  }

  /** A channel is reported at most once, and only when armed and ready. */
  predicate CanReport<T>(s: State<T>, ready: seq<Ready>) {
    && (WakeReady in ready ==> s.armed && s.counter > 0)
    && (forall i, j :: 0 <= i < j < |ready| ==> !(ready[i] == WakeReady && ready[j] == WakeReady))
  }

  /** Where callbacks run on the loop's own thread: handlers and tasks. */
  predicate InCallback(pc: Pc) {
    (pc.Dispatching? && pc.active != []) || (pc.Running? && pc.next > 0)
  }

  predicate Enabled<T>(s: State<T>, e: Event<T>) {
    match e
    case Push(_) => true
    case Write => s.writers > 0
    case OwnWrite => s.ownWrite
    case Start => !s.ownWrite && s.pc == NotStarted
    case OwnPush(_) => !s.ownWrite && (s.pc == NotStarted || InCallback(s.pc))
    case Poll(ready) => !s.ownWrite && s.pc == Polling && CanReport(s, ready)
    case Handle => !s.ownWrite && s.pc.Dispatching? && s.pc.active != []
    case Spin => !s.ownWrite && s.pc.Dispatching? && s.pc.active != []
    case Rearm => !s.ownWrite && s.pc.Rearming?
    case Finish => !s.ownWrite && s.pc.Dispatching? && s.pc.active == []
    case Swap => !s.ownWrite && s.pc == Swapping
    case Run => !s.ownWrite && s.pc.Running? && s.pc.next < |s.functors|
    case End => !s.ownWrite && s.pc.Running? && s.pc.next >= |s.functors|
  }

  function Queue<T>(s: State<T>, task: T): State<T> {
    s.(pending := s.pending + [task], queued := s.queued + [task], pushedIn := s.pushedIn + [s.rounds])
  }

  function Step<T>(s: State<T>, e: Event<T>): State<T> {
    if !Enabled(s, e) then s else
    match e
    case Push(task) => Queue(s, task).(writers := s.writers + 1)
    case Write => s.(writers := s.writers - 1, counter := Bump(s.counter))
    case OwnPush(task) => Queue(s, task).(ownWrite := s.handling)
    case OwnWrite => s.(ownWrite := false, counter := Bump(s.counter))
    case Start => s.(pc := Polling)
    case Poll(ready) => s.(pc := Dispatching(ready), armed := s.armed && WakeReady !in ready)
    case Handle =>
      if s.pc.active[0] == WakeReady then s.(counter := 0, pc := Rearming(s.pc.active))
      else s.(pc := Dispatching(s.pc.active[1..]))
    case Spin => s
    case Rearm => s.(armed := true, pc := Dispatching(if s.pc.active == [] then [] else s.pc.active[1..]))
    case Finish => s.(handling := true, pc := Swapping)
    case Swap => s.(functors := s.pending, pending := [], rounds := s.rounds + 1, pc := Running(0))
    case Run =>
      s.(executed := s.executed + [s.functors[s.pc.next]], ranIn := s.ranIn + [s.rounds],
         pc := Running(s.pc.next + 1))
    case End => s.(handling := false, pc := Polling)
  }

  function Exec<T>(s: State<T>, es: seq<Event<T>>): State<T> {
    if es == [] then s else Step(Exec(s, es[..|es| - 1]), es[|es| - 1])
  }

  /** A constructed loop: the wake channel has been registered. */
  function Init<T>(): State<T> {
    State(NotStarted, 0, true, false, [], [], 0, false, [], [], 0, [], [])
  }

  // ---------- Invariants ----------

  /** Something will make the eventfd readable. */
  predicate Signalled<T>(s: State<T>) {
    s.counter > 0 || s.writers > 0 || s.ownWrite
  }

  /** The wake channel was reported and has not been re-armed yet. */
  predicate WakeInHand(pc: Pc) {
    (pc.Dispatching? && WakeReady in pc.active) || pc.Rearming?
  }

  /** The loop swaps the queue out before it sleeps again. */
  predicate SwapAhead(pc: Pc) {
    pc.Dispatching? || pc.Rearming? || pc == Swapping
  }

  ghost predicate Wakeable<T>(s: State<T>) {
    && (s.armed <==> !WakeInHand(s.pc))
    && (s.pc.Rearming? ==> s.pc.active != [] && WakeReady !in s.pc.active[1..])
    && (s.pc.Dispatching? ==>
          forall i, j :: 0 <= i < j < |s.pc.active| ==> !(s.pc.active[i] == WakeReady && s.pc.active[j] == WakeReady))
    && (s.handling <==> s.pc == Swapping || s.pc.Running?)
    && (s.pending != [] ==> Signalled(s) || SwapAhead(s.pc))
  }

  /** The tasks of the current round that have not run. */
  function Unrun<T>(s: State<T>): seq<T> {
    if s.pc.Running? && s.pc.next <= |s.functors| then s.functors[s.pc.next..] else []
  }

  ghost predicate Ordered<T>(s: State<T>) {
    && (s.pc.Running? ==> s.pc.next <= |s.functors|)
    && s.executed + Unrun(s) + s.pending == s.queued
    && |s.ranIn| == |s.executed| && |s.pushedIn| == |s.queued|
    && (forall k :: 0 <= k < |s.executed| ==> s.ranIn[k] == s.pushedIn[k] + 1)
    && (forall k :: |s.executed| <= k < |s.executed| + |Unrun(s)| ==> s.pushedIn[k] + 1 == s.rounds)
    && (forall k :: |s.executed| + |Unrun(s)| <= k < |s.queued| ==> s.pushedIn[k] == s.rounds)
  }

  lemma QueueOrdered<T>(s: State<T>, task: T)
    requires Ordered(s)
    ensures Ordered(Queue(s, task))
  {
    var t := Queue(s, task);
    assert Unrun(t) == Unrun(s);
    ConcatAssoc(s.executed + Unrun(s), s.pending, [task]);
  }

  lemma RunOrdered<T>(s: State<T>)
    requires Ordered(s) && Enabled(s, Run)
    ensures Ordered(Step(s, Run))
  {
    var t := Step(s, Run);
    assert Unrun(s) == [s.functors[s.pc.next]] + Unrun(t);
    ConcatAssoc(s.executed, [s.functors[s.pc.next]], Unrun(t));
  }

  lemma OrderedStep<T>(s: State<T>, e: Event<T>)
    requires Ordered(s)
    ensures Ordered(Step(s, e))
  {
    if Enabled(s, e) {
      match e
      case Push(task) =>
        QueueOrdered(s, task);
        SameTasks(Queue(s, task), Step(s, e));
      case OwnPush(task) =>
        QueueOrdered(s, task);
        SameTasks(Queue(s, task), Step(s, e));
      case Run => RunOrdered(s);
      case Swap => assert Unrun(s) == [] && Unrun(Step(s, e)) == s.pending;
      case _ => SameTasks(s, Step(s, e));
    }
  }

  lemma SameTasks<T>(s: State<T>, t: State<T>)
    requires Ordered(s) && Unrun(t) == Unrun(s)
    requires t.pc.Running? ==> t.pc.next <= |t.functors|
    requires t.executed == s.executed && t.pending == s.pending && t.queued == s.queued
    requires t.ranIn == s.ranIn && t.pushedIn == s.pushedIn && t.rounds == s.rounds
    ensures Ordered(t)
  {
  }

  lemma {:induction false} OrderedExec<T>(s: State<T>, es: seq<Event<T>>)
    requires Ordered(s)
    ensures Ordered(Exec(s, es))
  {
    if es != [] {
      OrderedExec(s, es[..|es| - 1]);
      OrderedStep(Exec(s, es[..|es| - 1]), es[|es| - 1]);
    }
  }

  /**
    Every task runs exactly once, in lock order, in the round after the one it was
    pushed in. A task pushed by a running task therefore never runs in that round.
   */
  lemma TasksRunOnceInOrder<T>(es: seq<Event<T>>)
    ensures var s := Exec(Init<T>(), es);
            && s.executed + Unrun(s) + s.pending == s.queued
            && |s.ranIn| == |s.executed| <= |s.pushedIn|
            && forall k :: 0 <= k < |s.executed| ==> s.ranIn[k] == s.pushedIn[k] + 1
  {
    OrderedExec(Init<T>(), es);
  }

  // ---------- No lost wakeup ----------

  /** Own-thread pushes come from inside the loop body. */
  predicate Disciplined<T>(s: State<T>, e: Event<T>) {
    e.OwnPush? && Enabled(s, e) ==> s.pc != NotStarted || Signalled(s)
  }

  /** One step keeps the loop wakeable exactly when it is disciplined. */
  lemma WakeableStepIff<T>(s: State<T>, e: Event<T>)
    requires Wakeable(s)
    ensures Wakeable(Step(s, e)) <==> Disciplined(s, e)
  {
    if Enabled(s, e) {
      match e
      case Handle =>
        assert s.pc.active == [s.pc.active[0]] + s.pc.active[1..];
      case _ =>
    }
  }

  /** Some other thread has queued a task. */
  predicate Pushed<T>(es: seq<Event<T>>) {
    es != [] && (es[|es| - 1].Push? || Pushed(es[..|es| - 1]))
  }

  lemma {:induction false} PushedIff<T>(es: seq<Event<T>>)
    ensures Pushed(es) <==> exists k :: 0 <= k < |es| && es[k].Push?
  {
    if es != [] {
      PushedIff(es[..|es| - 1]);
      assert es == es[..|es| - 1] + [es[|es| - 1]];
    }
  }

  /** The wake channel is armed unless its report is being handled. */
  ghost predicate ArmedUnlessInHand<T>(s: State<T>) {
    && (s.armed <==> !WakeInHand(s.pc))
    && (s.pc.Rearming? ==> s.pc.active != [] && WakeReady !in s.pc.active[1..])
    && (s.pc.Dispatching? ==>
          forall i, j :: 0 <= i < j < |s.pc.active| ==> !(s.pc.active[i] == WakeReady && s.pc.active[j] == WakeReady))
  }

  lemma ArmedStep<T>(s: State<T>, e: Event<T>)
    requires ArmedUnlessInHand(s)
    ensures ArmedUnlessInHand(Step(s, e))
  {
    if Enabled(s, e) && e == Handle {
      assert s.pc.active == [s.pc.active[0]] + s.pc.active[1..];
    }
  }

  /** Nothing has ever signalled the loop, and nothing was ever swapped out. */
  predicate Untouched<T>(s: State<T>, pushed: bool) {
    s.rounds == 0 && !pushed
  }

  ghost predicate Accountable<T>(s: State<T>, pushed: bool) {
    && (s.handling <==> s.pc == Swapping || s.pc.Running?)
    && (s.ownWrite ==> s.pc.Running?)
    && (s.pc.Running? ==> s.rounds > 0)
    && (Untouched(s, pushed) ==> s.counter == 0 && s.writers == 0)
    && (s.pc == NotStarted ==> s.rounds == 0 && (pushed ==> Signalled(s)))
    && (s.pending != [] ==> Signalled(s) || SwapAhead(s.pc) || Untouched(s, pushed))
  }

  lemma AccountableStep<T>(s: State<T>, e: Event<T>, pushed: bool)
    requires Accountable(s, pushed)
    ensures Accountable(Step(s, e), e.Push? || pushed)
  {
  }

  lemma {:induction false} Steady<T>(es: seq<Event<T>>)
    ensures ArmedUnlessInHand(Exec(Init<T>(), es)) && Accountable(Exec(Init<T>(), es), Pushed(es))
  {
    if es != [] {
      Steady(es[..|es| - 1]);
      ArmedStep(Exec(Init<T>(), es[..|es| - 1]), es[|es| - 1]);
      AccountableStep(Exec(Init<T>(), es[..|es| - 1]), es[|es| - 1], Pushed(es[..|es| - 1]));
    }
  }

  /**
    Wakeups are lost in one way only. In every schedule, the loop about to sleep has its
    wake channel armed; and if tasks are queued, nothing will make the eventfd readable
    exactly if the loop has never swapped its queue out and no other thread ever pushed.
   */
  lemma {:induction false} NoLostWakeup<T>(es: seq<Event<T>>)
    ensures var s := Exec(Init<T>(), es);
            && (s.pc == Polling ==> s.armed)
            && (!s.armed ==> WakeInHand(s.pc))
            && (s.pc == Polling && s.pending != [] ==>
                  (s.counter == 0 && s.writers == 0 <==>
                   s.rounds == 0 && forall k :: 0 <= k < |es| ==> !es[k].Push?))
  {
    Steady(es);
    PushedIff(es);
  }

  /** A task that the loop's own thread queues before the loop runs is never woken for. */
  lemma EarlyPushIsLost<T>(task: T)
    ensures var es := [OwnPush(task), Start];
            var s := Exec(Init<T>(), es);
            && s.pc == Polling && s.pending == [task] && !Signalled(s)
            && forall ready :: Enabled(s, Poll(ready)) ==> WakeReady !in ready
  {
    var s := Init<T>();
    ExecNext(s, [], OwnPush(task));
    ExecNext(s, [OwnPush(task)], Start);
    assert [OwnPush(task), Start] == [OwnPush(task)] + [Start];
    assert [] + [OwnPush(task)] == [OwnPush(task)];
  }

  lemma ExecNext<T>(s: State<T>, es: seq<Event<T>>, e: Event<T>)
    ensures Exec(s, es + [e]) == Step(Exec(s, es), e)
  {
    assert (es + [e])[..|es|] == es;
  }

  lemma OneMore<T>(done: seq<T>, todo: seq<T>, n: nat)
    requires n < |todo|
    ensures done + todo[..n] + [todo[n]] == done + todo[..n + 1]
  {
  }

  lemma RunMeans<T>(s: State<T>)
    requires s.pc.Running? && s.pc.next < |s.functors| && !s.ownWrite
    ensures Step(s, Run) == s.(executed := s.executed + [s.functors[s.pc.next]], ranIn := s.ranIn + [s.rounds],
                               pc := Running(s.pc.next + 1))
  {
  }

  function Repeat<T>(n: nat): seq<Event<T>> {
    if n == 0 then [] else Repeat(n - 1) + [Run]
  }

  lemma EndMeans<T>(s: State<T>)
    requires s.pc.Running? && s.pc.next >= |s.functors| && !s.ownWrite
    ensures Step(s, End) == s.(handling := false, pc := Polling)
  {
  }

  /** `n` tasks in a row. */
  function RunMany<T>(s: State<T>, n: nat): State<T> {
    if n == 0 then s else Step(RunMany(s, n - 1), Run)
  }

  lemma {:induction false} RepeatRuns<T>(s: State<T>, n: nat)
    ensures Exec(s, Repeat<T>(n)) == RunMany(s, n)
  {
    hide Step;
    if n > 0 {
      RepeatRuns(s, n - 1);
      ExecNext(s, Repeat<T>(n - 1), Run);
    }
  }

  lemma {:induction false} RunsAll<T>(s: State<T>, n: nat)
    requires s.pc == Running(0) && n <= |s.functors| && !s.ownWrite
    ensures var t := RunMany(s, n);
            && t.executed == s.executed + s.functors[..n] && t.pc == Running(n)
            && t.functors == s.functors && t.pending == s.pending && !t.ownWrite && t.armed == s.armed && t.counter == s.counter
  {
    hide Step, Enabled;
    if n > 0 {
      RunsAll(s, n - 1);
      RunMeans(RunMany(s, n - 1));
      OneMore(s.executed, s.functors, n - 1);
    }
  }

  /** One wakeup, from the sleeping loop to the sleeping loop. */
  function Round<T>(s: State<T>): State<T> {
    var awake := Exec(s, [Poll([WakeReady]), Handle, Rearm, Finish, Swap]);
    Step(Exec(awake, Repeat<T>(|s.pending|)), End)
  }

  lemma RoundDrains<T>(s: State<T>)
    requires s.pc == Polling && s.armed && s.counter > 0 && !s.ownWrite
    ensures var t := Round(s);
            t.executed == s.executed + s.pending && t.pending == [] && t.pc == Polling && t.armed && t.counter == 0
  {
    hide Exec, Step, Enabled, RunMany, Repeat;
    Wakes(s);
    FiveSteps(s, Poll([WakeReady]), Handle, Rearm, Finish, Swap);
    var awake := Exec(s, [Poll([WakeReady]), Handle, Rearm, Finish, Swap]);
    RepeatRuns(awake, |s.pending|);
    RunsAll(awake, |s.pending|);
    EndMeans(RunMany(awake, |s.pending|));
    assert awake.functors[..|s.pending|] == s.pending;
  }

  /**
    Wakeups lead somewhere: once the writers are through, the sleeping loop can be
    woken, and left to itself it then runs everything that was queued.
   */
  lemma {:induction false} WakingDrainsTheQueue<T>(es: seq<Event<T>>)
    requires var s := Exec(Init<T>(), es); s.pc == Polling && s.pending != [] && s.writers == 0
    requires Exec(Init<T>(), es).rounds > 0 || exists k :: 0 <= k < |es| && es[k].Push?
    ensures var s := Exec(Init<T>(), es);
            var t := Round(s);
            && Enabled(s, Poll([WakeReady]))
            && t.executed == s.executed + s.pending && t.pending == [] && t.pc == Polling && t.armed && t.counter == 0
  {
    hide Round;
    NoLostWakeup(es);
    Steady(es);
    RoundDrains(Exec(Init<T>(), es));
  }

  lemma Wakes<T>(s: State<T>)
    requires s.pc == Polling && s.armed && s.counter > 0 && !s.ownWrite
    ensures Enabled(s, Poll([WakeReady]))
    ensures var t := Step(Step(Step(Step(Step(s, Poll([WakeReady])), Handle), Rearm), Finish), Swap);
            && t.pc == Running(0) && t.functors == s.pending && t.pending == []
            && t.executed == s.executed && !t.ownWrite && t.armed && t.counter == 0
  {
  }

  lemma FiveSteps<T>(s: State<T>, a: Event<T>, b: Event<T>, c: Event<T>, d: Event<T>, e: Event<T>)
    ensures Exec(s, [a, b, c, d, e]) == Step(Step(Step(Step(Step(s, a), b), c), d), e)
  {
    hide Step, Exec;
    assert Exec(s, []) == s by { ExecNothing(s); }
    ExecNext(s, [], a);
    assert [] + [a] == [a];
    ExecNext(s, [a], b);
    assert [a] + [b] == [a, b];
    ExecNext(s, [a, b], c);
    assert [a, b] + [c] == [a, b, c];
    ExecNext(s, [a, b, c], d);
    assert [a, b, c] + [d] == [a, b, c, d];
    ExecNext(s, [a, b, c, d], e);
    assert [a, b, c, d] + [e] == [a, b, c, d, e];
  }

  lemma ExecNothing<T>(s: State<T>)
    ensures Exec(s, []) == s
  {
  }

  // ---------- The loop's own turns lead somewhere ----------

  /** Here `es` is possible, event by event, and leads to `t`. */
  ghost predicate LeadsTo<T>(s: State<T>, es: seq<Event<T>>, t: State<T>) {
    Exec(s, es) == t && forall k :: 0 <= k < |es| ==> Enabled(Exec(s, es[..k]), es[k])
  }

  lemma Nowhere<T>(s: State<T>)
    ensures LeadsTo(s, [], s)
  {
  }

  lemma Then<T>(s: State<T>, es: seq<Event<T>>, t: State<T>, e: Event<T>)
    requires LeadsTo(s, es, t) && Enabled(t, e)
    ensures LeadsTo(s, es + [e], Step(t, e))
  {
    hide Step, Enabled;
    ExecNext(s, es, e);
    forall k | 0 <= k < |es + [e]|
      ensures Enabled(Exec(s, (es + [e])[..k]), (es + [e])[k])
    {
      assert (es + [e])[..k] == es[..k];
      assert k == |es| ==> es[..k] == es;
    }
  }

  lemma Once<T>(s: State<T>, e: Event<T>)
    requires Enabled(s, e)
    ensures LeadsTo(s, [e], Step(s, e))
  {
    hide LeadsTo;
    Nowhere(s);
    Then(s, [], s, e);
    assert [] + [e] == [e];
  }

  lemma Front<T>(s: State<T>, es: seq<Event<T>>, t: State<T>)
    requires LeadsTo(s, es, t) && es != []
    ensures var n := |es| - 1;
            LeadsTo(s, es[..n], Exec(s, es[..n])) && Enabled(Exec(s, es[..n]), es[n]) && Step(Exec(s, es[..n]), es[n]) == t
  {
    hide Step, Enabled;
    var n := |es| - 1;
    assert forall k :: 0 <= k <= n ==> es[..n][..k] == es[..k];
  }

  lemma {:induction false} Joined<T>(s: State<T>, a: seq<Event<T>>, t: State<T>, b: seq<Event<T>>, u: State<T>)
    requires LeadsTo(s, a, t) && LeadsTo(t, b, u)
    ensures LeadsTo(s, a + b, u)
    decreases |b|
  {
    hide Step, Enabled, LeadsTo, Exec;
    if b == [] {
      assert a + b == a;
      Stays(t, b, u);
    } else {
      var n := |b| - 1;
      Front(t, b, u);
      Joined(s, a, t, b[..n], Exec(t, b[..n]));
      Then(s, a + b[..n], Exec(t, b[..n]), b[n]);
      assert a + b[..n] + [b[n]] == a + b;
    }
  }

  lemma Stays<T>(s: State<T>, es: seq<Event<T>>, t: State<T>)
    requires LeadsTo(s, es, t) && es == []
    ensures s == t
  {
  }

  /** The handlers of a batch. */
  function Handlers<T>(active: seq<Ready>): seq<Event<T>> {
    if active == [] then [] else
    (if active[0] == WakeReady then [Handle, Rearm] else [Handle]) + Handlers(active[1..])
  }

  /** The tasks of the round, and its end. */
  function Tasks<T>(n: nat): seq<Event<T>> {
    Repeat(n) + [End]
  }

  /** What is left of an iteration of the loop. */
  function Remaining<T>(s: State<T>): seq<Event<T>> {
    match s.pc
    case Dispatching(active) => Handlers(active) + [Finish, Swap] + Tasks(|s.pending|)
    case Rearming(active) =>
      [Rearm] + Handlers(if active == [] then [] else active[1..]) + [Finish, Swap] + Tasks(|s.pending|)
    case Swapping => [Swap] + Tasks(|s.pending|)
    case Running(next) => Tasks(if next <= |s.functors| then |s.functors| - next else 0)
    case _ => []
  }

  /** Nothing happened to the tasks. */
  ghost predicate SameQueue<T>(s: State<T>, t: State<T>) {
    !t.ownWrite && t.pending == s.pending && t.executed == s.executed && t.queued == s.queued
  }

  lemma HandleOne<T>(s: State<T>) returns (es: seq<Event<T>>, t: State<T>)
    requires s.pc.Dispatching? && s.pc.active != [] && !s.ownWrite
    ensures es == if s.pc.active[0] == WakeReady then [Handle, Rearm] else [Handle]
    ensures LeadsTo(s, es, t) && t.pc == Dispatching(s.pc.active[1..]) && SameQueue(s, t)
  {
    hide LeadsTo;
    Once(s, Handle);
    es, t := [Handle], Step(s, Handle);
    if s.pc.active[0] == WakeReady {
      Then(s, es, t, Rearm);
      es, t := es + [Rearm], Step(t, Rearm);
    }
  }

  lemma {:induction false} HandlersRun<T>(s: State<T>) returns (t: State<T>)
    requires s.pc.Dispatching? && !s.ownWrite
    ensures LeadsTo(s, Handlers(s.pc.active), t) && t.pc == Dispatching([]) && SameQueue(s, t)
    decreases |s.pc.active|
  {
    hide LeadsTo, Step, Enabled;
    if s.pc.active == [] {
      Nowhere(s);
      t := s;
    } else {
      var es, u := HandleOne(s);
      t := HandlersRun(u);
      Joined(s, es, u, Handlers(u.pc.active), t);
    }
  }

  lemma RunOne<T>(s: State<T>)
    requires s.pc.Running? && s.pc.next < |s.functors| && !s.ownWrite
    ensures Enabled(s, Run)
  {
  }

  lemma {:induction false} TasksRun<T>(s: State<T>, n: nat) returns (t: State<T>)
    requires s.pc.Running? && s.pc.next + n <= |s.functors| && !s.ownWrite
    ensures LeadsTo(s, Repeat(n), t) && t.pc == Running(s.pc.next + n) && t.functors == s.functors && !t.ownWrite
    ensures t.pending == s.pending && t.queued == s.queued && t.executed == s.executed + s.functors[s.pc.next..s.pc.next + n]
  {
    hide LeadsTo, Step, Enabled;
    if n == 0 {
      Nowhere(s);
      t := s;
    } else {
      var u := TasksRun(s, n - 1);
      RunOne(u);
      RunMeans(u);
      Then(s, Repeat(n - 1), u, Run);
      t := Step(u, Run);
      var i := s.pc.next;
      assert s.functors[i..i + n - 1] + [s.functors[i + n - 1]] == s.functors[i..i + n];
    }
  }

  lemma RoundRuns<T>(s: State<T>) returns (t: State<T>)
    requires s.pc.Running? && s.pc.next <= |s.functors| && !s.ownWrite
    ensures LeadsTo(s, Tasks(|s.functors| - s.pc.next), t) && t.pc == Polling && !t.ownWrite
    ensures t.pending == s.pending && t.queued == s.queued && t.executed == s.executed + s.functors[s.pc.next..]
  {
    hide LeadsTo, Step;
    var n := |s.functors| - s.pc.next;
    var u := TasksRun(s, n);
    EndMeans(u);
    Then(s, Repeat(n), u, End);
    t := Step(u, End);
  }

  /** From the flag, or from the end of the batch, to sleep: all that is queued is run. */
  lemma SwapsAndRuns<T>(s: State<T>) returns (t: State<T>)
    requires s.pc == Swapping && !s.ownWrite
    ensures LeadsTo(s, [Swap] + Tasks(|s.pending|), t) && t.pc == Polling && !t.ownWrite
    ensures t.pending == [] && t.queued == s.queued && t.executed == s.executed + s.pending
  {
    hide LeadsTo, Tasks;
    Once(s, Swap);
    var u := Step(s, Swap);
    t := RoundRuns(u);
    Joined(s, [Swap], u, Tasks(|s.pending|), t);
    assert u.functors[0..] == s.pending;
  }

  lemma BatchDone<T>(s: State<T>) returns (t: State<T>)
    requires s.pc.Dispatching? && !s.ownWrite
    ensures LeadsTo(s, Handlers(s.pc.active) + [Finish, Swap] + Tasks(|s.pending|), t) && t.pc == Polling && !t.ownWrite
    ensures t.pending == [] && t.queued == s.queued && t.executed == s.executed + s.pending
  {
    hide LeadsTo, Tasks, Handlers;
    var u := HandlersRun(s);
    Then(s, Handlers(s.pc.active), u, Finish);
    var v := Step(u, Finish);
    t := SwapsAndRuns(v);
    var a, b := Handlers<T>(s.pc.active) + [Finish], [Swap] + Tasks<T>(|s.pending|);
    Joined(s, a, v, b, t);
    assert a + b == Handlers<T>(s.pc.active) + [Finish, Swap] + Tasks<T>(|s.pending|);
  }

  lemma RearmsAndRuns<T>(s: State<T>) returns (t: State<T>)
    requires s.pc.Rearming? && !s.ownWrite
    ensures LeadsTo(s, Remaining(s), t) && t.pc == Polling && !t.ownWrite
    ensures t.pending == [] && t.queued == s.queued && t.executed == s.executed + s.pending
  {
    hide LeadsTo, Tasks, Handlers, Step, Enabled;
    RearmMeans(s);
    Once(s, Rearm);
    var u := Step(s, Rearm);
    t := BatchDone(u);
    var rest := Handlers<T>(u.pc.active) + [Finish, Swap] + Tasks<T>(|s.pending|);
    Joined(s, [Rearm], u, rest, t);
    assert [Rearm] + rest == [Rearm] + Handlers<T>(u.pc.active) + [Finish, Swap] + Tasks<T>(|s.pending|);
  }

  lemma IterationEnds<T>(s: State<T>) returns (t: State<T>)
    requires s.pc != NotStarted && !s.ownWrite && (s.pc.Running? ==> s.pc.next <= |s.functors|)
    ensures LeadsTo(s, Remaining(s), t) && t.pc == Polling && t.queued == s.queued
    ensures t.executed == s.executed + Unrun(s) + (if SwapAhead(s.pc) then s.pending else [])
    ensures t.pending == (if SwapAhead(s.pc) then [] else s.pending)
  {
    hide LeadsTo, Handlers, Tasks;
    match s.pc
    case Dispatching(_) => t := BatchDone(s);
    case Rearming(_) => t := RearmsAndRuns(s);
    case Swapping => t := SwapsAndRuns(s);
    case Running(_) => t := RoundRuns(s);
    case Polling =>
      Nowhere(s);
      t := s;
  }

  /**
    No deadlock: whatever the schedule so far, a loop that is awake can go on with its own
    turns until it sleeps. By then it has run the tasks of the round, or, if it had not yet
    swapped the queue out, all that was queued.
   */
  lemma {:induction false} AwakeLoopSleeps<T>(es: seq<Event<T>>) returns (t: State<T>)
    requires var s := Exec(Init<T>(), es); s.pc != NotStarted && !s.ownWrite
    ensures var s := Exec(Init<T>(), es);
            && LeadsTo(s, Remaining(s), t) && t.pc == Polling && t.queued == s.queued
            && t.executed == s.executed + Unrun(s) + (if SwapAhead(s.pc) then s.pending else [])
            && t.pending == (if SwapAhead(s.pc) then [] else s.pending)
  {
    OrderedExec(Init<T>(), es);
    hide Exec, LeadsTo, Remaining, Unrun;
    t := IterationEnds(Exec(Init<T>(), es));
  }

  lemma RearmMeans<T>(s: State<T>)
    requires s.pc.Rearming? && !s.ownWrite
    ensures Enabled(s, Rearm)
    ensures Step(s, Rearm) == s.(armed := true, pc := Dispatching(if s.pc.active == [] then [] else s.pc.active[1..]))
  {
  }

  /** A task that is running can queue another; the loop's own thread then writes the eventfd. */
  lemma {:induction false} RunningTaskQueues<T>(es: seq<Event<T>>, task: T)
    requires var s := Exec(Init<T>(), es); s.pc.Running? && s.pc.next > 0 && !s.ownWrite
    ensures var s := Exec(Init<T>(), es);
            var t := Step(s, OwnPush(task));
            Enabled(s, OwnPush(task)) && t.pending == s.pending + [task] && t.ownWrite && t.functors == s.functors && t.pc == s.pc
  {
    Steady(es);
    hide Exec;
  }

  /** A thread that has queued a task can always finish its wakeup, and the eventfd is readable then. */
  lemma WakeupCompletes<T>(s: State<T>)
    requires s.ownWrite || s.writers > 0
    ensures var e := if s.ownWrite then OwnWrite else Write;
            Enabled(s, e) && Step(s, e).counter > 0 && !Step(s, e).ownWrite && Step(s, e).pending == s.pending
  {
  }
}

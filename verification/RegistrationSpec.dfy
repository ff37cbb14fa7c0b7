/**
  Channels and the kernel's interest set. A channel remembers its mask and whether it
  believes to be registered; epoll_ctl(2) knows better and refuses to add a descriptor
  twice or to touch one it does not have.
 */
module RegistrationSpec {

  type Mask = bv32

  const EPOLLIN: Mask := 0x001
  const EPOLLPRI: Mask := 0x002
  const EPOLLOUT: Mask := 0x004
  const EPOLLERR: Mask := 0x008
  const EPOLLHUP: Mask := 0x010
  const EPOLLONESHOT: Mask := 0x4000_0000

  const NONE_EVENT: Mask := 0
  const READ_EVENT: Mask := EPOLLIN | EPOLLONESHOT | EPOLLPRI
  const WRITE_EVENT: Mask := EPOLLOUT | EPOLLONESHOT

  datatype Status = NEW | ADD | DEL

  datatype Channel = Channel(events: Mask, status: Status)

  /** What the kernel holds for a descriptor; a one-shot report disarms it. */
  datatype Registration = Registration(mask: Mask, armed: bool)

  type Interest = map<int, Registration>

  datatype Kernel = Kernel(interest: Interest, faults: nat)  // faults: refused epoll_ctl calls

  // ---------- epoll_ctl(2) and epoll_wait(2) ----------

  function CtlAdd(k: Kernel, fd: int, mask: Mask): Kernel {
    if fd in k.interest then k.(faults := k.faults + 1)
    else k.(interest := k.interest[fd := Registration(mask, true)])
  }

  function CtlMod(k: Kernel, fd: int, mask: Mask): Kernel {
    if fd !in k.interest then k.(faults := k.faults + 1)
    else k.(interest := k.interest[fd := Registration(mask, true)])
  }

  function CtlDel(k: Kernel, fd: int): Kernel {
    if fd !in k.interest then k.(faults := k.faults + 1)
    else k.(interest := k.interest - {fd})
  }

  /** Reporting a set of armed descriptors. */
  function Report(k: Kernel, fds: set<int>): Kernel {
    k.(interest := map fd | fd in k.interest ::
         if fd in fds && k.interest[fd].mask & EPOLLONESHOT != 0 then k.interest[fd].(armed := false)
         else k.interest[fd])
  }

  /** Events that epoll_wait can report for a mask: some of those asked for, errors and hang-ups, and at least one. */
  predicate Delivered(mask: Mask, revents: Mask) {
    revents != 0 && revents & !((mask & !EPOLLONESHOT) | EPOLLERR | EPOLLHUP) == 0
  }

  // ---------- EventLoop::update_channel, remove_channel ----------

  datatype Pair = Pair(channel: Channel, kernel: Kernel)

  function Update(p: Pair, fd: int): Pair {
    match p.channel.status
    case ADD => p.(kernel := CtlMod(p.kernel, fd, p.channel.events))
    case _ => Pair(p.channel.(status := ADD), CtlAdd(p.kernel, fd, p.channel.events))
  }

  function Remove(p: Pair, fd: int): Pair {
    Pair(p.channel.(status := NEW), CtlDel(p.kernel, fd))
  }

  datatype Op = EnableRead | EnableWrite | DisableRead | DisableWrite | DisableAll | Deregister

  function NewMask(op: Op, m: Mask): Mask {
    match op
    case EnableRead => m | READ_EVENT
    case EnableWrite => m | WRITE_EVENT
    case DisableRead => m & !READ_EVENT
    case DisableWrite => m & !WRITE_EVENT
    case DisableAll => NONE_EVENT
    case Deregister => m
  }

  function Apply(p: Pair, fd: int, op: Op): Pair {
    if op == Deregister then Remove(p, fd)
    else Update(p.(channel := p.channel.(events := NewMask(op, p.channel.events))), fd)
  }

  // ---------- Agreement ----------

  /** The channel is registered exactly when it believes so, and with its own mask. */
  predicate Agrees(c: Channel, interest: Interest, fd: int) {
    && (c.status == ADD <==> fd in interest)
    && (fd in interest ==> interest[fd].mask == c.events)
  }

  /**
    Every call keeps channel and kernel in agreement and leaves other descriptors
    alone. The kernel refuses the call exactly when it removes a channel that is not
    registered; every other call leaves the channel armed.
   */
  lemma ApplyAgrees(p: Pair, fd: int, op: Op)
    requires Agrees(p.channel, p.kernel.interest, fd)
    ensures var q := Apply(p, fd, op);
            && Agrees(q.channel, q.kernel.interest, fd)
            && q.kernel.interest - {fd} == p.kernel.interest - {fd}
            && q.kernel.faults == p.kernel.faults + (if op == Deregister && p.channel.status != ADD then 1 else 0)
            && (if op == Deregister then fd !in q.kernel.interest
                else fd in q.kernel.interest && q.kernel.interest[fd].armed)
  {
  }

  /** Even a channel that disagrees with the kernel only ever touches its own descriptor. */
  lemma ApplyIsLocal(p: Pair, fd: int, op: Op)
    ensures var q := Apply(p, fd, op);
            && q.kernel.interest - {fd} == p.kernel.interest - {fd}
            && (op != Deregister && p.channel.status != ADD ==>
                  fd in q.kernel.interest
                  && (fd !in p.kernel.interest ==>
                        q.kernel.interest[fd] == Registration(NewMask(op, p.channel.events), true)))
  {
  }

  /** A loop's channels, by descriptor, over one kernel interest set. */
  datatype Table = Table(channels: map<int, Channel>, kernel: Kernel)

  datatype Call = Call(fd: int, op: Op) | Wait(ready: set<int>)

  predicate AllAgree(t: Table) {
    && t.kernel.interest.Keys <= t.channels.Keys
    && forall fd :: fd in t.channels ==> Agrees(t.channels[fd], t.kernel.interest, fd)
  }

  function Step(t: Table, call: Call): Table {
    match call
    case Wait(ready) => t.(kernel := Report(t.kernel, ready))
    case Call(fd, op) =>
      if fd !in t.channels then t else
      var p := Apply(Pair(t.channels[fd], t.kernel), fd, op);
      Table(t.channels[fd := p.channel], p.kernel)
  }

  /** Removing a channel that is not registered. */
  predicate Premature(t: Table, call: Call) {
    call.Call? && call.fd in t.channels && call.op == Deregister && t.channels[call.fd].status != ADD
  }

  function Exec(t: Table, calls: seq<Call>): Table {
    if calls == [] then t else Step(Exec(t, calls[..|calls| - 1]), calls[|calls| - 1])
  }

  function PrematureCalls(t: Table, calls: seq<Call>): nat {
    if calls == [] then 0 else
    var before := calls[..|calls| - 1];
    PrematureCalls(t, before) + if Premature(Exec(t, before), calls[|calls| - 1]) then 1 else 0
  }

  lemma StepAgrees(t: Table, call: Call)
    requires AllAgree(t)
    ensures AllAgree(Step(t, call))
    ensures Step(t, call).kernel.faults == t.kernel.faults + if Premature(t, call) then 1 else 0
  {
    if call.Call? && call.fd in t.channels {
      var p := Pair(t.channels[call.fd], t.kernel);
      ApplyAgrees(p, call.fd, call.op);
      var q := Apply(p, call.fd, call.op);
      forall fd | fd in t.channels && fd != call.fd
        ensures Agrees(t.channels[fd], q.kernel.interest, fd)
      {
        assert fd in q.kernel.interest - {call.fd} <==> fd in p.kernel.interest - {call.fd};
      }
    }
  }

  /**
    Over every sequence of calls on any number of channels, channels and kernel agree,
    and epoll_ctl refuses a call only for a channel removed while not registered.
   */
  lemma {:induction false} ChannelsAndKernelAgree(t: Table, calls: seq<Call>)
    requires AllAgree(t)
    ensures AllAgree(Exec(t, calls))
    ensures Exec(t, calls).kernel.faults == t.kernel.faults + PrematureCalls(t, calls)
  {
    if calls != [] {
      ChannelsAndKernelAgree(t, calls[..|calls| - 1]);
      StepAgrees(Exec(t, calls[..|calls| - 1]), calls[|calls| - 1]);
    }
  }

  /**
    EPOLLONESHOT belongs to both masks, so turning one direction off takes the one-shot
    property of the other with it. The next report disarms the channel exactly if the last
    call enabled a direction.
   */
  lemma OneShotIff(p: Pair, fd: int, op: Op)
    requires Agrees(p.channel, p.kernel.interest, fd) && op != Deregister
    ensures var q := Apply(p, fd, op);
            && fd in q.kernel.interest && q.kernel.interest[fd].armed
            && (!Report(q.kernel, {fd}).interest[fd].armed <==> op == EnableRead || op == EnableWrite)
            && (op == DisableRead && p.channel.events & EPOLLOUT != 0 ==> q.kernel.interest[fd].mask & EPOLLOUT != 0)
  {
    ApplyAgrees(p, fd, op);
    MaskOneShot(p.channel.events, op);
    assert Apply(p, fd, op).channel.events == NewMask(op, p.channel.events);
  }

  lemma MaskOneShot(m: Mask, op: Op)
    requires op != Deregister
    ensures NewMask(op, m) & EPOLLONESHOT != 0 <==> op == EnableRead || op == EnableWrite
    ensures op == DisableRead && m & EPOLLOUT != 0 ==> NewMask(op, m) & EPOLLOUT != 0
  {
  }

  predicate Asks(m: Mask, bits: Mask) {
    m & bits != 0
  }

  predicate SameBits(a: Mask, b: Mask, bits: Mask) {
    a & bits == b & bits
  }

  /** What a call makes of a mask: it turns its direction on or off, and leaves the other as it was. */
  predicate Turns(op: Op, before: Mask, after: Mask) {
    match op
    case EnableRead => Asks(after, EPOLLIN) && Asks(after, EPOLLONESHOT) && SameBits(before, after, EPOLLOUT)
    case EnableWrite => Asks(after, EPOLLOUT) && Asks(after, EPOLLONESHOT) && SameBits(before, after, EPOLLIN)
    case DisableRead => !Asks(after, EPOLLIN) && SameBits(before, after, EPOLLOUT)
    case DisableWrite => !Asks(after, EPOLLOUT) && SameBits(before, after, EPOLLIN)
    case DisableAll => after == 0
    case Deregister => after == before
  }

  /** What each call asks the kernel for. */
  lemma AsksFor(p: Pair, fd: int, op: Op)
    requires Agrees(p.channel, p.kernel.interest, fd) && op != Deregister
    ensures var q := Apply(p, fd, op);
            && fd in q.kernel.interest && q.channel.events == q.kernel.interest[fd].mask
            && Turns(op, p.channel.events, q.kernel.interest[fd].mask)
  {
    hide Turns;
    ApplyAgrees(p, fd, op);
    MaskBits(p.channel.events, op);
    assert Apply(p, fd, op).channel.events == NewMask(op, p.channel.events);
  }

  lemma MaskBits(m: Mask, op: Op)
    ensures Turns(op, m, NewMask(op, m))
  {
  }

  /**
    What a channel that asks for input can be told: input itself, and never that it could
    write. A report without input is urgent data, an error or a hang-up.
   */
  lemma InputIsDelivered(p: Pair, fd: int, revents: Mask)
    requires Agrees(p.channel, p.kernel.interest, fd) && p.channel.events == NONE_EVENT
    ensures var q := Apply(p, fd, EnableRead);
            fd in q.kernel.interest &&
            var mask := q.kernel.interest[fd].mask;
            && Delivered(mask, EPOLLIN) && Delivered(mask, EPOLLPRI) && Delivered(mask, EPOLLERR) && Delivered(mask, EPOLLHUP)
            && (Delivered(mask, revents) ==> revents & EPOLLOUT == 0)
            && (Delivered(mask, revents) && revents & EPOLLIN == 0 ==> revents & (EPOLLPRI | EPOLLERR | EPOLLHUP) != 0)
  {
    ApplyAgrees(p, fd, EnableRead);
    ReadDelivers(revents);
    hide Delivered;
    assert NONE_EVENT | READ_EVENT == READ_EVENT;
    assert Apply(p, fd, EnableRead).channel.events == NewMask(EnableRead, NONE_EVENT) == READ_EVENT;
  }

  lemma ReadDelivers(revents: Mask)
    ensures Delivered(READ_EVENT, EPOLLIN) && Delivered(READ_EVENT, EPOLLPRI)
    ensures Delivered(READ_EVENT, EPOLLERR) && Delivered(READ_EVENT, EPOLLHUP)
    ensures Delivered(READ_EVENT, revents) ==> revents & EPOLLOUT == 0
    ensures Delivered(READ_EVENT, revents) && revents & EPOLLIN == 0 ==> revents & (EPOLLPRI | EPOLLERR | EPOLLHUP) != 0
  {
  }

  // ---------- Channel::handle_events ----------

  datatype Callback = OnRead | OnWrite | OnError | OnClose

  /** The callbacks made for the reported events, given which are installed. */
  function Callbacks(revents: Mask, installed: set<Callback>): seq<Callback> {
    if revents & EPOLLHUP != 0 && revents & EPOLLIN == 0 then
      (if OnClose in installed then [OnClose] else [])
    else
      (if revents & EPOLLERR != 0 && OnError in installed then [OnError] else []) +
      (if revents & EPOLLIN != 0 && OnRead in installed then [OnRead] else []) +
      (if revents & EPOLLOUT != 0 && OnWrite in installed then [OnWrite] else [])
  }

  /** The order in which callbacks are made. */
  function Rank(c: Callback): nat {
    match c
    case OnClose => 0
    case OnError => 1
    case OnRead => 2
    case OnWrite => 3
  }

  /**
    Errors before input before output, each at most once; and a hang-up without input
    leads to the close callback alone.
   */
  lemma CallbacksInOrder(revents: Mask, installed: set<Callback>)
    ensures var calls := Callbacks(revents, installed);
            && (forall i, j :: 0 <= i < j < |calls| ==> Rank(calls[i]) < Rank(calls[j]))
            && (forall c :: c in calls <==>
                  c in installed &&
                  var hungUp := revents & EPOLLHUP != 0 && revents & EPOLLIN == 0;
                  match c
                  case OnClose => hungUp
                  case OnError => !hungUp && revents & EPOLLERR != 0
                  case OnRead => !hungUp && revents & EPOLLIN != 0
                  case OnWrite => !hungUp && revents & EPOLLOUT != 0)
  {
  }

  /** What a TCPConnection installs: there is no close callback and no write callback. */
  const CONNECTION_CALLBACKS: set<Callback> := {OnRead, OnError}

  // ---------- TCPConnection::handle_read ----------

  /** What read(2) answers. */
  datatype Received = Data | PeerClosed | Error

  /** What the read loop ends on; Error if it does not end. */
  function Outcome(answers: seq<Received>): Received {
    if answers == [] then Error else if answers[0] != Error then answers[0] else Outcome(answers[1..])
  }

  /** It ends on the first answer that is not an error. */
  lemma {:induction false} OutcomeIs(answers: seq<Received>)
    ensures Outcome(answers) == Error <==> forall a :: a in answers ==> a == Error
    ensures forall k :: 0 <= k < |answers| && answers[k] != Error && (forall j :: 0 <= j < k ==> answers[j] == Error) ==>
              Outcome(answers) == answers[k]
  {
    if answers != [] {
      OutcomeIs(answers[1..]);
      assert answers[0] in answers && forall a :: a in answers <==> a == answers[0] || a in answers[1..];
      forall k | 0 <= k < |answers| && answers[k] != Error && (forall j :: 0 <= j < k ==> answers[j] == Error)
        ensures Outcome(answers) == answers[k]
      {
        assert k > 0 ==> answers[1..][k - 1] == answers[k];
      }
    }
  }

  /** Data re-arms the channel, the end of the stream removes it. */
  function AfterRead(p: Pair, fd: int, outcome: Received): Pair {
    match outcome
    case Data => Apply(p, fd, EnableRead)
    case PeerClosed => Apply(Apply(p, fd, DisableAll), fd, Deregister)
    case Error => p
  }

  lemma AfterReadIsLocal(p: Pair, fd: int, outcome: Received)
    ensures AfterRead(p, fd, outcome).kernel.interest - {fd} == p.kernel.interest - {fd}
  {
    ApplyIsLocal(p, fd, EnableRead);
    ApplyIsLocal(p, fd, DisableAll);
    ApplyIsLocal(Apply(p, fd, DisableAll), fd, Deregister);
  }

  /** A report of `fd`, and what the connection's callbacks make of it. */
  function AfterReport(p: Pair, fd: int, revents: Mask, answers: seq<Received>): Pair {
    var q := p.(kernel := Report(p.kernel, {fd}));
    if OnRead in Callbacks(revents, CONNECTION_CALLBACKS) then AfterRead(q, fd, Outcome(answers)) else q
  }

  lemma ReadIff(revents: Mask)
    ensures OnRead in Callbacks(revents, CONNECTION_CALLBACKS) <==> revents & EPOLLIN != 0
    ensures OnError in Callbacks(revents, CONNECTION_CALLBACKS) <==>
            revents & EPOLLERR != 0 && (revents & EPOLLHUP == 0 || revents & EPOLLIN != 0)
  {
  }

  /**
    Only the read callback re-arms or closes a connection. So a connection that is
    reported ends up armed again, or gone, exactly when EPOLLIN is among the events and
    the read loop ends; a hang-up or an error alone is consumed and it stays disarmed.
   */
  lemma ConnectionServedIff(p: Pair, fd: int, revents: Mask, answers: seq<Received>)
    requires Agrees(p.channel, p.kernel.interest, fd) && fd in p.kernel.interest && p.channel.events == READ_EVENT
    ensures var q := AfterReport(p, fd, revents, answers);
            && Agrees(q.channel, q.kernel.interest, fd) && q.kernel.faults == p.kernel.faults
            && (fd in q.kernel.interest <==> revents & EPOLLIN == 0 || Outcome(answers) != PeerClosed)
            && (fd !in q.kernel.interest || q.kernel.interest[fd].armed <==>
                revents & EPOLLIN != 0 && Outcome(answers) != Error)
  {
    ReadIff(revents);
    var q := p.(kernel := Report(p.kernel, {fd}));
    assert Agrees(q.channel, q.kernel.interest, fd) && !q.kernel.interest[fd].armed;
    hide Callbacks, Apply, Report;
    ApplyAgrees(q, fd, EnableRead);
    ApplyAgrees(q, fd, DisableAll);
    ApplyAgrees(Apply(q, fd, DisableAll), fd, Deregister);
  }
}

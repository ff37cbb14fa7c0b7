/**
  The double-buffered logger as a state machine. Any number of producer threads
  append messages under the mutex; one consumer thread takes the filled buffers
  and writes them to the file. A schedule is any sequence of thread turns; a turn
  of a thread that is not at that line does nothing.

  Every undefined behaviour of the C++ code (moving out of a null buffer pointer,
  `back()` on an empty vector) sets `fault`, so "no fault" is a theorem here and
  not an assumption. Line numbers are those of src/log/async_logging.cpp.
 */
module AsyncLogSpec {
  import opened Sequences

  type Message = string
  /** The messages in one buffer, oldest first. */
  type Batch = seq<Message>

  datatype ConsumerPc =
    | AtHead              // about to test `running`
    | AtLock              // about to take the mutex
    | Waiting             // inside wait_seconds, mutex released
    | AtTrim              // past the critical section
    | Writing(next: nat)  // about to write buffers_to_write[next], or past the last one
    | Exited

  datatype State = State(
    running: bool,
    pc: ConsumerPc,
    curr: Batch,
    spare: Option<Batch>,      // next_buffer_
    buffers: seq<Batch>,       // buffers_
    toWrite: seq<Batch>,       // buffers_to_write
    new1: Option<Batch>,
    new2: Option<Batch>,
    file: seq<Message>,
    fault: bool,
    // history
    appended: seq<Message>,         // every message passed to append, in lock order
    collected: seq<seq<Batch>>,     // the vector taken over by each collection
    seen: seq<Message>,             // what had been appended at the last collection
    created: nat,
    freed: nat)

  datatype Event = Append(msg: Message) | Stop | Head | Lock | Wake | Trim | Write | Recycle

  const OVERLOAD := 25  // more buffers than this in one collection is "too much"
  const KEEP := 2       // how many of them then survive

  function Size(b: Batch): nat {
    |Flatten(b)|
  }

  /** FixedBuffer::append: all of the message or none of it. */
  function Put(cap: nat, b: Batch, m: Message): Batch {
    if cap - Size(b) > |m| then b + [m] else b
  }

  function Init(): State {
    State(true, AtHead, [], Some([]), [], [], Some([]), Some([]), [], false, [], [], [], 4, 0)
  }

  predicate Enabled(s: State, e: Event) {
    match e
    case Append(_) => true
    case Stop => true
    case Head => s.pc == AtHead
    case Lock => s.pc == AtLock
    case Wake => s.pc == Waiting
    case Trim => s.pc == AtTrim
    case Write => s.pc.Writing? && s.pc.next < |s.toWrite|
    case Recycle => s.pc.Writing? && s.pc.next >= |s.toWrite|
  }

  /** Lines 46-53: the full buffer is queued; the spare or a new one takes its place. */
  function Rotate(s: State): State {
    if s.spare.Some? then
      s.(buffers := s.buffers + [s.curr], curr := s.spare.value, spare := None)
    else
      s.(buffers := s.buffers + [s.curr], curr := [], created := s.created + 1)
  }

  function AppendStep(cap: nat, s: State, m: Message): State {
    var s := s.(appended := s.appended + [m]);
    var s := if cap - Size(s.curr) > |m| then s else Rotate(s);
    s.(curr := Put(cap, s.curr, m))
  }

  /** Lines 83-87, under the mutex. The two vectors are swapped, not copied. */
  function TakeStep(s: State): State {
    if s.new1.None? then s.(fault := true) else
    var taken := s.buffers + [s.curr];
    s.(curr := s.new1.value, new1 := None,
       buffers := s.toWrite, toWrite := taken,
       collected := s.collected + [taken], seen := s.appended,
       pc := AtTrim)
  }

  /** Lines 89-91. */
  function RefillStep(s: State): State {
    if s.spare.None? then s.(spare := s.new2, new2 := None) else s
  }

  function CollectStep(s: State): State {
    RefillStep(TakeStep(s))
  }

  function TrimRule(batch: seq<Batch>): seq<Batch> {
    if |batch| > OVERLOAD then batch[..KEEP] else batch
  }

  function TrimStep(s: State): State {
    var kept := TrimRule(s.toWrite);
    s.(toWrite := kept, freed := s.freed + (|s.toWrite| - |kept|), pc := Writing(0))
  }

  function WriteStep(s: State): State
    requires Enabled(s, Write)
  {
    s.(file := s.file + s.toWrite[s.pc.next], pc := Writing(s.pc.next + 1))
  }

  /** Lines 107-109. */
  function ShrinkStep(s: State): State {
    var kept := if |s.toWrite| > KEEP then s.toWrite[..KEEP] else s.toWrite;
    s.(toWrite := kept, freed := s.freed + (|s.toWrite| - |kept|))
  }

  /** Lines 111-115: the last written buffer, emptied, becomes new_buffer1. */
  function Reuse1Step(s: State): State {
    if s.new1.Some? then s
    else if s.toWrite == [] then s.(fault := true)
    else s.(new1 := Some([]), toWrite := s.toWrite[..|s.toWrite| - 1])
  }

  /** Lines 117-121, the same for new_buffer2. */
  function Reuse2Step(s: State): State {
    if s.new2.Some? then s
    else if s.toWrite == [] then s.(fault := true)
    else s.(new2 := Some([]), toWrite := s.toWrite[..|s.toWrite| - 1])
  }

  /** Line 122. */
  function ClearStep(s: State): State {
    s.(toWrite := [], freed := s.freed + |s.toWrite|, pc := AtHead)
  }

  function RecycleStep(s: State): State {
    ClearStep(Reuse2Step(Reuse1Step(ShrinkStep(s))))
  }

  function Step(cap: nat, s: State, e: Event): State {
    if !Enabled(s, e) then s else
    match e
    case Append(m) => AppendStep(cap, s, m)
    case Stop => s.(running := false)
    case Head => s.(pc := if s.running then AtLock else Exited)
    case Lock => if s.buffers == [] then s.(pc := Waiting) else CollectStep(s)
    case Wake => CollectStep(s)
    case Trim => TrimStep(s)
    case Write => WriteStep(s)
    case Recycle => RecycleStep(s)
  }

  function Exec(cap: nat, s: State, es: seq<Event>): State {
    if es == [] then s else Step(cap, Exec(cap, s, es[..|es| - 1]), es[|es| - 1])
  }

  // ---------- What the log should contain ----------

  /** Messages that fit into an empty buffer; append() loses the others silently. */
  function Retained(cap: nat, ms: seq<Message>): seq<Message> {
    if ms == [] then [] else
    Retained(cap, ms[..|ms| - 1]) + (if |ms[|ms| - 1]| < cap then [ms[|ms| - 1]] else [])
  }

  /** Every message of every collection, dropped or not. */
  function Everything(cs: seq<seq<Batch>>): seq<Message> {
    if cs == [] then [] else Everything(cs[..|cs| - 1]) + Flatten(cs[|cs| - 1])
  }

  /** The same without positions 2 onward of the collections longer than 25. */
  function Surviving(cs: seq<seq<Batch>>): seq<Message> {
    if cs == [] then [] else Surviving(cs[..|cs| - 1]) + Flatten(TrimRule(cs[|cs| - 1]))
  }

  /** What producers have appended and the consumer has not taken over yet. */
  function Residue(s: State): seq<Message> {
    Flatten(s.buffers) + s.curr
  }

  /** The part of the current collection still to be written. */
  function Unwritten(s: State): seq<Message> {
    match s.pc
    case AtTrim => Flatten(TrimRule(s.toWrite))
    case Writing(i) => if i <= |s.toWrite| then Flatten(s.toWrite[i..]) else []
    case _ => []
  }

  /** Buffers allocated beyond the four that are always there. */
  function Excess(batches: nat): nat {
    if batches > 2 then batches - 2 else 0
  }

  function ExcessOf(cs: seq<seq<Batch>>): nat {
    if cs == [] then 0 else ExcessOf(cs[..|cs| - 1]) + Excess(|cs[|cs| - 1]|)
  }

  function Count<T>(o: Option<T>): nat {
    if o.Some? then 1 else 0
  }

  function Live(s: State): nat {
    1 + Count(s.spare) + |s.buffers| + |s.toWrite| + Count(s.new1) + Count(s.new2)
  }

  // ---------- The invariant ----------

  predicate Empty(o: Option<Batch>) {
    o.Some? ==> o.value == []
  }

  predicate AllFit(cap: nat, bs: seq<Batch>) {
    forall i :: 0 <= i < |bs| ==> Size(bs[i]) < cap
  }

  /** Between the collection and the recycling. */
  predicate Holding(s: State) {
    s.pc.AtTrim? || s.pc.Writing?
  }

  ghost predicate SparesEmpty(s: State) {
    && Empty(s.spare) && Empty(s.new1) && Empty(s.new2)
    && (s.spare.None? <==> s.buffers != [])
  }

  ghost predicate Sizes(cap: nat, s: State) {
    Size(s.curr) < cap && AllFit(cap, s.buffers) && AllFit(cap, s.toWrite)
  }

  ghost predicate ConsumerSide(s: State) {
    if Holding(s) then
      && s.new1.None?
      && s.collected != []
      && var batch := s.collected[|s.collected| - 1];
         && (if s.new2.None? then |batch| >= 2 else |batch| == 1)
         && (s.pc.AtTrim? ==> s.toWrite == batch)
         && (s.pc.Writing? ==> s.toWrite == TrimRule(batch) && s.pc.next <= |s.toWrite|)
    else
      s.toWrite == [] && s.new1.Some? && s.new2.Some?
  }

  ghost predicate Ownership(cap: nat, s: State) {
    !s.fault && SparesEmpty(s) && Sizes(cap, s) && ConsumerSide(s)
  }

  ghost predicate Conserved(cap: nat, s: State) {
    && Everything(s.collected) + Residue(s) == Retained(cap, s.appended)
    && Everything(s.collected) == Retained(cap, s.seen)
    && s.file + Unwritten(s) == Surviving(s.collected)
  }

  /** How many buffers of the batch being written have been freed already. */
  ghost function Owed(s: State): nat {
    if s.collected == [] then 0 else
    match s.pc
    case AtTrim => Excess(|s.collected[|s.collected| - 1]|)
    case Writing(_) => Excess(|TrimRule(s.collected[|s.collected| - 1])|)
    case _ => 0
  }

  ghost predicate Accounted(s: State) {
    && s.created == 4 + ExcessOf(s.collected) + (if |s.buffers| > 1 then |s.buffers| - 1 else 0)
    && s.freed + Owed(s) == ExcessOf(s.collected)
  }

  ghost predicate Inv(cap: nat, s: State) {
    Ownership(cap, s) && Conserved(cap, s) && Accounted(s)
  }

  // ---------- Every step keeps it ----------

  lemma RetainedSnoc(cap: nat, ms: seq<Message>, m: Message)
    ensures Retained(cap, ms + [m]) == Retained(cap, ms) + (if |m| < cap then [m] else [])
  {
    assert (ms + [m])[..|ms|] == ms;
  }

  lemma SizeSnoc(b: Batch, m: Message)
    ensures Size(b + [m]) == Size(b) + |m|
  {
    FlattenSnoc(b, m);
  }

  lemma LedgerSnoc(cs: seq<seq<Batch>>, c: seq<Batch>)
    ensures Everything(cs + [c]) == Everything(cs) + Flatten(c)
    ensures Surviving(cs + [c]) == Surviving(cs) + Flatten(TrimRule(c))
    ensures ExcessOf(cs + [c]) == ExcessOf(cs) + Excess(|c|)
  {
    assert (cs + [c])[..|cs|] == cs;
  }

  lemma AppendOwnership(cap: nat, s: State, m: Message)
    requires cap > 0 && Ownership(cap, s)
    ensures Ownership(cap, AppendStep(cap, s, m))
  {
    SizeSnoc(s.curr, m);
    SizeSnoc([], m);
  }

  lemma AppendResidue(cap: nat, s: State, m: Message)
    requires cap > 0 && SparesEmpty(s) && Size(s.curr) < cap
    ensures Residue(AppendStep(cap, s, m)) == Residue(s) + (if |m| < cap then [m] else [])
  {
    FlattenSnoc(s.buffers, s.curr);
    assert [] + [m] == [m];
    if cap - Size(s.curr) > |m| {
      assert Residue(AppendStep(cap, s, m)) == Flatten(s.buffers) + (s.curr + [m]);
    }
  }

  /** The ledger stays balanced when both sides gain the same messages. */
  lemma LedgerGrows(cap: nat, s: State, t: State, gained: seq<Message>)
    requires Conserved(cap, s)
    requires t.collected == s.collected && t.seen == s.seen
    requires t.file + Unwritten(t) == s.file + Unwritten(s)
    requires Residue(t) == Residue(s) + gained
    requires Retained(cap, t.appended) == Retained(cap, s.appended) + gained
    ensures Conserved(cap, t)
  {
    ConcatAssoc(Everything(s.collected), Residue(s), gained);
  }

  lemma AppendFrame(cap: nat, s: State, m: Message)
    ensures var t := AppendStep(cap, s, m);
            && t.collected == s.collected && t.seen == s.seen && t.file == s.file && t.fault == s.fault
            && t.pc == s.pc && t.toWrite == s.toWrite && t.new1 == s.new1 && t.new2 == s.new2
            && t.freed == s.freed && t.running == s.running && t.appended == s.appended + [m]
  {
  }

  lemma AppendLedger(cap: nat, s: State, m: Message)
    requires cap > 0 && SparesEmpty(s) && Size(s.curr) < cap && Conserved(cap, s)
    ensures Conserved(cap, AppendStep(cap, s, m))
  {
    AppendFrame(cap, s, m);
    AppendResidue(cap, s, m);
    RetainedSnoc(cap, s.appended, m);
    LedgerGrows(cap, s, AppendStep(cap, s, m), if |m| < cap then [m] else []);
  }

  lemma AppendAccounted(cap: nat, s: State, m: Message)
    requires SparesEmpty(s) && Accounted(s)
    ensures Accounted(AppendStep(cap, s, m))
  {
    AppendFrame(cap, s, m);
  }

  lemma CollectOwnership(cap: nat, s: State)
    requires cap > 0 && Ownership(cap, s) && !Holding(s)
    ensures Ownership(cap, CollectStep(s))
  {
    var t := CollectStep(s);
    assert t.collected[|t.collected| - 1] == t.toWrite == s.buffers + [s.curr];
    assert Flatten<char>([]) == [];
  }

  lemma CollectFrame(s: State)
    requires s.new1.Some?
    ensures var t := CollectStep(s);
            && t.collected == s.collected + [s.buffers + [s.curr]] && t.seen == t.appended == s.appended
            && t.pc == AtTrim && t.toWrite == s.buffers + [s.curr] && t.buffers == s.toWrite
            && t.curr == s.new1.value && t.file == s.file
            && t.created == s.created && t.freed == s.freed && t.running == s.running
  {
  }

  /** The ledger when `taken`, all that waited, changes hands. */
  lemma LedgerMoves(cap: nat, s: State, t: State, taken: seq<Batch>)
    requires Conserved(cap, s) && Unwritten(s) == [] && Flatten(taken) == Residue(s)
    requires t.collected == s.collected + [taken] && t.seen == t.appended == s.appended
    requires t.file == s.file && t.pc == AtTrim && t.toWrite == taken && Residue(t) == []
    ensures Everything(t.collected) == Retained(cap, s.appended)
    ensures Conserved(cap, t)
  {
    LedgerSnoc(s.collected, taken);
    hide Everything, Surviving, TrimRule;
    assert s.file + [] == s.file;
    assert Everything(t.collected) + [] == Everything(t.collected);
  }

  lemma CollectLedger(cap: nat, s: State)
    requires cap > 0 && Inv(cap, s) && !Holding(s)
    ensures Everything(CollectStep(s).collected) == Retained(cap, s.appended)
    ensures Residue(CollectStep(s)) == []
    ensures Conserved(cap, CollectStep(s))
  {
    CollectFrame(s);
    FlattenSnoc(s.buffers, s.curr);
    assert s.toWrite == [] && s.new1 == Some([]);
    hide CollectStep, Ownership, Accounted, Conserved;
    LedgerMoves(cap, s, CollectStep(s), s.buffers + [s.curr]);
  }

  lemma CollectAccounted(cap: nat, s: State)
    requires Inv(cap, s) && !Holding(s)
    ensures Accounted(CollectStep(s))
  {
    CollectFrame(s);
    LedgerSnoc(s.collected, s.buffers + [s.curr]);
  }

  lemma TrimOwnership(cap: nat, s: State)
    requires Ownership(cap, s) && Accounted(s) && s.pc.AtTrim?
    ensures Ownership(cap, TrimStep(s)) && Accounted(TrimStep(s))
  {
  }

  lemma TrimKeeps(cap: nat, s: State)
    requires cap > 0 && Inv(cap, s) && s.pc.AtTrim?
    ensures Inv(cap, TrimStep(s))
  {
    TrimOwnership(cap, s);
    var t := TrimStep(s);
    assert t.toWrite[0..] == t.toWrite;
    assert Unwritten(t) == Unwritten(s);
    hide Ownership, Accounted, Unwritten, TrimRule;
    assert Residue(t) == Residue(s) + [];
    LedgerGrows(cap, s, t, []);
  }

  lemma WriteStepUnwritten(s: State)
    requires Enabled(s, Write)
    ensures Unwritten(s) == s.toWrite[s.pc.next] + Unwritten(WriteStep(s))
  {
    assert s.toWrite[s.pc.next..][1..] == s.toWrite[s.pc.next + 1..];
  }

  lemma WriteKeeps(cap: nat, s: State)
    requires cap > 0 && Inv(cap, s) && Enabled(s, Write)
    ensures Inv(cap, WriteStep(s))
  {
    var t := WriteStep(s);
    WriteStepUnwritten(s);
    ConcatAssoc(s.file, s.toWrite[s.pc.next], Unwritten(t));
    hide Unwritten;
    assert Residue(t) == Residue(s) + [];
    LedgerGrows(cap, s, t, []);
  }

  lemma RecycleFrame(s: State)
    ensures var t := RecycleStep(s);
            && t.pc == AtHead && t.created == s.created
            && t.collected == s.collected && t.seen == s.seen && t.file == s.file
            && t.buffers == s.buffers && t.curr == s.curr && t.spare == s.spare && t.appended == s.appended
  {
  }

  lemma RecycleOwnership(cap: nat, s: State)
    requires cap > 0 && Ownership(cap, s) && s.pc.Writing?
    ensures var t := RecycleStep(s);
            && Ownership(cap, t)
            && t.freed == s.freed + Excess(|s.toWrite|)
  {
    RecycleFrame(s);
    var t := RecycleStep(s);
    assert SparesEmpty(t) && Sizes(cap, t);
  }

  lemma {:induction false} RecycleKeeps(cap: nat, s: State)
    requires cap > 0 && Inv(cap, s) && Enabled(s, Recycle)
    ensures Inv(cap, RecycleStep(s))
  {
    RecycleOwnership(cap, s);
    RecycleFrame(s);
    var t := RecycleStep(s);
    assert s.toWrite[s.pc.next..] == [];
    assert Unwritten(s) == [] == Unwritten(t);
    assert Residue(t) == Residue(s) + [];
    LedgerGrows(cap, s, t, []);
  }

  lemma ControlKeeps(cap: nat, s: State, t: State)
    requires cap > 0 && Inv(cap, s)
    requires t == s.(running := t.running, pc := t.pc)
    requires t.pc == s.pc || (!Holding(s) && !Holding(t))
    ensures Inv(cap, t)
  {
    assert Unwritten(t) == Unwritten(s);
    assert Residue(t) == Residue(s) + [];
    LedgerGrows(cap, s, t, []);
  }

  lemma CollectKeeps(cap: nat, s: State)
    requires cap > 0 && Inv(cap, s) && !Holding(s)
    ensures Inv(cap, CollectStep(s))
  {
    CollectOwnership(cap, s);
    CollectLedger(cap, s);
    CollectAccounted(cap, s);
  }

  lemma AppendKeeps(cap: nat, s: State, m: Message)
    requires cap > 0 && Inv(cap, s)
    ensures Inv(cap, AppendStep(cap, s, m))
  {
    AppendOwnership(cap, s, m);
    AppendLedger(cap, s, m);
    AppendAccounted(cap, s, m);
  }

  lemma StepKeeps(cap: nat, s: State, e: Event)
    requires cap > 0 && Inv(cap, s)
    ensures Inv(cap, Step(cap, s, e))
  {
    if Enabled(s, e) {
      match e
      case Append(m) => AppendKeeps(cap, s, m);
      case Stop | Head => ControlKeeps(cap, s, Step(cap, s, e));
      case Lock =>
        if s.buffers == [] {
          ControlKeeps(cap, s, Step(cap, s, e));
        } else {
          CollectKeeps(cap, s);
        }
      case Wake => CollectKeeps(cap, s);
      case Trim => TrimKeeps(cap, s);
      case Write => WriteKeeps(cap, s);
      case Recycle => RecycleKeeps(cap, s);
    }
  }

  lemma {:induction false} ExecKeeps(cap: nat, s: State, es: seq<Event>)
    requires cap > 0 && Inv(cap, s)
    ensures Inv(cap, Exec(cap, s, es))
  {
    if es != [] {
      ExecKeeps(cap, s, es[..|es| - 1]);
      StepKeeps(cap, Exec(cap, s, es[..|es| - 1]), es[|es| - 1]);
    }
  }

  // ---------- What holds in every schedule ----------

  function AppendsOf(es: seq<Event>): seq<Message> {
    if es == [] then [] else
    AppendsOf(es[..|es| - 1]) + (if es[|es| - 1].Append? then [es[|es| - 1].msg] else [])
  }

  lemma InitInv(cap: nat)
    requires cap > 0
    ensures Inv(cap, Init())
  {
    assert Flatten<char>([]) == [];
  }

  lemma StepHistory(cap: nat, s: State, e: Event)
    ensures Step(cap, s, e).appended == s.appended + (if e.Append? then [e.msg] else [])
    ensures s.collected <= Step(cap, s, e).collected
  {
    if Enabled(s, e) {
      match e
      case Append(m) => AppendFrame(cap, s, m);
      case Recycle => RecycleFrame(s);
      case _ =>
    }
  }

  lemma {:induction false} AppendedIsAppends(cap: nat, s: State, es: seq<Event>)
    ensures Exec(cap, s, es).appended == s.appended + AppendsOf(es)
  {
    if es != [] {
      AppendedIsAppends(cap, s, es[..|es| - 1]);
      StepHistory(cap, Exec(cap, s, es[..|es| - 1]), es[|es| - 1]);
    }
  }

  /** The state after any schedule, started from the constructor. */
  lemma Reached(cap: nat, es: seq<Event>) returns (s: State)
    requires cap > 0
    ensures s == Exec(cap, Init(), es)
    ensures Inv(cap, s)
    ensures s.appended == AppendsOf(es)
  {
    InitInv(cap);
    ExecKeeps(cap, Init(), es);
    AppendedIsAppends(cap, Init(), es);
    s := Exec(cap, Init(), es);
  }

  /**
    Conservation. What was collected plus what still waits is, in lock order,
    every message that fits a buffer; what the file holds or is about to get is
    that minus positions 2 onward of each collection longer than 25.
   */
  lemma {:induction false} Conservation(cap: nat, es: seq<Event>)
    requires cap > 0
    ensures var s := Exec(cap, Init(), es);
            && Everything(s.collected) + Residue(s) == Retained(cap, AppendsOf(es))
            && s.file + Unwritten(s) == Surviving(s.collected)
  {
    var s := Reached(cap, es);
  }

  lemma {:induction false} SurvivingIsSubsequence(cs: seq<seq<Batch>>)
    ensures Subsequence(Surviving(cs), Everything(cs))
  {
    if cs != [] {
      var batch := cs[|cs| - 1];
      SurvivingIsSubsequence(cs[..|cs| - 1]);
      FlattenConcat(TrimRule(batch), batch[|TrimRule(batch)|..]);
      assert batch == TrimRule(batch) + batch[|TrimRule(batch)|..];
      var kept := Flatten(TrimRule(batch));
      assert Flatten(batch)[..|kept|] == kept;
      SubsequenceExtend(Surviving(cs[..|cs| - 1]), Everything(cs[..|cs| - 1]), Flatten(batch), |kept|);
    }
  }

  lemma {:induction false} RetainedIsSubsequence(cap: nat, ms: seq<Message>)
    ensures Subsequence(Retained(cap, ms), ms)
  {
    if ms != [] {
      RetainedIsSubsequence(cap, ms[..|ms| - 1]);
      var last := [ms[|ms| - 1]];
      var keep := if |last[0]| < cap then 1 else 0;
      SubsequenceExtend(Retained(cap, ms[..|ms| - 1]), ms[..|ms| - 1], last, keep);
      assert ms == ms[..|ms| - 1] + last;
      assert Retained(cap, ms) == Retained(cap, ms[..|ms| - 1]) + last[..keep];
    }
  }

  lemma {:induction false} SubsequenceTrans<T>(a: seq<T>, b: seq<T>, c: seq<T>)
    requires Subsequence(a, b) && Subsequence(b, c)
    ensures Subsequence(a, c)
    decreases |b| + |c|
  {
    if a == [] {
    } else if Subsequence(b, c[..|c| - 1]) {
      SubsequenceTrans(a, b, c[..|c| - 1]);
    } else if Subsequence(a, b[..|b| - 1]) {
      SubsequenceTrans(a, b[..|b| - 1], c[..|c| - 1]);
    } else {
      SubsequenceTrans(a[..|a| - 1], b[..|b| - 1], c[..|c| - 1]);
    }
  }

  /**
    Whatever is dropped, nothing is torn, duplicated or reordered: the file, what
    is about to be written and what still waits are whole messages in lock order.
   */
  lemma {:induction false} NothingTornOrReordered(cap: nat, es: seq<Event>)
    requires cap > 0
    ensures var s := Exec(cap, Init(), es);
            Subsequence(s.file + Unwritten(s) + Residue(s), AppendsOf(es))
  {
    var s := Exec(cap, Init(), es);
    Conservation(cap, es);
    SurvivingIsSubsequence(s.collected);
    SubsequenceExtend(Surviving(s.collected), Everything(s.collected), Residue(s), |Residue(s)|);
    RetainedIsSubsequence(cap, AppendsOf(es));
    var all := Everything(s.collected) + Residue(s);
    assert Residue(s)[..|Residue(s)|] == Residue(s);
    SubsequenceTrans(s.file + Unwritten(s) + Residue(s), all, AppendsOf(es));
  }

  /** The messages the overload rule throws away. */
  function Lost(cs: seq<seq<Batch>>): seq<Message> {
    if cs == [] then [] else
    Lost(cs[..|cs| - 1]) + (if |cs[|cs| - 1]| > OVERLOAD then Flatten(cs[|cs| - 1][KEEP..]) else [])
  }

  /** The overload rule accounts for every difference between collected and written. */
  lemma {:induction false} OverloadIsTheOnlyLoss(cs: seq<seq<Batch>>)
    ensures |Everything(cs)| == |Surviving(cs)| + |Lost(cs)|
    ensures Surviving(cs) == Everything(cs) <==> Lost(cs) == []
  {
    if cs != [] {
      var batch := cs[|cs| - 1];
      OverloadIsTheOnlyLoss(cs[..|cs| - 1]);
      if |batch| > OVERLOAD {
        FlattenConcat(batch[..KEEP], batch[KEEP..]);
        assert batch == batch[..KEEP] + batch[KEEP..];
      }
      if Lost(cs) == [] && |batch| > OVERLOAD {
        assert Flatten(batch) == Flatten(batch[..KEEP]) + [];
      }
    }
  }

  /** The current buffer is queued exactly when the message does not fit what is left of it. */
  lemma RotatesIff(cap: nat, s: State, m: Message)
    requires SparesEmpty(s)
    ensures var t := AppendStep(cap, s, m);
            if Size(s.curr) + |m| < cap then t.buffers == s.buffers && t.curr == s.curr + [m] && t.spare == s.spare
            else t.buffers == s.buffers + [s.curr] && t.spare == None && t.curr == if |m| < cap then [m] else []
  {
    assert Size([]) == 0;
    assert [] + [m] == [m];
  }

  lemma RotationFindsRoom(cap: nat, s: State, m: Message)
    requires SparesEmpty(s) && |m| < cap
    ensures var c := AppendStep(cap, s, m).curr; c != [] && c[|c| - 1] == m
  {
    assert Size([]) == 0;
  }

  /**
    Recycling never touches an empty vector or a null buffer, spares are always
    handed over empty, and the append that follows a rotation finds room.
   */
  lemma RecyclingIsSafe(cap: nat, es: seq<Event>, m: Message)
    requires |m| < cap
    ensures var s := Exec(cap, Init(), es);
            && !s.fault
            && (s.spare.None? <==> s.buffers != [])
            && (s.pc == AtHead ==> s.new1 == Some([]) && s.new2 == Some([]) && s.toWrite == [])
            && var c := Step(cap, s, Append(m)).curr; c != [] && c[|c| - 1] == m
  {
    var s := Reached(cap, es);
    RotationFindsRoom(cap, s, m);
  }

  lemma LiveIsAccounted(cap: nat, s: State)
    requires Ownership(cap, s) && Accounted(s)
    ensures s.created == s.freed + Live(s)
    ensures s.pc == AtHead ==> Live(s) == 4 + Excess(|s.buffers| + 1)
  {
  }

  /**
    Buffers in existence, after any schedule; and no buffer is ever allocated
    beyond the first four exactly while no two rotations fall between collections.
   */
  lemma {:induction false} BufferAccounting(cap: nat, es: seq<Event>)
    requires cap > 0
    ensures var s := Exec(cap, Init(), es);
            && s.created == s.freed + Live(s)
            && (s.pc == AtHead ==> Live(s) == 4 + Excess(|s.buffers| + 1))
            && (s.pc == AtHead ==> s.freed == ExcessOf(s.collected))
            && (s.created == 4 <==> |s.buffers| <= 1 && forall i :: 0 <= i < |s.collected| ==> |s.collected[i]| <= 2)
  {
    var s := Reached(cap, es);
    LiveIsAccounted(cap, s);
    NoExcess(s.collected);
  }

  lemma {:induction false} NoExcess(cs: seq<seq<Batch>>)
    ensures ExcessOf(cs) == 0 <==> forall i :: 0 <= i < |cs| ==> |cs[i]| <= 2
  {
    if cs != [] {
      NoExcess(cs[..|cs| - 1]);
    }
  }

  lemma {:induction false} CollectedGrows(cap: nat, s: State, es: seq<Event>)
    ensures s.collected <= Exec(cap, s, es).collected
  {
    if es != [] {
      CollectedGrows(cap, s, es[..|es| - 1]);
      StepHistory(cap, Exec(cap, s, es[..|es| - 1]), es[|es| - 1]);
    }
  }

  lemma {:induction false} EverythingGrows(a: seq<seq<Batch>>, b: seq<seq<Batch>>)
    requires a <= b
    ensures Everything(a) <= Everything(b)
    decreases |b|
  {
    if a != b {
      EverythingGrows(a, b[..|b| - 1]);
    } else {
      assert a == b;
    }
  }

  /** Collecting: the step in which the consumer takes the producers' buffers over. */
  predicate Collects(s: State, e: Event) {
    (s.pc == AtLock && e == Lock && s.buffers != []) || (s.pc == Waiting && e == Wake)
  }

  lemma {:induction false} CollectionIsWritten(cap: nat, s: State, e: Event, later: seq<Event>)
    requires cap > 0 && Inv(cap, s) && Collects(s, e)
    requires !Holding(Exec(cap, Step(cap, s, e), later))
    ensures var t := Exec(cap, Step(cap, s, e), later);
            && Retained(cap, s.appended) <= Everything(t.collected)
            && t.file == Surviving(t.collected)
  {
    CollectLedger(cap, s);
    var c := CollectStep(s);
    assert c == Step(cap, s, e);
    StepKeeps(cap, s, e);
    CollectedGrows(cap, c, later);
    ExecKeeps(cap, c, later);
    EverythingGrows(c.collected, Exec(cap, c, later).collected);
  }

  /**
    Bounded staleness. Once the iteration that collected is over, all that had been
    appended before the collection has been taken over, and everything taken over
    is in the file but for what the overload rule dropped.
   */
  lemma {:induction false} CollectedIsWritten(cap: nat, es: seq<Event>, e: Event, later: seq<Event>)
    requires cap > 0
    requires Collects(Exec(cap, Init(), es), e)
    requires !Holding(Exec(cap, Step(cap, Exec(cap, Init(), es), e), later))
    ensures var t := Exec(cap, Step(cap, Exec(cap, Init(), es), e), later);
            && Retained(cap, AppendsOf(es)) <= Everything(t.collected)
            && t.file == Surviving(t.collected)
  {
    var s := Reached(cap, es);
    CollectionIsWritten(cap, s, e, later);
  }

  lemma {:induction false} RetainedConcat(cap: nat, a: seq<Message>, b: seq<Message>)
    ensures Retained(cap, a + b) == Retained(cap, a) + Retained(cap, b)
  {
    if b == [] {
      assert a + b == a;
    } else {
      assert (a + b)[..|a + b| - 1] == a + b[..|b| - 1];
      RetainedConcat(cap, a, b[..|b| - 1]);
    }
  }

  /** Where a consumer that was told to stop in state `s` can be. */
  ghost predicate AfterStop(cap: nat, s: State, t: State) {
    && !t.running
    && (if s.pc == AtLock || s.pc == Waiting then
          t.pc == AtLock || t.pc == Waiting || Retained(cap, s.appended) <= Everything(t.collected)
        else
          t.collected == s.collected && t.pc != AtLock && t.pc != Waiting)
  }

  /** Between AtLock and the collection there is no other way out. */
  lemma NoCollection(cap: nat, s: State, e: Event)
    requires !s.fault && !Collects(s, e)
    ensures var t := Step(cap, s, e);
            && t.collected == s.collected
            && (t.running ==> s.running)
            && (t.pc == AtLock || t.pc == Waiting ==> s.running || s.pc == AtLock || s.pc == Waiting)
            && (s.pc == AtLock || s.pc == Waiting ==> t.pc == AtLock || t.pc == Waiting)
  {
  }

  lemma StepAfterStop(cap: nat, s: State, t: State, e: Event)
    requires cap > 0 && Inv(cap, t) && AfterStop(cap, s, t)
    requires Retained(cap, s.appended) <= Retained(cap, t.appended)
    ensures AfterStop(cap, s, Step(cap, t, e))
  {
    if Collects(t, e) {
      CollectLedger(cap, t);
      assert Step(cap, t, e) == CollectStep(t);
    } else {
      NoCollection(cap, t, e);
    }
  }

  lemma {:induction false} RunAfterStop(cap: nat, s: State, es: seq<Event>)
    requires cap > 0 && Inv(cap, s)
    ensures AfterStop(cap, s, Exec(cap, s.(running := false), es))
  {
    var s1 := s.(running := false);
    if es != [] {
      var es' := es[..|es| - 1];
      StepKeeps(cap, s, Stop);
      ExecKeeps(cap, s1, es');
      RunAfterStop(cap, s, es');
      AppendedIsAppends(cap, s1, es');
      RetainedConcat(cap, s.appended, AppendsOf(es'));
      StepAfterStop(cap, s, Exec(cap, s1, es'), es[|es| - 1]);
    }
  }

  /**
    stop() does not force a last collection. When the consumer has exited, all that
    was appended before stop() has been taken over exactly if stop() found the
    consumer on its way into a collection, or nothing was waiting.
   */
  lemma StopSavesResidueIff(cap: nat, s: State, es: seq<Event>)
    requires cap > 0 && Inv(cap, s)
    requires Exec(cap, Step(cap, s, Stop), es).pc == Exited
    ensures var t := Exec(cap, Step(cap, s, Stop), es);
            Retained(cap, s.appended) <= Everything(t.collected) <==>
            s.pc == AtLock || s.pc == Waiting || Residue(s) == []
  {
    RunAfterStop(cap, s, es);
  }

  /** One message, and stop() before the consumer gets to look: it is never written. */
  lemma StopLosesAMessage()
    ensures var s := Exec(10, Init(), [Append("x"), Stop, Head]);
            s.pc == Exited && Residue(s) == ["x"] && s.file == []
  {
    var es := [Append("x"), Stop, Head];
    assert es[..2] == [Append("x"), Stop] && es[..2][..1] == [Append("x")] && es[..1][..0] == [];
    assert Exec(10, Init(), es[..1]) == AppendStep(10, Init(), "x");
    assert Flatten<char>([]) == [];
    assert [] + ["x"] == ["x"];
  }

  /** What an exited consumer leaves behind. */
  lemma ExitState(cap: nat, es: seq<Event>)
    requires cap > 0
    requires Exec(cap, Init(), es).pc == Exited
    ensures var s := Exec(cap, Init(), es);
            && s.file == Surviving(s.collected)
            && Everything(s.collected) == Retained(cap, s.seen)
            && Retained(cap, AppendsOf(es)) == Retained(cap, s.seen) + Residue(s)
  {
    var s := Reached(cap, es);
  }

  // ---------- The consumer's own turns lead somewhere ----------

  /** Each event can happen when its turn comes. */
  predicate Possible(cap: nat, s: State, es: seq<Event>) {
    es == [] ||
    (Possible(cap, s, es[..|es| - 1]) && Enabled(Exec(cap, s, es[..|es| - 1]), es[|es| - 1]))
  }

  /** Here `es` is possible and leads to `t`. */
  ghost predicate LeadsTo(cap: nat, s: State, es: seq<Event>, t: State) {
    Possible(cap, s, es) && Exec(cap, s, es) == t
  }

  lemma Nowhere(cap: nat, s: State)
    ensures LeadsTo(cap, s, [], s)
  {
  }

  lemma Then(cap: nat, s: State, es: seq<Event>, t: State, e: Event)
    requires LeadsTo(cap, s, es, t) && Enabled(t, e)
    ensures LeadsTo(cap, s, es + [e], Step(cap, t, e))
  {
    assert (es + [e])[..|es|] == es;
  }

  lemma Once(cap: nat, s: State, e: Event)
    requires Enabled(s, e)
    ensures LeadsTo(cap, s, [e], Step(cap, s, e))
  {
    hide LeadsTo;
    Nowhere(cap, s);
    Then(cap, s, [], s, e);
    assert [] + [e] == [e];
  }

  lemma Front(cap: nat, s: State, es: seq<Event>, t: State)
    requires LeadsTo(cap, s, es, t) && es != []
    ensures var n := |es| - 1;
            && LeadsTo(cap, s, es[..n], Exec(cap, s, es[..n]))
            && Enabled(Exec(cap, s, es[..n]), es[n]) && Step(cap, Exec(cap, s, es[..n]), es[n]) == t
  {
    hide Step, Enabled;
  }

  lemma Stays(cap: nat, s: State, es: seq<Event>, t: State)
    requires LeadsTo(cap, s, es, t) && es == []
    ensures s == t
  {
  }

  lemma {:induction false} Joined(cap: nat, s: State, a: seq<Event>, t: State, b: seq<Event>, u: State)
    requires LeadsTo(cap, s, a, t) && LeadsTo(cap, t, b, u)
    ensures LeadsTo(cap, s, a + b, u)
    decreases |b|
  {
    hide Step, Enabled, LeadsTo, Exec;
    if b == [] {
      assert a + b == a;
      Stays(cap, t, b, u);
    } else {
      var n := |b| - 1;
      Front(cap, t, b, u);
      Joined(cap, s, a, t, b[..n], Exec(cap, t, b[..n]));
      Then(cap, s, a + b[..n], Exec(cap, t, b[..n]), b[n]);
      assert a + b[..n] + [b[n]] == a + b;
    }
  }

  function Writes(n: nat): seq<Event> {
    if n == 0 then [] else Writes(n - 1) + [Write]
  }

  lemma WriteMeans(cap: nat, s: State)
    requires Enabled(s, Write)
    ensures Step(cap, s, Write) == s.(pc := Writing(s.pc.next + 1), file := s.file + s.toWrite[s.pc.next])
  {
  }

  lemma NothingFlat(bs: seq<Batch>)
    requires bs == []
    ensures Flatten(bs) == []
  {
  }

  lemma {:induction false} WritesAll(cap: nat, s: State, n: nat)
    requires s.pc.Writing? && s.pc.next + n <= |s.toWrite|
    ensures LeadsTo(cap, s, Writes(n), s.(pc := Writing(s.pc.next + n),
                                          file := s.file + Flatten(s.toWrite[s.pc.next..s.pc.next + n])))
  {
    hide LeadsTo, Step, Flatten;
    var i := s.pc.next;
    if n == 0 {
      assert Flatten(s.toWrite[i..i]) == [] by { NothingFlat(s.toWrite[i..i]); }
      assert s.file + [] == s.file;
      Nowhere(cap, s);
    } else {
      WritesAll(cap, s, n - 1);
      var t := s.(pc := Writing(i + n - 1), file := s.file + Flatten(s.toWrite[i..i + n - 1]));
      Then(cap, s, Writes(n - 1), t, Write);
      WriteMeans(cap, t);
      ConcatAssoc(s.file, Flatten(s.toWrite[i..i + n - 1]), s.toWrite[i + n - 1]);
      FlattenSnoc(s.toWrite[i..i + n - 1], s.toWrite[i + n - 1]);
      assert s.toWrite[i..i + n - 1] + [s.toWrite[i + n - 1]] == s.toWrite[i..i + n];
    }
  }

  /** What is left to do for the batch in hand. */
  function WriteOut(s: State): seq<Event> {
    if s.pc.Writing? && s.pc.next <= |s.toWrite| then Writes(|s.toWrite| - s.pc.next) + [Recycle] else []
  }

  /** The rest of an iteration that is past its test of `running`. */
  function Remaining(cap: nat, s: State): seq<Event> {
    match s.pc
    case AtLock =>
      var taken := CollectStep(s);
      (if s.buffers == [] then [Lock, Wake, Trim] else [Lock, Trim]) + WriteOut(TrimStep(taken))
    case Waiting => [Wake, Trim] + WriteOut(TrimStep(CollectStep(s)))
    case AtTrim => [Trim] + WriteOut(TrimStep(s))
    case Writing(_) => WriteOut(s)
    case _ => []
  }

  /** What an iteration that starts now would write: everything, or the first two of more than 25 buffers. */
  function Due(s: State): seq<Message> {
    if |s.buffers| < 25 then Residue(s) else s.buffers[0] + s.buffers[1]
  }

  /** Back at the loop head, nothing in hand, `gained` written. */
  ghost predicate Done(cap: nat, s: State, t: State, gained: seq<Message>) {
    Inv(cap, t) && t.pc == AtHead && t.running == s.running && t.file == s.file + gained && t.appended == s.appended
  }

  lemma WritesOut(cap: nat, s: State) returns (t: State)
    requires cap > 0 && Inv(cap, s) && s.pc.Writing?
    ensures LeadsTo(cap, s, WriteOut(s), t)
    ensures s.pc.next <= |s.toWrite| && Done(cap, s, t, Flatten(s.toWrite[s.pc.next..])) && Residue(t) == Residue(s)
  {
    hide LeadsTo, Step, Inv, Flatten;
    InRange(cap, s);
    var n := |s.toWrite| - s.pc.next;
    WritesAll(cap, s, n);
    var u := s.(pc := Writing(|s.toWrite|), file := s.file + Flatten(s.toWrite[s.pc.next..]));
    assert s.toWrite[s.pc.next..s.pc.next + n] == s.toWrite[s.pc.next..];
    Kept(cap, s, Writes(n), u);
    Then(cap, s, Writes(n), u, Recycle);
    t := Step(cap, u, Recycle);
    StepKeeps(cap, u, Recycle);
    RecycleMeans(cap, u);
  }

  lemma InRange(cap: nat, s: State)
    requires Inv(cap, s) && s.pc.Writing?
    ensures s.pc.next <= |s.toWrite|
  {
  }

  lemma Kept(cap: nat, s: State, es: seq<Event>, t: State)
    requires cap > 0 && Inv(cap, s) && LeadsTo(cap, s, es, t)
    ensures Inv(cap, t)
  {
    ExecKeeps(cap, s, es);
  }

  lemma RecycleMeans(cap: nat, s: State)
    requires Enabled(s, Recycle)
    ensures var t := Step(cap, s, Recycle);
            && t.pc == AtHead && t.running == s.running && t.file == s.file && t.appended == s.appended && Residue(t) == Residue(s)
  {
    RecycleFrame(s);
  }

  lemma TrimsAndWrites(cap: nat, s: State) returns (t: State)
    requires cap > 0 && Inv(cap, s) && s.pc == AtTrim
    ensures LeadsTo(cap, s, [Trim] + WriteOut(TrimStep(s)), t)
    ensures Done(cap, s, t, Flatten(if |s.toWrite| <= 25 then s.toWrite else s.toWrite[..2])) && Residue(t) == Residue(s)
  {
    hide LeadsTo, Inv, WriteOut, Flatten;
    var u := TrimStep(s);
    Once(cap, s, Trim);
    StepKeeps(cap, s, Trim);
    t := WritesOut(cap, u);
    assert u.toWrite[0..] == u.toWrite;
    Joined(cap, s, [Trim], u, WriteOut(u), t);
  }

  lemma FirstTwo(batch: seq<Batch>)
    requires |batch| >= 2
    ensures Flatten(batch[..2]) == batch[0] + batch[1]
  {
    assert batch[..1] == [] + [batch[0]] && batch[..2] == batch[..1] + [batch[1]];
    FlattenSnoc([], batch[0]);
    FlattenSnoc(batch[..1], batch[1]);
  }

  lemma SpareAtHand(cap: nat, s: State)
    requires Inv(cap, s) && !Holding(s)
    ensures s.new1.Some?
  {
  }

  /** From a collection, by the event `e`, to the loop head. */
  lemma CollectsAndWrites(cap: nat, s: State, e: Event) returns (t: State)
    requires cap > 0 && Inv(cap, s) && !Holding(s) && Enabled(s, e) && Step(cap, s, e) == CollectStep(s)
    ensures LeadsTo(cap, s, [e, Trim] + WriteOut(TrimStep(CollectStep(s))), t)
    ensures Done(cap, s, t, Due(s)) && Residue(t) == []
  {
    hide LeadsTo, Step, Enabled, CollectStep, TrimStep, WriteOut, Inv, Flatten;
    var u := CollectStep(s);
    Once(cap, s, e);
    StepKeeps(cap, s, e);
    SpareAtHand(cap, s);
    CollectFrame(s);
    CollectLedger(cap, s);
    t := TrimsAndWrites(cap, u);
    Joined(cap, s, [e], u, [Trim] + WriteOut(TrimStep(u)), t);
    assert [e] + ([Trim] + WriteOut(TrimStep(u))) == [e, Trim] + WriteOut(TrimStep(u));
    FlattenSnoc(s.buffers, s.curr);
    if |s.buffers| >= 25 {
      FirstTwo(s.buffers + [s.curr]);
    }
  }

  /** A consumer outside a collection has the spare that a collection needs. */
  lemma LockMeans(cap: nat, s: State)
    requires Inv(cap, s) && s.pc == AtLock
    ensures s.new1.Some? && Step(cap, s, Lock) == if s.buffers == [] then s.(pc := Waiting) else CollectStep(s)
    ensures s.buffers == [] ==> Step(cap, s.(pc := Waiting), Wake) == CollectStep(s.(pc := Waiting))
  {
  }

  lemma HeadMeans(cap: nat, s: State)
    requires s.pc == AtHead
    ensures Step(cap, s, Head) == s.(pc := if s.running then AtLock else Exited)
  {
  }

  /** Lines 78-91: the wait, if nothing is queued, and the collection. */
  lemma LocksAndWrites(cap: nat, s: State) returns (t: State)
    requires cap > 0 && Inv(cap, s) && s.pc == AtLock
    ensures LeadsTo(cap, s, Remaining(cap, s), t)
    ensures Done(cap, s, t, Due(s)) && Residue(t) == []
  {
    hide LeadsTo, CollectStep, TrimStep, WriteOut, Due, Residue, Step;
    LockMeans(cap, s);
    if s.buffers == [] {
      var w := s.(pc := Waiting);
      Once(cap, s, Lock);
      StepKeeps(cap, s, Lock);
      t := CollectsAndWrites(cap, w, Wake);
      SameCollection(s, w);
      var rest := WriteOut(TrimStep(CollectStep(w)));
      Joined(cap, s, [Lock], w, [Wake, Trim] + rest, t);
      assert [Lock] + ([Wake, Trim] + rest) == [Lock, Wake, Trim] + rest;
    } else {
      t := CollectsAndWrites(cap, s, Lock);
    }
  }

  /** The consumer wherever it is: it can finish its iteration, and what it has to write is in the file then. */
  lemma {:induction false} IterationEnds(cap: nat, s: State) returns (t: State)
    requires cap > 0 && Inv(cap, s) && s.pc != Exited
    ensures LeadsTo(cap, s, Remaining(cap, s), t)
    ensures if s.pc == AtLock || s.pc == Waiting then Done(cap, s, t, Due(s)) && Residue(t) == []
            else Done(cap, s, t, Unwritten(s)) && Residue(t) == Residue(s)
  {
    hide LeadsTo, Inv, CollectStep, WriteOut, Due, Residue;
    match s.pc
    case AtHead =>
      assert s.file + [] == s.file;
      Nowhere(cap, s);
      t := s;
    case AtLock =>
      t := LocksAndWrites(cap, s);
    case Waiting =>
      t := CollectsAndWrites(cap, s, Wake);
    case AtTrim =>
      t := TrimsAndWrites(cap, s);
    case Writing(_) =>
      t := WritesOut(cap, s);
  }

  lemma SameCollection(s: State, w: State)
    requires w == s.(pc := w.pc) && !s.pc.Writing? && !w.pc.Writing?
    ensures Due(w) == Due(s) && Residue(w) == Residue(s)
    ensures s.new1.Some? ==> CollectStep(w) == CollectStep(s)
  {
  }

  /** One whole iteration from the loop head. */
  function Iteration(cap: nat, s: State): seq<Event> {
    [Head] + Remaining(cap, Step(cap, s, Head))
  }

  /**
    Progress. After any schedule, a running consumer at its loop head can go through one
    iteration on its own turns. Then all that had been appended waits no longer and is in the
    file, or, if more than 25 buffers had filled up, the first two of them are.
   */
  lemma {:induction false} IterationWrites(cap: nat, es: seq<Event>)
    requires cap > 0 && Exec(cap, Init(), es).pc == AtHead && Exec(cap, Init(), es).running
    ensures var s := Exec(cap, Init(), es);
            var t := Exec(cap, s, Iteration(cap, s));
            && Possible(cap, s, Iteration(cap, s)) && t.pc == AtHead && t.running
            && t.file == s.file + Due(s) && Residue(t) == []
            && (|s.buffers| < 25 ==> t.file == s.file + Residue(s))
  {
    hide Exec, Possible, Step, Inv, Remaining, Flatten;
    var s := Reached(cap, es);
    HeadMeans(cap, s);
    var h := s.(pc := AtLock);
    Once(cap, s, Head);
    StepKeeps(cap, s, Head);
    var t := IterationEnds(cap, h);
    Joined(cap, s, [Head], h, Remaining(cap, h), t);
  }

  /** Once told to stop, the consumer can finish what it has in hand, and exits. */
  lemma {:induction false} StoppedConsumerExits(cap: nat, es: seq<Event>)
    requires cap > 0 && !Exec(cap, Init(), es).running && Exec(cap, Init(), es).pc != Exited
    ensures var s := Exec(cap, Init(), es);
            var last := Remaining(cap, s) + [Head];
            var t := Exec(cap, s, last);
            && Possible(cap, s, last) && t.pc == Exited
            && t.file == s.file + if s.pc == AtLock || s.pc == Waiting then Due(s) else Unwritten(s)
  {
    hide Exec, Possible, Step, Inv, Remaining, Residue;
    var s := Reached(cap, es);
    var t := IterationEnds(cap, s);
    HeadMeans(cap, t);
    Then(cap, s, Remaining(cap, s), t, Head);
  }
}

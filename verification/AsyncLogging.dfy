/**
  The logger itself: buffers are objects that change hands between the producers
  and the consumer. Each method is one atomic step of a thread (what it does under
  the mutex, or on data only that thread owns), and its contract says that it is
  the step of the same name of AsyncLogSpec. Line numbers are those of
  src/log/async_logging.cpp.
 */
module AsyncLog {
  import opened Limits
  import opened Sequences
  import opened FixedBuffers
  import opened ShortWrites
  import Spec = AsyncLogSpec

  /** Which pointer leads to a buffer. A buffer has one place, so none is shared. */
  datatype Place = Current | Next | Queued(i: nat) | ToWrite(i: nat) | New1 | New2

  /** Where each buffer is and what is in it. */
  datatype Book = Book(place: map<FixedBuffer, Place>, content: map<FixedBuffer, Spec.Batch>)

  type Contents = map<FixedBuffer, Spec.Batch>

  /** Whose storage an array is. */
  type Owner = map<array<char>, FixedBuffer>

  datatype Pointers = Pointers(
    curr: FixedBuffer, next: FixedBuffer?, buffers: seq<FixedBuffer>,
    toWrite: seq<FixedBuffer>, new1: FixedBuffer?, new2: FixedBuffer?)

  ghost predicate At(book: Book, b: FixedBuffer, p: Place, batch: Spec.Batch) {
    b in book.place && book.place[b] == p && b in book.content && book.content[b] == batch
  }

  ghost predicate Spare(book: Book, b: FixedBuffer?, p: Place, batch: Option<Spec.Batch>) {
    if b == null then batch == None else batch.Some? && At(book, b, p, batch.value)
  }

  /** The pointers lead, each to a buffer of its own, to what the state says. */
  ghost predicate Layout(book: Book, p: Pointers, s: Spec.State) {
    && At(book, p.curr, Current, s.curr)
    && Spare(book, p.next, Next, s.spare)
    && |p.buffers| == |s.buffers|
    && (forall i :: 0 <= i < |p.buffers| ==> At(book, p.buffers[i], Queued(i), s.buffers[i]))
    && |p.toWrite| == |s.toWrite|
    && (forall i :: 0 <= i < |p.toWrite| ==> At(book, p.toWrite[i], ToWrite(i), s.toWrite[i]))
    && Spare(book, p.new1, New1, s.new1)
    && Spare(book, p.new2, New2, s.new2)
  }

  ghost predicate Intact(owner: Owner, capacity: nat, b: FixedBuffer, batch: Spec.Batch)
    reads b, b.data
  {
    && b.data in owner && owner[b.data] == b
    && b.Valid() && b.data.Length == capacity && b.items == batch
  }

  /** The heap agrees with the book. */
  ghost predicate Faithful(content: Contents, owner: Owner, capacity: nat)
    reads content.Keys, owner.Keys
  {
    forall b :: b in content ==> b.data in owner.Keys && Intact(owner, capacity, b, content[b])
  }

  lemma Nothing(capacity: nat)
    ensures Faithful(map[], map[], capacity)
  {
  }

  lemma Room(content: Contents, owner: Owner, capacity: nat, b: FixedBuffer)
    requires b in content && Faithful(content, owner, capacity)
    ensures b.data in owner.Keys
    ensures b.Avail() == capacity - Spec.Size(content[b])
  {
    assert Intact(owner, capacity, b, content[b]);
  }

  lemma Text(content: Contents, owner: Owner, capacity: nat, b: FixedBuffer)
    requires b in content && Faithful(content, owner, capacity)
    ensures b.cur <= b.data.Length && b.data[..b.cur] == Flatten(content[b])
  {
    assert Intact(owner, capacity, b, content[b]);
  }

  method NewBuffer(ghost content: Contents, ghost owner: Owner, capacity: nat)
    returns (b: FixedBuffer, ghost content': Contents, ghost owner': Owner)
    requires capacity <= INT_MAX && Faithful(content, owner, capacity)
    ensures fresh(b) && fresh(b.data)
    ensures content' == content[b := []] && owner' == owner[b.data := b]
    ensures Faithful(content', owner', capacity)
  {
    b := new FixedBuffer(capacity);
    content', owner' := content[b := []], owner[b.data := b];
  }

  method TwoBuffers(ghost content: Contents, ghost owner: Owner, capacity: nat)
    returns (a: FixedBuffer, b: FixedBuffer, ghost content': Contents, ghost owner': Owner)
    requires capacity <= INT_MAX && Faithful(content, owner, capacity)
    ensures a != b && fresh(a) && fresh(b) && fresh(owner'.Keys - owner.Keys)
    ensures content' == content[a := []][b := []]
    ensures Faithful(content', owner', capacity)
  {
    hide Faithful;
    a, content', owner' := NewBuffer(content, owner, capacity);
    b, content', owner' := NewBuffer(content', owner', capacity);
  }

  method ResetIn(ghost content: Contents, ghost owner: Owner, capacity: nat, b: FixedBuffer)
    returns (ghost content': Contents)
    requires b in content && Faithful(content, owner, capacity)
    modifies b
    ensures content' == content[b := []]
    ensures Faithful(content', owner, capacity)
  {
    assert Intact(owner, capacity, b, content[b]);
    b.Reset();
    content' := content[b := []];
  }

  method AppendTo(ghost content: Contents, ghost owner: Owner, capacity: nat, b: FixedBuffer, msg: Spec.Message)
    returns (ghost content': Contents)
    requires b in content && Faithful(content, owner, capacity) && |msg| <= INT_MAX
    modifies b, b.data
    ensures content' == content[b := Spec.Put(capacity, content[b], msg)]
    ensures Faithful(content', owner, capacity)
  {
    assert Intact(owner, capacity, b, content[b]);
    b.Append(msg);
    content' := content[b := Spec.Put(capacity, content[b], msg)];
  }

  // ---------- Moving pointers, on paper ----------

  predicate SameControl(s: Spec.State, t: Spec.State) {
    t.running == s.running && t.pc == s.pc && t.fault == s.fault && t.file == s.file
  }

  lemma InitialLayout(book: Book, p: Pointers)
    requires p.next != null && p.new1 != null && p.new2 != null && p.buffers == [] && p.toWrite == []
    requires book == Book(map[p.curr := Current, p.next := Next, p.new1 := New1, p.new2 := New2],
                          map[p.curr := [], p.next := [], p.new1 := [], p.new2 := []])
    requires p.curr != p.next && p.curr != p.new1 && p.curr != p.new2
    requires p.next != p.new1 && p.next != p.new2 && p.new1 != p.new2
    ensures Layout(book, p, Spec.Init())
  {
  }

  lemma TakeInLayout(book: Book, p: Pointers, s: Spec.State, batch: Spec.Batch)
    requires Layout(book, p, s)
    ensures Layout(book.(content := book.content[p.curr := batch]), p, s.(curr := batch))
  {
  }

  /** The layout does not look at the rest of the state. */
  lemma SameLayout(book: Book, p: Pointers, s: Spec.State, t: Spec.State)
    requires Layout(book, p, s)
    requires t.curr == s.curr && t.spare == s.spare && t.buffers == s.buffers
    requires t.toWrite == s.toWrite && t.new1 == s.new1 && t.new2 == s.new2
    ensures Layout(book, p, t)
    ensures p.curr in book.content && book.content[p.curr] == s.curr
    ensures p.next == null <==> s.spare.None?
    ensures p.new1 == null <==> s.new1.None?
    ensures p.new2 == null <==> s.new2.None?
    ensures |p.buffers| == |s.buffers| && |p.toWrite| == |s.toWrite|
  {
  }

  lemma QueuedLayout(book: Book, p: Pointers, s: Spec.State, i: nat)
    requires Layout(book, p, s) && i < |p.toWrite|
    ensures |p.toWrite| == |s.toWrite|
    ensures p.toWrite[i] in book.content && book.content[p.toWrite[i]] == s.toWrite[i]
  {
  }

  /** Who points where after lines 46-53. */
  function Rotated(p: Pointers, b: FixedBuffer): Pointers {
    p.(buffers := p.buffers + [p.curr], curr := b, next := null)
  }

  ghost function RotatedPlaces(book: Book, p: Pointers, b: FixedBuffer): map<FixedBuffer, Place> {
    book.place[p.curr := Queued(|p.buffers|)][b := Current]
  }

  lemma RotateLayout(book: Book, p: Pointers, s: Spec.State, b: FixedBuffer)
    requires Layout(book, p, s)
    requires if p.next == null then b !in book.content && b !in book.place else b == p.next
    ensures var content := if p.next == null then book.content[b := []] else book.content;
            Layout(Book(RotatedPlaces(book, p, b), content), Rotated(p, b), Spec.Rotate(s))
    ensures SameControl(s, Spec.Rotate(s))
  {
  }

  /** Who points where after lines 83-87. */
  function Moved(p: Place, queued: nat): Place {
    match p
    case Queued(i) => ToWrite(i)
    case Current => ToWrite(queued)
    case New1 => Current
    case _ => p
  }

  ghost function Relocate(place: map<FixedBuffer, Place>, queued: nat): map<FixedBuffer, Place> {
    map b | b in place :: Moved(place[b], queued)
  }

  lemma TakeLayout(book: Book, p: Pointers, s: Spec.State)
    requires Layout(book, p, s) && p.new1 != null && p.toWrite == []
    ensures Layout(book.(place := Relocate(book.place, |p.buffers|)),
                   p.(curr := p.new1, new1 := null, toWrite := p.buffers + [p.curr], buffers := []),
                   Spec.TakeStep(s))
    ensures SameControl(s.(pc := Spec.AtTrim), Spec.TakeStep(s))
  {
  }

  lemma RefillLayout(book: Book, p: Pointers, s: Spec.State)
    requires Layout(book, p, s) && p.next == null
    ensures var place := if p.new2 == null then book.place else book.place[p.new2 := Next];
            Layout(book.(place := place), p.(next := p.new2, new2 := null), Spec.RefillStep(s))
  {
  }

  lemma ShorterLayout(book: Book, p: Pointers, s: Spec.State, n: nat)
    requires Layout(book, p, s) && n <= |p.toWrite|
    ensures Layout(book, p.(toWrite := p.toWrite[..n]), s.(toWrite := s.toWrite[..n]))
  {
  }

  lemma Reuse1Layout(book: Book, p: Pointers, s: Spec.State)
    requires Layout(book, p, s) && p.new1 == null && |p.toWrite| > 0
    ensures var n := |p.toWrite| - 1;
            var b := p.toWrite[n];
            && b in book.content
            && Layout(Book(book.place[b := New1], book.content[b := []]),
                      p.(new1 := b, toWrite := p.toWrite[..n]), Spec.Reuse1Step(s))
            && SameControl(s, Spec.Reuse1Step(s))
  {
  }

  lemma Reuse2Layout(book: Book, p: Pointers, s: Spec.State)
    requires Layout(book, p, s) && p.new2 == null && |p.toWrite| > 0
    ensures var n := |p.toWrite| - 1;
            var b := p.toWrite[n];
            && b in book.content
            && Layout(Book(book.place[b := New2], book.content[b := []]),
                      p.(new2 := b, toWrite := p.toWrite[..n]), Spec.Reuse2Step(s))
            && SameControl(s, Spec.Reuse2Step(s))
  {
  }

  lemma Kept1(book: Book, p: Pointers, s: Spec.State)
    requires Layout(book, p, s) && p.new1 != null
    ensures Spec.Reuse1Step(s) == s
  {
  }

  lemma Kept2(book: Book, p: Pointers, s: Spec.State)
    requires Layout(book, p, s) && p.new2 != null
    ensures Spec.Reuse2Step(s) == s
  {
  }

  class AsyncLogging {
    const capacity: nat
    var running: bool
    var pc: Spec.ConsumerPc
    // shared, under the mutex
    var curr: FixedBuffer
    var next: FixedBuffer?
    var buffers: seq<FixedBuffer>
    // thread_func's own
    var toWrite: seq<FixedBuffer>
    var new1: FixedBuffer?
    var new2: FixedBuffer?
    const file: WriteFile

    /** The state of the specification this object is in. */
    ghost var abs: Spec.State
    ghost var book: Book
    ghost var owner: Owner

    ghost function Where(): Pointers
      reads this
    {
      Pointers(curr, next, buffers, toWrite, new1, new2)
    }

    ghost predicate Valid()
      reads this, book.content.Keys, owner.Keys, file
    {
      && 0 < capacity <= INT_MAX
      && running == abs.running && pc == abs.pc && !abs.fault
      && file.WasGiven(abs.file)
      && Layout(book, Where(), abs)
      && Faithful(book.content, owner, capacity)
    }

    constructor (capacity: nat)
      requires 0 < capacity <= INT_MAX
      ensures Valid() && this.capacity == capacity
      ensures fresh(book.content.Keys) && fresh(owner.Keys) && fresh(file)
      ensures abs == Spec.Init() && file.lines == [] && file.accepted == []
    {
      hide WriteFile.Valid, Faithful, Layout;
      this.capacity := capacity;
      running, pc := true, Spec.AtHead;
      ghost var content: Contents, owned: Owner := map[], map[];
      assert Faithful(content, owned, capacity) by { Nothing(capacity); }
      var b1, b2, b3, b4;
      b1, b2, content, owned := TwoBuffers(content, owned, capacity);
      b3, b4, content, owned := TwoBuffers(content, owned, capacity);
      curr, next, new1, new2 := b1, b2, b3, b4;
      buffers, toWrite := [], [];
      file := new WriteFile();
      abs := Spec.Init();
      ghost var bk := Book(map[b1 := Current, b2 := Next, b3 := New1, b4 := New2], content);
      book := bk;
      InitialLayout(bk, Pointers(b1, b2, [], [], b3, b4));
      owner := owned;
    }

    /** FixedBuffer::append on the current buffer. */
    method TakeIn(msg: Spec.Message)
      requires Valid() && |msg| <= INT_MAX
      modifies this`abs, this`book, book.content.Keys, owner.Keys
      ensures Valid()
      ensures book.content.Keys == old(book.content.Keys) && owner == old(owner)
      ensures abs == old(abs).(curr := Spec.Put(capacity, old(abs).curr, msg))
    {
      hide WriteFile.WasGiven, Faithful, Layout;
      SameLayout(book, Where(), abs, abs);
      Room(book.content, owner, capacity, curr);
      TakeInLayout(book, Where(), abs, Spec.Put(capacity, abs.curr, msg));
      ghost var content := AppendTo(book.content, owner, capacity, curr, msg);
      abs, book := abs.(curr := Spec.Put(capacity, abs.curr, msg)), book.(content := content);
    }

    /** The full buffer is queued and the spare becomes the current one. */
    method UseSpare()
      requires Valid() && next != null
      modifies this`abs, this`book, this`curr, this`next, this`buffers
      ensures Valid() && book.content == old(book.content)
      ensures abs == Spec.Rotate(old(abs))
    {
      hide WriteFile.WasGiven, Faithful, Layout, Flatten, RotatedPlaces, Spec.Rotate;
      RotateLayout(book, Where(), abs, next);
      book, abs := book.(place := RotatedPlaces(book, Where(), next)), Spec.Rotate(abs);
      buffers, curr, next := buffers + [curr], next, null;
    }

    /** The full buffer is queued and a new one becomes the current one. */
    method UseNew(b: FixedBuffer, ghost content: Contents, ghost owned: Owner)
      requires Valid() && Faithful(content, owned, capacity) && next == null
      requires b !in book.content && b !in book.place && content == book.content[b := []]
      modifies this`abs, this`book, this`owner, this`curr, this`buffers
      ensures Valid() && book.content == content && owner == owned
      ensures abs == Spec.Rotate(old(abs))
    {
      hide WriteFile.WasGiven, Faithful, Layout, Flatten, RotatedPlaces, Spec.Rotate;
      RotateLayout(book, Where(), abs, b);
      book, abs := Book(RotatedPlaces(book, Where(), b), content), Spec.Rotate(abs);
      buffers, curr, owner := buffers + [curr], b, owned;
    }

    /** Lines 46-53. */
    method MakeRoom()
      requires Valid()
      modifies this
      ensures Valid()
      ensures forall b :: b in book.content ==> b in old(book.content) || fresh(b)
      ensures forall d :: d in owner ==> d in old(owner) || fresh(d)
      ensures abs == Spec.Rotate(old(abs))
    {
      hide WriteFile.WasGiven, Faithful, Layout, Spec.Rotate;
      if next != null {
        UseSpare();
      } else {
        var b;
        ghost var content, owned;
        b, content, owned := NewBuffer(book.content, owner, capacity);
        UseNew(b, content, owned);
      }
    }

    /** A producer: append() from line 42 to line 56. */
    method Append(msg: Spec.Message)
      requires Valid() && |msg| <= INT_MAX
      modifies this, book.content.Keys, owner.Keys
      ensures Valid()
      ensures forall b :: b in book.content ==> b in old(book.content) || fresh(b)
      ensures forall d :: d in owner ==> d in old(owner) || fresh(d)
      ensures abs == Spec.AppendStep(capacity, old(abs), msg)
    {
      hide WriteFile.WasGiven, Faithful, Layout, Spec.Rotate, Spec.Put, Spec.Size;
      SameLayout(book, Where(), abs, abs.(appended := abs.appended + [msg]));
      Room(book.content, owner, capacity, curr);
      abs := abs.(appended := abs.appended + [msg]);
      if curr.Avail() <= |msg| {
        MakeRoom();
      }
      TakeIn(msg);
    }

    method Stop()
      requires Valid()
      modifies this`running, this`abs
      ensures Valid() && abs == old(abs).(running := false)
    {
      hide WriteFile.WasGiven, Faithful, Layout;
      SameLayout(book, Where(), abs, abs.(running := false));
      running, abs := false, abs.(running := false);
    }

    /** Line 73. */
    method Head()
      requires Valid() && pc == Spec.AtHead
      modifies this`pc, this`abs
      ensures Valid() && abs == Spec.Step(capacity, old(abs), Spec.Head)
    {
      hide WriteFile.WasGiven, Faithful, Layout;
      pc := if running then Spec.AtLock else Spec.Exited;
      SameLayout(book, Where(), abs, abs.(pc := pc));
      abs := abs.(pc := pc);
    }

    /** Lines 83-87: everything queued changes hands, new_buffer1 becomes current. */
    method Take()
      requires Valid() && new1 != null && toWrite == []
      modifies this`curr, this`buffers, this`toWrite, this`new1, this`pc, this`abs, this`book
      ensures Valid() && book.content == old(book.content)
      ensures abs == Spec.TakeStep(old(abs))
    {
      hide WriteFile.WasGiven, Faithful, Layout, Relocate, Flatten, Spec.TakeStep;
      TakeLayout(book, Where(), abs);
      ghost var bk, s := Book(Relocate(book.place, |buffers|), book.content), Spec.TakeStep(abs);
      book, abs := bk, s;
      buffers, toWrite, curr, new1, pc := toWrite, buffers + [curr], new1, null, Spec.AtTrim;
    }

    /** Lines 89-91: new_buffer2 replaces a spare that was used. */
    method Refill()
      requires Valid()
      modifies this
      ensures Valid() && book.content == old(book.content) && owner == old(owner)
      ensures abs == Spec.RefillStep(old(abs))
    {
      hide WriteFile.WasGiven, Faithful, Layout;
      SameLayout(book, Where(), abs, abs);
      if next == null {
        RefillLayout(book, Where(), abs);
        if new2 != null {
          book := book.(place := book.place[new2 := Next]);
        }
        next, new2, abs := new2, null, Spec.RefillStep(abs);
      }
    }

    /** Lines 78-81: the wait gives the mutex back, otherwise it is kept up to line 91. */
    method Lock()
      requires Valid() && pc == Spec.AtLock && new1 != null && toWrite == []
      modifies this
      ensures Valid() && book.content == old(book.content) && owner == old(owner)
      ensures abs == Spec.Step(capacity, old(abs), Spec.Lock)
    {
      hide WriteFile.WasGiven, Faithful, Layout;
      SameLayout(book, Where(), abs, abs.(pc := Spec.Waiting));
      if buffers == [] {
        pc := Spec.Waiting;
        abs := abs.(pc := pc);
      } else {
        Take();
        Refill();
      }
    }

    /** Returning from the wait, for whatever reason, with the mutex. */
    method Wake()
      requires Valid() && pc == Spec.Waiting && new1 != null && toWrite == []
      modifies this
      ensures Valid() && book.content == old(book.content) && owner == old(owner)
      ensures abs == Spec.Step(capacity, old(abs), Spec.Wake)
    {
      hide WriteFile.WasGiven, Faithful, Layout;
      Take();
      Refill();
    }

    /** Lines 98-100. */
    method Trim()
      requires Valid() && pc == Spec.AtTrim
      modifies this
      ensures Valid() && book == old(book) && owner == old(owner)
      ensures abs == Spec.TrimStep(old(abs))
    {
      hide WriteFile.WasGiven, Faithful, Layout;
      SameLayout(book, Where(), abs, abs);
      if |toWrite| > 25 {
        ShorterLayout(book, Where(), abs, 2);
        SameLayout(book, Where().(toWrite := toWrite[..2]), abs.(toWrite := abs.toWrite[..2]), Spec.TrimStep(abs));
        toWrite := toWrite[..2];
      } else {
        SameLayout(book, Where(), abs, Spec.TrimStep(abs));
      }
      pc, abs := Spec.Writing(0), Spec.TrimStep(abs);
    }

    /** One turn of the loop of lines 102-105. */
    method Write(grants: Grants)
      requires Valid() && pc.Writing? && pc.next < |toWrite|
      modifies this`pc, this`abs, file
      ensures Valid()
      ensures abs == Spec.WriteStep(old(abs))
      ensures file.lines == old(file.lines) + [Flatten(old(abs).toWrite[old(pc).next])]
      ensures file.accepted == old(file.accepted) + [Accepted(Flatten(old(abs).toWrite[old(pc).next]), grants)]
    {
      hide WriteFile.Valid, Faithful, Layout;
      var b := toWrite[pc.next];
      QueuedLayout(book, Where(), abs, pc.next);
      Text(book.content, owner, capacity, b);
      FlattenConcat(abs.file, abs.toWrite[pc.next]);
      SameLayout(book, Where(), abs, Spec.WriteStep(abs));
      FlattenSnoc(file.lines, Flatten(abs.toWrite[pc.next]));
      ghost var n := file.Append(b.data[..b.Size()], grants);
      pc, abs := Spec.Writing(pc.next + 1), Spec.WriteStep(abs);
    }

    /** Lines 111-115. */
    method Reuse1()
      requires Valid() && (new1 == null ==> |toWrite| > 0)
      modifies this`toWrite, this`new1, this`abs, this`book, book.content.Keys
      ensures Valid() && book.content.Keys == old(book.content.Keys)
      ensures abs == Spec.Reuse1Step(old(abs))
      ensures |toWrite| == |old(toWrite)| - if old(new1) == null then 1 else 0
    {
      hide WriteFile.WasGiven, Faithful, Layout, Flatten;
      hide Spec.Reuse1Step;
      if new1 == null {
        Reuse1Layout(book, Where(), abs);
        var b := toWrite[|toWrite| - 1];
        ghost var content := ResetIn(book.content, owner, capacity, b);
        book, abs := Book(book.place[b := New1], content), Spec.Reuse1Step(abs);
        new1, toWrite := b, toWrite[..|toWrite| - 1];
        assert Where() == old(Where().(new1 := toWrite[|toWrite| - 1], toWrite := toWrite[..|toWrite| - 1]));
      } else {
        Kept1(book, Where(), abs);
      }
    }

    /** Lines 117-121. */
    method Reuse2()
      requires Valid() && (new2 == null ==> |toWrite| > 0)
      modifies this`toWrite, this`new2, this`abs, this`book, book.content.Keys
      ensures Valid() && book.content.Keys == old(book.content.Keys)
      ensures abs == Spec.Reuse2Step(old(abs))
    {
      hide WriteFile.WasGiven, Faithful, Layout, Flatten;
      hide Spec.Reuse2Step;
      if new2 == null {
        Reuse2Layout(book, Where(), abs);
        var b := toWrite[|toWrite| - 1];
        ghost var content := ResetIn(book.content, owner, capacity, b);
        book, abs := Book(book.place[b := New2], content), Spec.Reuse2Step(abs);
        new2, toWrite := b, toWrite[..|toWrite| - 1];
        assert Where() == old(Where().(new2 := toWrite[|toWrite| - 1], toWrite := toWrite[..|toWrite| - 1]));
      } else {
        Kept2(book, Where(), abs);
      }
    }

    /** Lines 107-109. */
    method Shrink()
      requires Valid()
      modifies this`toWrite, this`abs
      ensures Valid() && abs == Spec.ShrinkStep(old(abs))
      ensures |toWrite| == if |old(toWrite)| > 2 then 2 else |old(toWrite)|
    {
      hide WriteFile.WasGiven, Faithful, Layout;
      SameLayout(book, Where(), abs, abs);
      if |toWrite| > 2 {
        ShorterLayout(book, Where(), abs, 2);
        SameLayout(book, Where().(toWrite := toWrite[..2]), abs.(toWrite := abs.toWrite[..2]), Spec.ShrinkStep(abs));
        toWrite := toWrite[..2];
      }
      abs := Spec.ShrinkStep(abs);
    }

    /** Line 122. */
    method Clear()
      requires Valid()
      modifies this`toWrite, this`pc, this`abs
      ensures Valid() && abs == Spec.ClearStep(old(abs))
    {
      hide WriteFile.WasGiven, Faithful, Layout;
      ShorterLayout(book, Where(), abs, 0);
      SameLayout(book, Where().(toWrite := []), abs.(toWrite := []), Spec.ClearStep(abs));
      toWrite, pc, abs := [], Spec.AtHead, Spec.ClearStep(abs);
    }

    /** Lines 107-122. */
    method Recycle()
      requires Valid() && pc.Writing? && pc.next >= |toWrite|
      requires new1 == null ==> |toWrite| > 0
      requires new2 == null ==> |toWrite| > if new1 == null then 1 else 0
      modifies this, book.content.Keys
      ensures Valid() && book.content.Keys == old(book.content.Keys) && owner == old(owner)
      ensures abs == Spec.RecycleStep(old(abs))
    {
      hide WriteFile.WasGiven, Faithful, Layout, Spec.ShrinkStep, Spec.Reuse1Step, Spec.Reuse2Step, Spec.ClearStep;
      Shrink();
      Reuse1();
      Reuse2();
      Clear();
    }

    /** One turn of one thread; a thread that is not at that line stays where it is. */
    method Turn(e: Spec.Event, grants: Grants)
      requires Valid() && Spec.Ownership(capacity, abs)
      requires e.Append? ==> |e.msg| <= INT_MAX
      modifies this, file, book.content.Keys, owner.Keys
      ensures Valid()
      ensures forall b :: b in book.content ==> b in old(book.content) || fresh(b)
      ensures forall d :: d in owner ==> d in old(owner) || fresh(d)
      ensures abs == Spec.Step(capacity, old(abs), e)
      ensures file.lines == old(file.lines) + Written(old(abs), e)
      ensures file.accepted == old(file.accepted) + Kept(old(abs), e, grants)
    {
      hide WriteFile.WasGiven, Faithful, Layout, Spec.AppendStep, Spec.CollectStep, Spec.TrimStep, Spec.WriteStep, Spec.RecycleStep;
      SameLayout(book, Where(), abs, abs);
      match e
      case Append(m) => Append(m);
      case Stop => Stop();
      case Head => if pc == Spec.AtHead { Head(); }
      case Lock => if pc == Spec.AtLock { Lock(); }
      case Wake => if pc == Spec.Waiting { Wake(); }
      case Trim => if pc == Spec.AtTrim { Trim(); }
      case Write => if pc.Writing? && pc.next < |toWrite| { Write(grants); }
      case Recycle => if pc.Writing? && pc.next >= |toWrite| { Recycle(); }
    }
  }

  // ---------- What reaches the disk ----------

  /** The text that this turn passes to the file, if it is one that writes. */
  function Written(s: Spec.State, e: Spec.Event): seq<string> {
    if e.Write? && Spec.Enabled(s, e) then [Flatten(s.toWrite[s.pc.next])] else []
  }

  ghost function Kept(s: Spec.State, e: Spec.Event, grants: Grants): seq<string> {
    if e.Write? && Spec.Enabled(s, e) then [Accepted(Flatten(s.toWrite[s.pc.next]), grants)] else []
  }

  function Passed(capacity: nat, events: seq<Spec.Event>): seq<string> {
    if events == [] then [] else
    var before := events[..|events| - 1];
    Passed(capacity, before) + Written(Spec.Exec(capacity, Spec.Init(), before), events[|events| - 1])
  }

  /** What is left of it on a disk that behaves as `disk(i)` in the i-th turn. */
  ghost function OnDisk(capacity: nat, events: seq<Spec.Event>, disk: nat -> Grants): seq<string> {
    if events == [] then [] else
    var before := events[..|events| - 1];
    OnDisk(capacity, before, disk) + Kept(Spec.Exec(capacity, Spec.Init(), before), events[|events| - 1], disk(|before|))
  }

  /** The i-th turn writes a buffer, and the disk stalls on it. */
  ghost predicate StallsIn(capacity: nat, events: seq<Spec.Event>, disk: nat -> Grants, i: nat) {
    && i < |events| && events[i].Write?
    && var s := Spec.Exec(capacity, Spec.Init(), events[..i]);
       Spec.Enabled(s, Spec.Write) && Stalls(|Flatten(s.toWrite[s.pc.next])|, disk(i))
  }

  /** Nothing is missing exactly if no disk stalls on a buffer it is given. */
  lemma {:induction false} CompleteIff(capacity: nat, events: seq<Spec.Event>, disk: nat -> Grants)
    ensures |OnDisk(capacity, events, disk)| == |Passed(capacity, events)|
    ensures OnDisk(capacity, events, disk) == Passed(capacity, events) <==>
            forall i: nat :: !StallsIn(capacity, events, disk, i)
  {
    hide Spec.Exec, Spec.Enabled, Stalls, Accepted;
    if events != [] {
      var n, before := |events| - 1, events[..|events| - 1];
      CompleteIff(capacity, before, disk);
      assert forall i: nat :: i <= n ==> before[..i] == events[..i];
      assert forall i: nat :: i < n ==> (StallsIn(capacity, events, disk, i) <==> StallsIn(capacity, before, disk, i));
      var s := Spec.Exec(capacity, Spec.Init(), before);
      assert Kept(s, events[n], disk(n)) == Written(s, events[n]) <==> !StallsIn(capacity, events, disk, n);
      SameTail(OnDisk(capacity, before, disk), Passed(capacity, before), Kept(s, events[n], disk(n)), Written(s, events[n]));
      assert forall i: nat :: StallsIn(capacity, events, disk, i) ==> i <= n;
    }
  }

  lemma SameTail<T>(a: seq<T>, b: seq<T>, x: seq<T>, y: seq<T>)
    requires |a| == |b| && |x| == |y|
    ensures a + x == b + y <==> a == b && x == y
  {
    if a + x == b + y {
      assert (a + x)[..|a|] == a && (b + y)[..|a|] == b;
      assert (a + x)[|a|..] == x && (b + y)[|a|..] == y;
    }
  }

  /**
    Any interleaving of producers and consumer, played on the objects: the logger
    follows the specification, and what was passed to fwrite is the surviving messages,
    in order. What is in the file of each buffer is what the disk accepted of it, and
    nothing is missing exactly if no disk stalls on a buffer it is given.
   */
  method Play(capacity: nat, events: seq<Spec.Event>, disk: nat -> Grants) returns (log: AsyncLogging)
    requires 0 < capacity <= INT_MAX
    requires forall i :: 0 <= i < |events| && events[i].Append? ==> |events[i].msg| <= INT_MAX
    ensures log.Valid() && log.abs == Spec.Exec(capacity, Spec.Init(), events)
    ensures log.file.contents == Flatten(log.file.accepted)
    ensures log.file.lines == Passed(capacity, events) && log.file.accepted == OnDisk(capacity, events, disk)
    ensures Flatten(log.file.lines) + Flatten(Spec.Unwritten(log.abs)) == Flatten(Spec.Surviving(log.abs.collected))
    ensures log.file.accepted == log.file.lines <==> forall i: nat :: !StallsIn(capacity, events, disk, i)
  {
    hide AsyncLogging.Valid, Spec.Inv, Spec.Step, Written, Kept;
    log := new AsyncLogging(capacity);
    for i := 0 to |events|
      invariant log.Valid() && log.capacity == capacity && fresh(log) && fresh(log.file)
      invariant forall b :: b in log.book.content ==> fresh(b)
      invariant forall d :: d in log.owner ==> fresh(d)
      invariant log.abs == Spec.Exec(capacity, Spec.Init(), events[..i])
      invariant log.file.lines == Passed(capacity, events[..i])
      invariant log.file.accepted == OnDisk(capacity, events[..i], disk)
    {
      var s := Spec.Reached(capacity, events[..i]);
      Owned(capacity, s);
      log.Turn(events[i], disk(i));
      assert events[..i + 1][..i] == events[..i];
    }
    assert events[..|events|] == events;
    Recorded(log);
    Spec.Conservation(capacity, events);
    FlattenConcat(log.abs.file, Spec.Unwritten(log.abs));
    CompleteIff(capacity, events, disk);
  }

  lemma Owned(capacity: nat, s: Spec.State)
    requires Spec.Inv(capacity, s)
    ensures Spec.Ownership(capacity, s)
  {
  }

  lemma Recorded(log: AsyncLogging)
    requires log.Valid()
    ensures log.file.Valid() && Flatten(log.file.lines) == Flatten(log.abs.file)
  {
  }
}

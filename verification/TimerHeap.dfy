/**
  The timer queue of version 1.0: a binary heap of timer nodes in an array used
  from index 1, ordered by deadline, with hand-written sift loops. Line numbers are
  those of version1.0/heap.cpp.
 */
module TimerHeap {

  const HEAPSIZE := 1024

  class HttpRequest {
    var timer: TimeNode?
    constructor ()
      ensures timer == null
    {
      timer := null;
    }
  }

  class TimeNode {
    const key: nat
    const request: HttpRequest
    const handler: bool  // whether there is one to call
    var deleted: bool

    constructor (key: nat, request: HttpRequest, handler: bool)
      ensures this.key == key && this.request == request && this.handler == handler && !deleted
    {
      this.key, this.request, this.handler, deleted := key, request, handler, false;
    }
  }

  // ---------- The array as a heap ----------

  predicate Filled(h: seq<TimeNode?>, n: nat) {
    n < |h| && forall i :: 1 <= i <= n ==> h[i] != null
  }

  /** Every parent is due no later than its children, `hole` excepted as a child. */
  predicate OrderedExceptAbove(h: seq<TimeNode?>, n: nat, hole: nat)
    requires Filled(h, n)
  {
    && (forall j :: 2 <= j <= n && j != hole ==> h[j / 2].key <= h[j].key)
    && (forall j :: 2 <= j <= n && j / 2 == hole && hole >= 2 ==> h[hole / 2].key <= h[j].key)
  }

  /** The same, `hole` excepted as a parent. */
  predicate OrderedExceptBelow(h: seq<TimeNode?>, n: nat, hole: nat)
    requires Filled(h, n)
  {
    && (forall j :: 2 <= j <= n && j / 2 != hole ==> h[j / 2].key <= h[j].key)
    && (forall j :: 2 <= j <= n && j / 2 == hole && hole >= 2 ==> h[hole / 2].key <= h[j].key)
  }

  predicate Ordered(h: seq<TimeNode?>, n: nat)
    requires Filled(h, n)
  {
    forall j :: 2 <= j <= n ==> h[j / 2].key <= h[j].key
  }

  /** The nodes of the heap, as often as they are in it. */
  function Bag(h: seq<TimeNode?>, n: nat): multiset<TimeNode?>
    requires n < |h|
  {
    multiset(h[1..n + 1])
  }

  /** In an ordered heap nothing is due before the root. */
  lemma {:induction false} RootIsLeast(h: seq<TimeNode?>, n: nat, i: nat)
    requires Filled(h, n) && Ordered(h, n) && 1 <= i <= n
    ensures h[1].key <= h[i].key
  {
    if i > 1 {
      RootIsLeast(h, n, i / 2);
    }
  }

  lemma BagMember(h: seq<TimeNode?>, n: nat, x: TimeNode?)
    requires n < |h|
    ensures x in Bag(h, n) <==> exists i :: 1 <= i <= n && h[i] == x
  {
    assert x in Bag(h, n) <==> x in h[1..n + 1];
    if x in h[1..n + 1] {
      var k :| 0 <= k < n && h[1..n + 1][k] == x;
      assert h[k + 1] == x;
    }
    if i :| 1 <= i <= n && h[i] == x {
      assert h[1..n + 1][i - 1] == x;
    }
  }

  lemma SwapKeepsBag<T>(s: seq<T>, i: nat, j: nat)
    requires i < |s| && j < |s|
    ensures multiset(s[i := s[j]][j := s[i]]) == multiset(s)
  {
  }

  function Swapped(h: seq<TimeNode?>, i: nat, j: nat): seq<TimeNode?>
    requires i < |h| && j < |h|
  {
    h[i := h[j]][j := h[i]]
  }

  lemma SwappedBag(h: seq<TimeNode?>, n: nat, i: nat, j: nat)
    requires n < |h| && 1 <= i <= n && 1 <= j <= n
    ensures Bag(Swapped(h, i, j), n) == Bag(h, n)
  {
    var s := h[1..n + 1];
    SwapKeepsBag(s, i - 1, j - 1);
    assert Swapped(h, i, j)[1..n + 1] == s[i - 1 := s[j - 1]][j - 1 := s[i - 1]];
  }

  /** One turn of up(): the hole moves to its parent. */
  lemma UpStep(h: seq<TimeNode?>, n: nat, pos: nat)
    requires Filled(h, n) && 2 <= pos <= n
    requires OrderedExceptAbove(h, n, pos) && h[pos].key < h[pos / 2].key
    ensures Filled(Swapped(h, pos, pos / 2), n)
    ensures OrderedExceptAbove(Swapped(h, pos, pos / 2), n, pos / 2)
  {
    var p := pos / 2;
    var g := Swapped(h, pos, p);
    forall j | 2 <= j <= n && j != p
      ensures g[j / 2].key <= g[j].key
    {
      assert h[j] == h[j] && h[j / 2] == h[j / 2];
    }
    forall j | 2 <= j <= n && j / 2 == p && p >= 2
      ensures g[p / 2].key <= g[j].key
    {
      assert h[p / 2].key <= h[p].key;
      assert j == pos || h[p].key <= h[j].key;
    }
  }

  /** `child` is the child of `pos` that is due first. */
  predicate SmallerChild(h: seq<TimeNode?>, n: nat, pos: nat, child: nat)
    requires Filled(h, n)
  {
    && 1 <= pos && 2 <= child <= n && (child == 2 * pos || child == 2 * pos + 1)
    && h[child].key <= h[2 * pos].key
    && (2 * pos + 1 <= n ==> h[child].key <= h[2 * pos + 1].key)
  }

  lemma DownLeaf(h: seq<TimeNode?>, n: nat, pos: nat)
    requires Filled(h, n) && OrderedExceptBelow(h, n, pos) && pos * 2 > n
    ensures Ordered(h, n)
  {
  }

  lemma DownDone(h: seq<TimeNode?>, n: nat, pos: nat, child: nat)
    requires Filled(h, n) && SmallerChild(h, n, pos, child)
    requires OrderedExceptBelow(h, n, pos) && h[child].key >= h[pos].key
    ensures Ordered(h, n)
  {
    forall j | 2 <= j <= n
      ensures h[j / 2].key <= h[j].key
    {
      assert j / 2 == pos ==> j == 2 * pos || j == 2 * pos + 1;
    }
  }

  /** One turn of down(): the hole moves to its smaller child. */
  lemma DownStep(h: seq<TimeNode?>, n: nat, pos: nat, child: nat)
    requires Filled(h, n) && SmallerChild(h, n, pos, child)
    requires OrderedExceptBelow(h, n, pos) && h[child].key < h[pos].key
    ensures Filled(Swapped(h, child, pos), n)
    ensures OrderedExceptBelow(Swapped(h, child, pos), n, child)
  {
    var g := Swapped(h, child, pos);
    forall j | 2 <= j <= n && j / 2 != child
      ensures g[j / 2].key <= g[j].key
    {
      if j / 2 == pos {
        assert j == 2 * pos || j == 2 * pos + 1;
      } else if j == pos {
        assert h[pos / 2].key <= h[child].key;
      } else {
        assert h[j / 2].key <= h[j].key;
      }
    }
    forall j | 2 <= j <= n && j / 2 == child
      ensures g[child / 2].key <= g[j].key
    {
      assert h[j / 2].key <= h[j].key;
    }
  }

  class PriorityQueue {
    const heap: array<TimeNode?>
    var size: nat

    ghost predicate Valid()
      reads this, heap
    {
      heap.Length == HEAPSIZE && Filled(heap[..], size) && Ordered(heap[..], size)
    }

    /** The nodes in the queue. */
    ghost function Nodes(): multiset<TimeNode?>
      reads this, heap
      requires size < heap.Length
    {
      Bag(heap[..], size)
    }

    constructor ()
      ensures Valid() && fresh(heap) && heap.Length == 1024 && size == 0 && Nodes() == multiset{}
    {
      heap := new TimeNode?[HEAPSIZE];
      size := 0;
    }

    /** Whether there is a node to wait for. */
    method IsEmpty() returns (r: bool)
      requires size < heap.Length
      ensures r <==> Nodes() == multiset{}
      ensures r <==> size == 0
    {
      assert size > 0 ==> heap[..][1..size + 1][0] in Nodes();
      r := size == 0;
    }

    /** Lines 28-37. */
    method Up(start: nat)
      requires Filled(heap[..], size) && 1 <= start <= size
      requires OrderedExceptAbove(heap[..], size, start)
      modifies heap
      ensures Filled(heap[..], size) && Ordered(heap[..], size)
      ensures Nodes() == old(Nodes())
    {
      var pos := start;
      while pos > 1
        invariant 1 <= pos <= size && Filled(heap[..], size)
        invariant OrderedExceptAbove(heap[..], size, pos)
        invariant Nodes() == old(Nodes())
      {
        if heap[pos].key < heap[pos / 2].key {
          ghost var h := heap[..];
          heap[pos], heap[pos / 2] := heap[pos / 2], heap[pos];
          assert heap[..] == Swapped(h, pos, pos / 2);
          UpStep(h, size, pos);
          SwappedBag(h, size, pos, pos / 2);
          pos := pos / 2;
        } else {
          break;
        }
      }
    }

    /** Lines 43-56. */
    method Down(start: nat)
      requires Filled(heap[..], size) && 1 <= start
      requires OrderedExceptBelow(heap[..], size, start)
      modifies heap
      ensures Filled(heap[..], size) && Ordered(heap[..], size)
      ensures Nodes() == old(Nodes())
    {
      var pos := start;
      var left := pos * 2;
      hide Ordered, OrderedExceptBelow, Bag;
      while left <= size
        invariant 1 <= pos && left == pos * 2 && Filled(heap[..], size)
        invariant OrderedExceptBelow(heap[..], size, pos)
        invariant Nodes() == old(Nodes())
      {
        if left < size && heap[left].key > heap[left + 1].key {
          left := left + 1;
        }
        ghost var h := heap[..];
        assert SmallerChild(h, size, pos, left);
        if heap[left].key < heap[pos].key {
          heap[left], heap[pos] := heap[pos], heap[left];
          assert heap[..] == Swapped(h, left, pos);
          DownStep(h, size, pos, left);
          SwappedBag(h, size, left, pos);
          pos := left;
          left := pos * 2;
        } else {
          DownDone(h, size, pos, left);
          return;
        }
      }
      DownLeaf(heap[..], size, pos);
    }

    /** There is no capacity check: only indices 1 to 1023 exist. */
    method Insert(node: TimeNode)
      requires Valid() && size < HEAPSIZE - 1
      modifies this, heap
      ensures Valid() && size == old(size) + 1
      ensures Nodes() == old(Nodes()) + multiset{node}
    {
      hide Ordered, OrderedExceptAbove, Bag;
      ghost var h := heap[..];
      size := size + 1;
      heap[size] := node;
      assert heap[..] == h[size := node];
      Added(h, size, node);
      Up(size);
    }

    method Front() returns (node: TimeNode)
      requires Valid() && size > 0
      ensures node == heap[1] && node in Nodes()
      ensures forall n :: n in Nodes() ==> n != null && node.key <= n.key
    {
      node := heap[1];
      BagMember(heap[..], size, node);
      forall n | n in Nodes()
        ensures n != null && node.key <= n.key
      {
        BagMember(heap[..], size, n);
        var i :| 1 <= i <= size && heap[..][i] == n;
        RootIsLeast(heap[..], size, i);
      }
    }

    method Pop()
      requires Valid() && size > 0
      modifies this, heap
      ensures Valid() && size == old(size) - 1
      ensures Nodes() == old(Nodes()) - multiset{old(heap[1])}
    {
      hide Ordered, OrderedExceptBelow, Bag;
      ghost var h, n := heap[..], size;
      heap[1] := heap[size];
      size := size - 1;
      assert heap[..] == h[1 := h[n]];
      PoppedBag(h, n);
      PoppedOrder(h, n);
      Down(1);
    }
  }

  lemma Added(h: seq<TimeNode?>, n: nat, node: TimeNode)
    requires 1 <= n < |h| && Filled(h, n - 1) && Ordered(h, n - 1)
    ensures var g := h[n := node];
            Filled(g, n) && OrderedExceptAbove(g, n, n) && Bag(g, n) == Bag(h, n - 1) + multiset{node}
  {
    assert h[n := node][1..n + 1] == h[1..n] + [node];
  }

  lemma PoppedOrder(h: seq<TimeNode?>, n: nat)
    requires 1 <= n && Filled(h, n) && Ordered(h, n)
    ensures var g := h[1 := h[n]]; Filled(g, n - 1) && OrderedExceptBelow(g, n - 1, 1)
  {
    var g := h[1 := h[n]];
    forall j | 2 <= j <= n - 1 && j / 2 != 1
      ensures g[j / 2].key <= g[j].key
    {
    }
  }

  lemma PoppedBag(h: seq<TimeNode?>, n: nat)
    requires 1 <= n < |h|
    ensures Bag(h[1 := h[n]], n - 1) == Bag(h, n) - multiset{h[1]}
  {
    var s := h[1..n + 1];
    assert s == [h[1]] + h[2..n + 1];
    assert h[1 := h[n]][1..n] == if n == 1 then [] else [h[n]] + h[2..n];
    if n > 1 {
      assert h[2..n + 1] == h[2..n] + [h[n]];
    }
  }
}

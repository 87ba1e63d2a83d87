/** The binary heap behind the slot manager's waiting list.

    `app/agent_slots.py` keeps its waiters in a Python list that the standard `heapq` functions
    order by (priority, sequence).  This module gives those functions on sequences and proves the
    contract the slot manager relies on: the same elements, and the least one at the root.
 */
module HeapQ {

  /** A heap element; the ticket itself takes no part in the comparison. */
  datatype Entry = Entry(priority: real, sequence: nat)

  /** Tuple order: smaller priority first, then earlier arrival. */
  predicate Before(a: Entry, b: Entry) {
    a.priority < b.priority || (a.priority == b.priority && a.sequence < b.sequence)
  }

  function Parent(i: nat): nat
    requires 0 < i
  {
    (i - 1) / 2
  }

  ghost predicate Ordered(h: seq<Entry>, i: nat)
    requires 0 < i < |h|
  {
    !Before(h[i], h[Parent(i)])
  }

  ghost predicate IsHeap(h: seq<Entry>) {
    forall i: nat :: 0 < i < |h| ==> Ordered(h, i)
  }

  /** Sifting up: only the element at `hole` may precede its parent. */
  ghost predicate HeapAbove(h: seq<Entry>, hole: nat) {
    && (forall i: nat :: 0 < i < |h| && i != hole ==> Ordered(h, i))
    && (forall i: nat :: 0 < i < |h| && Parent(i) == hole && 0 < hole < |h| ==> !Before(h[i], h[Parent(hole)]))
  }

  /** Sifting down from `top`: in order below `top`, except that `hole` may follow its children. */
  ghost predicate HeapBelow(h: seq<Entry>, top: nat, hole: nat) {
    && (forall i: nat :: 0 < i < |h| && top <= Parent(i) && Parent(i) != hole ==> Ordered(h, i))
    && (forall i: nat :: 0 < i < |h| && Parent(i) == hole && top < hole < |h| ==>
          top <= Parent(hole) && !Before(h[i], h[Parent(hole)]))
  }

  /** The root of a heap precedes or equals every other element. */
  lemma {:induction false} RootIsLeast(h: seq<Entry>, i: nat)
    requires IsHeap(h) && i < |h|
    ensures !Before(h[i], h[0])
    ensures h[0].priority <= h[i].priority && (h[0].priority == h[i].priority ==> h[0].sequence <= h[i].sequence)
  {
    if i > 0 {
      RootIsLeast(h, Parent(i));
      assert Ordered(h, i);
    }
  }

  function Swap(h: seq<Entry>, i: nat, j: nat): (r: seq<Entry>)
    requires i < |h| && j < |h|
    ensures |r| == |h| && multiset(r) == multiset(h)
  {
    h[i := h[j]][j := h[i]]
  }

  lemma SwapUp(h: seq<Entry>, i: nat)
    requires 0 < i < |h| && HeapAbove(h, i) && !Ordered(h, i)
    ensures HeapAbove(Swap(h, i, Parent(i)), Parent(i))
  {
    var r := Swap(h, i, Parent(i));
    forall k: nat | 0 < k < |r| && k != Parent(i) ensures Ordered(r, k) {
      if k != i {
        assert Ordered(h, k);
        if Parent(k) == i { assert !Before(h[k], h[Parent(i)]); }
      }
    }
    forall k: nat | 0 < k < |r| && Parent(k) == Parent(i) && 0 < Parent(i)
      ensures !Before(r[k], r[Parent(Parent(i))])
    {
      assert Ordered(h, Parent(i));
      if k != i { assert Ordered(h, k); }
    }
  }

  lemma SwapDown(h: seq<Entry>, top: nat, i: nat, child: nat)
    requires top <= i < child < |h| && Parent(child) == i && HeapBelow(h, top, i) && !Ordered(h, child)
    requires i == top || top <= Parent(i)
    requires forall k: nat :: 0 < k < |h| && Parent(k) == i ==> !Before(h[k], h[child])
    ensures HeapBelow(Swap(h, i, child), top, child)
  {
    var r := Swap(h, i, child);
    forall k: nat | 0 < k < |r| && top <= Parent(k) && Parent(k) != child ensures Ordered(r, k) {
      if k == i {
        assert !Before(h[child], h[Parent(i)]);
      } else if Parent(k) != i {
        assert Ordered(h, k);
      }
    }
    forall k: nat | 0 < k < |r| && Parent(k) == child ensures !Before(r[k], r[i]) {
      assert Ordered(h, k);
    }
  }

  /** heapq.heappush. */
  method HeapPush(h: seq<Entry>, x: Entry) returns (r: seq<Entry>)
    requires IsHeap(h)
    ensures IsHeap(r) && multiset(r) == multiset(h) + multiset{x}
  {
    r := h + [x];
    var i: nat := |h|;
    assert forall k: nat :: 0 < k < |h| ==> Ordered(h, k) ==> Ordered(r, k);
    while i > 0 && Before(r[i], r[Parent(i)])
      invariant i < |r|
      invariant multiset(r) == multiset(h) + multiset{x}
      invariant HeapAbove(r, i)
    {
      SwapUp(r, i);
      r, i := Swap(r, i, Parent(i)), Parent(i);
    }
  }

  /** Moves the element at `top` down until both children follow it. */
  method SiftDown(h: seq<Entry>, top: nat) returns (r: seq<Entry>)
    requires top < |h| && HeapBelow(h, top, top)
    ensures HeapBelow(r, top, |r|) && multiset(r) == multiset(h) && |r| == |h|
  {
    r := h;
    var i := top;
    while 2 * i + 1 < |r|
      invariant top <= i < |r| == |h| && multiset(r) == multiset(h)
      invariant i == top || top <= Parent(i)
      invariant HeapBelow(r, top, i)
      decreases |r| - i
    {
      var child := 2 * i + 1;
      if child + 1 < |r| && Before(r[child + 1], r[child]) {
        child := child + 1;
      }
      if !Before(r[child], r[i]) {
        return;
      }
      SwapDown(r, top, i, child);
      r, i := Swap(r, i, child), child;
    }
  }

  lemma Settled(h: seq<Entry>)
    requires HeapBelow(h, 0, |h|)
    ensures IsHeap(h)
  {
    forall k: nat | 0 < k < |h| ensures Ordered(h, k) {
      assert 0 <= Parent(k) < |h|;
    }
  }

  /** heapq.heappop on a non-empty heap. */
  method HeapPop(h: seq<Entry>) returns (least: Entry, rest: seq<Entry>)
    requires IsHeap(h) && |h| > 0
    ensures IsHeap(rest) && multiset(h) == multiset(rest) + multiset{least}
    ensures forall e :: e in rest ==> !Before(e, least)
  {
    least := h[0];
    var last := h[|h| - 1];
    assert h == h[..|h| - 1] + [last];
    if |h| == 1 {
      rest := [];
    } else {
      assert h[..|h| - 1] == [least] + h[1..|h| - 1];
      var moved := [last] + h[1..|h| - 1];
      assert HeapBelow(moved, 0, 0) by {
        forall i: nat | 0 < i < |moved| && Parent(i) != 0 ensures Ordered(moved, i) {
          assert Ordered(h, i);
        }
      }
      rest := SiftDown(moved, 0);
      Settled(rest);
    }
    forall e | e in rest ensures !Before(e, least) {
      assert e in multiset(h);
      var i :| 0 <= i < |h| && h[i] == e;
      RootIsLeast(h, i);
    }
  }

  /** heapq.heapify: works for every list, so it repairs the order after any removal. */
  method Heapify(h: seq<Entry>) returns (r: seq<Entry>)
    ensures IsHeap(r) && multiset(r) == multiset(h)
  {
    r := h;
    var i: nat := |h| / 2;
    while i > 0
      invariant i <= |h| / 2 && |r| == |h| && multiset(r) == multiset(h)
      invariant HeapBelow(r, i, |r|)
    {
      i := i - 1;
      assert HeapBelow(r, i, i) by {
        forall k: nat | 0 < k < |r| && i <= Parent(k) && Parent(k) != i ensures Ordered(r, k) {
          assert i + 1 <= Parent(k);
        }
      }
      r := SiftDown(r, i);
    }
    Settled(r);
  }
}

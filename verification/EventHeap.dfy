/**
 The reorder buffer of the watermark processor: a binary min-heap in a slice, kept by the sift-up and sift-down of
 Go's container/heap. `Pending` ties it to the sorted list it stands for.
 */
module EventHeaps {
  import opened MarketTypes
  import opened StableSort

  datatype Queued = Queued(event: Event, sequence: nat)

  /** Heap priority: the earlier timestamp first, the earlier arrival among equals. */
  predicate Before(a: Queued, b: Queued) {
    a.event.timestamp < b.event.timestamp || (a.event.timestamp == b.event.timestamp && a.sequence < b.sequence)
  }

  // ----- the tree in the slice -----

  /** Go's `(j - 1) / 2`, which truncates to 0 at the root. */
  function Parent(j: nat): (i: nat)
    ensures 0 < j ==> i < j
  {
    if j == 0 then 0 else (j - 1) / 2
  }

  predicate InOrder(items: seq<Queued>, k: nat)
    requires k < |items|
  {
    !Before(items[k], items[Parent(k)])
  }

  /** `k` is in order with its grandparent, if it has one, so it would be if its parent left. */
  predicate SkipsOrder(items: seq<Queued>, k: nat)
    requires k < |items|
  {
    Parent(k) == 0 || !Before(items[k], items[Parent(Parent(k))])
  }

  /** The first `n` items form a heap. */
  ghost predicate HeapTo(items: seq<Queued>, n: nat)
    requires n <= |items|
  {
    forall k: nat :: k < n ==> InOrder(items, k)
  }

  /** A heap but for item `j`, which may be too small for its place. */
  ghost predicate HeapUpTo(items: seq<Queued>, j: nat) {
    && j < |items|
    && (forall k: nat :: k < |items| && k != j ==> InOrder(items, k))
    && (forall k: nat :: k < |items| && Parent(k) == j ==> SkipsOrder(items, k))
  }

  /** A heap but for item `i`, which may be too large for its place. */
  ghost predicate HeapDownTo(items: seq<Queued>, i: nat, n: nat) {
    && n <= |items|
    && (forall k: nat :: k < n && Parent(k) != i ==> InOrder(items, k))
    && (forall k: nat :: k < n && Parent(k) == i ==> SkipsOrder(items, k))
  }

  function Swapped(items: seq<Queued>, i: nat, j: nat): seq<Queued>
    requires i < |items| && j < |items|
  {
    items[i := items[j]][j := items[i]]
  }

  lemma SwapPermutes(items: seq<Queued>, i: nat, j: nat)
    requires i < |items| && j < |items|
    ensures multiset(Swapped(items, i, j)) == multiset(items)
  {
  }

  /** Sifting up: swapping a small item with its parent moves the defect to the parent's place. */
  lemma UpStep(items: seq<Queued>, j: nat)
    requires HeapUpTo(items, j) && 0 < j && Before(items[j], items[Parent(j)])
    ensures HeapUpTo(Swapped(items, Parent(j), j), Parent(j))
  {
    var i := Parent(j);
    var next := Swapped(items, i, j);
    forall k: nat | k < |next| && k != i ensures InOrder(next, k) {
      assert k != j ==> InOrder(items, k);
      assert Parent(k) == j ==> SkipsOrder(items, k);
    }
    forall k: nat | k < |next| && Parent(k) == i ensures SkipsOrder(next, k) {
      assert i != j ==> InOrder(items, i);
      assert k != j ==> InOrder(items, k);
    }
  }

  lemma UpDone(items: seq<Queued>, j: nat)
    requires HeapUpTo(items, j) && !Before(items[j], items[Parent(j)])
    ensures HeapTo(items, |items|)
  {
    assert InOrder(items, j);
  }

  /** The smaller of a node's children among the first `n` items, as sift-down picks it. */
  predicate SmallestChild(items: seq<Queued>, i: nat, j: nat, n: nat) {
    && j < n <= |items| && 0 < j && Parent(j) == i
    && forall k: nat :: 0 < k < n && Parent(k) == i ==> !Before(items[k], items[j])
  }

  lemma DownStep(items: seq<Queued>, i: nat, j: nat, n: nat)
    requires HeapDownTo(items, i, n) && SmallestChild(items, i, j, n) && Before(items[j], items[i])
    ensures HeapDownTo(Swapped(items, i, j), j, n)
  {
    var next := Swapped(items, i, j);
    assert SkipsOrder(items, j);
    forall k: nat | k < n && Parent(k) != j ensures InOrder(next, k) {
      assert Parent(k) != i ==> InOrder(items, k);
      assert Parent(k) == i ==> SkipsOrder(items, k);
    }
    forall k: nat | k < n && Parent(k) == j ensures SkipsOrder(next, k) {
      assert InOrder(items, k);
    }
  }

  lemma DownDone(items: seq<Queued>, i: nat, n: nat)
    requires HeapDownTo(items, i, n)
    requires forall k: nat :: 0 < k < n && Parent(k) == i ==> !Before(items[k], items[i])
    ensures HeapTo(items, n)
  {
    forall k: nat | k < n ensures InOrder(items, k) {
      assert Parent(k) != i ==> InOrder(items, k);
    }
  }

  lemma Children(i: nat, k: nat)
    ensures 0 < k && Parent(k) == i <==> k == 2 * i + 1 || k == 2 * i + 2
  {
  }

  lemma {:induction false} RootIsLeast(items: seq<Queued>, n: nat, k: nat)
    requires n <= |items| && HeapTo(items, n) && k < n
    ensures !Before(items[k], items[0])
  {
    if 0 < k {
      RootIsLeast(items, n, Parent(k));
      assert InOrder(items, k);
    }
  }

  // ----- the sorted list a heap stands for -----

  predicate Ascending(pending: seq<Queued>) {
    |pending| <= 1 || (Before(pending[0], pending[1]) && Ascending(pending[1..]))
  }

  /** The heap holds exactly the items of the sorted list `pending`. */
  ghost predicate Stands(items: seq<Queued>, pending: seq<Queued>) {
    HeapTo(items, |items|) && multiset(items) == multiset(pending) && Ascending(pending)
  }

  lemma {:induction false} HeadBefore(pending: seq<Queued>, q: Queued)
    requires Ascending(pending) && q in pending
    ensures q == pending[0] || Before(pending[0], q)
  {
    if q != pending[0] {
      HeadBefore(pending[1..], q);
    }
  }

  lemma SameMembers(items: seq<Queued>, pending: seq<Queued>, q: Queued)
    requires multiset(items) == multiset(pending)
    ensures |items| == |pending| && (q in items <==> q in pending)
  {
    assert |multiset(items)| == |items| && |multiset(pending)| == |pending|;
    assert q in multiset(items) <==> q in items;
    assert q in multiset(pending) <==> q in pending;
  }

  /** The root of the heap is the head of the list. */
  lemma RootIsHead(items: seq<Queued>, pending: seq<Queued>)
    requires Stands(items, pending)
    ensures |items| == |pending| && (items != [] ==> items[0] == pending[0])
  {
    hide HeapTo;
    if items == [] {
      assert |multiset(items)| == |multiset(pending)|;
    } else {
      SameMembers(items, pending, items[0]);
      SameMembers(items, pending, pending[0]);
      var k :| 0 <= k < |items| && items[k] == pending[0];
      RootIsLeast(items, |items|, k);
      HeadBefore(pending, items[0]);
    }
  }

  lemma PopStands(items: seq<Queued>, pending: seq<Queued>, items': seq<Queued>)
    requires Stands(items, pending) && items != [] && HeapTo(items', |items'|)
    requires multiset(items') == multiset(items) - multiset{items[0]}
    ensures pending != [] && items[0] == pending[0] && Stands(items', pending[1..])
  {
    hide HeapTo;
    RootIsHead(items, pending);
    assert pending == [pending[0]] + pending[1..];
  }

  function TimeOf(q: Queued): int {
    q.event.timestamp
  }

  /** A newcomer goes behind everything with the same timestamp, which is what its larger sequence number says. */
  lemma {:induction false} InsertAscends(pending: seq<Queued>, q: Queued)
    requires Ascending(pending) && forall p :: p in pending ==> p.sequence < q.sequence
    ensures Ascending(InsertByKey(pending, TimeOf, q))
  {
    if pending == [] || TimeOf(q) < TimeOf(pending[0]) {
      assert ([q] + pending)[1..] == pending;
    } else {
      InsertAscends(pending[1..], q);
      var rest := InsertByKey(pending[1..], TimeOf, q);
      assert ([pending[0]] + rest)[1..] == rest;
      assert pending[0] in pending;
    }
  }

  lemma PushStands(items: seq<Queued>, pending: seq<Queued>, q: Queued, items': seq<Queued>)
    requires Stands(items, pending) && HeapTo(items', |items'|)
    requires multiset(items') == multiset(items) + multiset{q}
    requires forall p :: p in pending ==> p.sequence < q.sequence
    ensures Stands(items', InsertByKey(pending, TimeOf, q))
  {
    hide HeapTo;
    InsertAscends(pending, q);
    InsertFacts(pending, TimeOf, q);
  }

  // ----- the slice and container/heap -----

  datatype Peeked = Nothing | Root(event: Event)

  class EventHeap {
    var items: seq<Queued>

    constructor ()
      ensures items == []
    {
      items := [];
    }

    method Swap(i: nat, j: nat)
      requires i < |items| && j < |items|
      modifies this
      ensures items == Swapped(old(items), i, j)
    {
      items := items[i := items[j]][j := items[i]];
    }

    /** Append; the caller sifts. */
    method Push(value: Queued)
      modifies this
      ensures items == old(items) + [value]
    {
      items := items + [value];
    }

    /** Remove the last item; the caller has put the root there. */
    method Pop() returns (item: Queued)
      requires items != []
      modifies this
      ensures items == old(items)[..|old(items)| - 1] && item == old(items)[|old(items)| - 1]
    {
      var lastIndex := |items| - 1;
      item := items[lastIndex];
      items := items[..lastIndex];
    }

    method Peek() returns (root: Peeked)
      ensures root == if items == [] then Nothing else Root(items[0].event)
    {
      if |items| == 0 {
        return Nothing;
      }
      return Root(items[0].event);
    }

    /** `heap.Push`: append and sift up. */
    method HeapPush(value: Queued)
      requires HeapTo(items, |items|)
      modifies this
      ensures HeapTo(items, |items|) && multiset(items) == multiset(old(items)) + multiset{value}
    {
      hide Before;
      Appended(items, value);
      Push(value);
      SiftUp(|items| - 1);
    }

    method SiftUp(start: nat)
      requires HeapUpTo(items, start)
      modifies this
      ensures HeapTo(items, |items|) && multiset(items) == multiset(old(items))
    {
      hide HeapUpTo, HeapTo, Before;
      var j: nat := start;
      UpRange(items, j);
      while true
        invariant j < |items| && HeapUpTo(items, j) && multiset(items) == multiset(old(items))
        decreases j
      {
        var i := Parent(j);
        if i == j || !Before(items[j], items[i]) {
          break;
        }
        UpStep(items, j);
        SwapPermutes(items, i, j);
        Swap(i, j);
        UpRange(items, i);
        j := i;
      }
      RootInOrder(items, j);
      UpDone(items, j);
    }

    /** `heap.Pop`: swap the root to the end, sift down what took its place, and cut the end off. */
    method HeapPop() returns (root: Queued)
      requires items != [] && HeapTo(items, |items|)
      modifies this
      ensures root == old(items)[0]
      ensures HeapTo(items, |items|) && multiset(items) == multiset(old(items)) - multiset{root}
    {
      hide Before, HeapDownTo, HeapTo;
      var n := |items| - 1;
      SwapPermutes(items, 0, n);
      RootSwapped(items);
      Swap(0, n);
      SiftDown(0, n);
      CutEnd(items, n);
      root := Pop();
    }

    method SiftDown(start: nat, n: nat)
      requires n <= |items| && HeapDownTo(items, start, n)
      modifies this
      ensures |items| == |old(items)| && HeapTo(items, n) && multiset(items) == multiset(old(items))
      ensures items[n..] == old(items)[n..]
    {
      hide HeapDownTo, HeapTo, Before, SmallestChild;
      var i: nat := start;
      while true
        invariant |items| == |old(items)| && HeapDownTo(items, i, n) && multiset(items) == multiset(old(items))
        invariant items[n..] == old(items)[n..]
        decreases n - i
      {
        var j1 := 2 * i + 1;
        if j1 >= n {
          NoChild(items, i, n);
          break;
        }
        var j := j1;
        var j2 := j1 + 1;
        if j2 < n && Before(items[j2], items[j1]) {
          j := j2;
        }
        ChildPicked(items, i, j, n);
        if !Before(items[j], items[i]) {
          NoSmallerChild(items, i, j, n);
          break;
        }
        DownStep(items, i, j, n);
        SwapPermutes(items, i, j);
        Swap(i, j);
        i := j;
      }
      DownDone(items, i, n);
    }
  }

  // ----- the bookkeeping of the four loops -----

  lemma Appended(items: seq<Queued>, value: Queued)
    requires HeapTo(items, |items|)
    ensures HeapUpTo(items + [value], |items|) && multiset(items + [value]) == multiset(items) + multiset{value}
  {
    var next := items + [value];
    forall k: nat | k < |next| && k != |items| ensures InOrder(next, k) {
      assert InOrder(items, k);
    }
  }

  lemma UpRange(items: seq<Queued>, j: nat)
    requires HeapUpTo(items, j)
    ensures j < |items|
  {
  }

  lemma RootInOrder(items: seq<Queued>, j: nat)
    requires j < |items| && (Parent(j) == j || !Before(items[j], items[Parent(j)]))
    ensures !Before(items[j], items[Parent(j)])
  {
  }

  lemma RootSwapped(items: seq<Queued>)
    requires items != [] && HeapTo(items, |items|)
    ensures HeapDownTo(Swapped(items, 0, |items| - 1), 0, |items| - 1)
  {
    var n := |items| - 1;
    var next := Swapped(items, 0, n);
    forall k: nat | k < n && Parent(k) != 0 ensures InOrder(next, k) {
      assert InOrder(items, k);
    }
  }

  lemma CutEnd(items: seq<Queued>, n: nat)
    requires n + 1 == |items| && HeapTo(items, n)
    ensures HeapTo(items[..n], |items[..n]|) && multiset(items[..n]) == multiset(items) - multiset{items[n]}
  {
    forall k: nat | k < n ensures InOrder(items[..n], k) {
      assert InOrder(items, k);
    }
    assert items == items[..n] + [items[n]];
  }

  lemma NoChild(items: seq<Queued>, i: nat, n: nat)
    requires n <= |items| && n <= 2 * i + 1
    ensures forall k: nat :: 0 < k < n && Parent(k) == i ==> !Before(items[k], items[i])
  {
    forall k: nat ensures 0 < k && Parent(k) == i ==> n <= k {
      Children(i, k);
    }
  }

  lemma ChildPicked(items: seq<Queued>, i: nat, j: nat, n: nat)
    requires n <= |items| && 2 * i + 1 < n
    requires j == if 2 * i + 2 < n && Before(items[2 * i + 2], items[2 * i + 1]) then 2 * i + 2 else 2 * i + 1
    ensures SmallestChild(items, i, j, n) && i < j
  {
    Children(i, j);
    forall k: nat | 0 < k < n && Parent(k) == i ensures !Before(items[k], items[j]) {
      Children(i, k);
    }
  }

  lemma NoSmallerChild(items: seq<Queued>, i: nat, j: nat, n: nat)
    requires SmallestChild(items, i, j, n) && i < |items| && !Before(items[j], items[i])
    ensures forall k: nat :: 0 < k < n && Parent(k) == i ==> !Before(items[k], items[i])
  {
  }
}

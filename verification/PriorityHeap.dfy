/** A binary heap of priority items, kept in a list as Python's heapq keeps it. */
module PriorityHeap {
  import opened Ports

  datatype PriorityItem = PriorityItem(priority: nat, createdAt: real, task: Task, visibleAt: real)

  /** Ordered by priority, then by creation time; the other fields do not take part. */
  predicate Less(a: PriorityItem, b: PriorityItem) {
    a.priority < b.priority || (a.priority == b.priority && a.createdAt < b.createdAt)
  }

  ghost predicate IsHeap(h: seq<PriorityItem>) {
    HeapExceptAt(h, -1)
  }

  function Parent(k: int): int {
    (k - 1) / 2
  }

  /** Every link of the heap is in order, apart from the one above position `hole`. */
  ghost predicate HeapExceptAt(h: seq<PriorityItem>, hole: int) {
    forall k | 0 < k < |h| && k != hole :: !Less(h[k], h[Parent(k)])
  }

  /** Every link is in order, apart from those directly below `hole`. */
  ghost predicate HeapExceptBelow(h: seq<PriorityItem>, hole: int) {
    && (forall k | 0 < k < |h| && Parent(k) != hole :: !Less(h[k], h[Parent(k)]))
  }

  /** Children of `hole` are in order with the parent of `hole`. */
  ghost predicate Bridged(h: seq<PriorityItem>, hole: int) {
    0 < hole ==> forall k | 0 < k < |h| && Parent(k) == hole && Parent(hole) < |h| :: !Less(h[k], h[Parent(hole)])
  }

  /** The first item of a heap is a minimum. */
  lemma {:induction false} RootIsMinimal(h: seq<PriorityItem>, k: nat)
    requires IsHeap(h) && k < |h|
    ensures !Less(h[k], h[0])
  {
    if k > 0 {
      RootIsMinimal(h, Parent(k));
    }
  }

  function Swap(h: seq<PriorityItem>, i: nat, j: nat): (r: seq<PriorityItem>)
    requires i < |h| && j < |h|
    ensures |r| == |h|
    ensures multiset(r) == multiset(h)
  {
    var r := h[i := h[j]][j := h[i]];
    assert i == j ==> r == h;
    r
  }

  lemma SwapUp(h: seq<PriorityItem>, pos: nat)
    requires 0 < pos < |h| && HeapExceptAt(h, pos) && Bridged(h, pos) && Less(h[pos], h[Parent(pos)])
    ensures HeapExceptAt(Swap(h, pos, Parent(pos)), Parent(pos))
    ensures Bridged(Swap(h, pos, Parent(pos)), Parent(pos))
  {
  }

  method HeapPush(h: seq<PriorityItem>, item: PriorityItem) returns (r: seq<PriorityItem>)
    requires IsHeap(h)
    ensures IsHeap(r)
    ensures multiset(r) == multiset(h) + multiset{item}
  {
    r := h + [item];
    var pos := |h|;
    while pos > 0 && Less(r[pos], r[Parent(pos)])
      invariant 0 <= pos < |r| == |h| + 1
      invariant HeapExceptAt(r, pos) && Bridged(r, pos)
      invariant multiset(r) == multiset(h) + multiset{item}
    {
      var up := Parent(pos);
      SwapUp(r, pos);
      r := Swap(r, pos, up);
      pos := up;
    }
  }

  /** `child` is a child of `pos`, and no other child of `pos` is smaller. */
  ghost predicate SmallestChild(h: seq<PriorityItem>, pos: nat, child: nat) {
    && pos < child < |h|
    && Parent(child) == pos
    && forall k | 0 < k < |h| && Parent(k) == pos :: !Less(h[k], h[child])
  }

  function ChooseChild(h: seq<PriorityItem>, pos: nat): (child: nat)
    requires 2 * pos + 1 < |h|
    ensures SmallestChild(h, pos, child)
  {
    var child := if 2 * pos + 2 < |h| && Less(h[2 * pos + 2], h[2 * pos + 1]) then 2 * pos + 2 else 2 * pos + 1;
    assert forall k | 0 < k < |h| && Parent(k) == pos :: k == 2 * pos + 1 || k == 2 * pos + 2;
    child
  }

  lemma SwapDown(h: seq<PriorityItem>, pos: nat, child: nat)
    requires HeapExceptBelow(h, pos) && Bridged(h, pos)
    requires SmallestChild(h, pos, child) && Less(h[child], h[pos])
    ensures HeapExceptBelow(Swap(h, pos, child), child) && Bridged(Swap(h, pos, child), child)
  {
    var r := Swap(h, pos, child);
    forall k | 0 < k < |r| && Parent(k) != child
      ensures !Less(r[k], r[Parent(k)])
    {
      if Parent(k) != pos {
        assert !Less(h[k], h[Parent(k)]);
      }
    }
    forall k | 0 < k < |r| && Parent(k) == child
      ensures !Less(r[k], r[pos])
    {
      assert !Less(h[k], h[child]);
    }
  }

  lemma StopDown(h: seq<PriorityItem>, pos: nat, child: nat)
    requires HeapExceptBelow(h, pos)
    requires SmallestChild(h, pos, child) && !Less(h[child], h[pos])
    ensures IsHeap(h)
  {
  }

  /** Moves the first item down until no link is out of order. */
  method SiftDown(h: seq<PriorityItem>) returns (r: seq<PriorityItem>)
    requires HeapExceptBelow(h, 0)
    ensures IsHeap(r)
    ensures multiset(r) == multiset(h) && |r| == |h|
  {
    hide Less, SmallestChild;
    r := h;
    var pos, n := 0, |h|;
    while 2 * pos + 1 < n
      invariant 0 <= pos && |r| == n
      invariant HeapExceptBelow(r, pos) && Bridged(r, pos)
      invariant multiset(r) == multiset(h)
      decreases n - pos
    {
      var child := ChooseChild(r, pos);
      if !Less(r[child], r[pos]) {
        StopDown(r, pos, child);
        return;
      }
      SwapDown(r, pos, child);
      r := Swap(r, pos, child);
      pos := child;
    }
  }

  method HeapPop(h: seq<PriorityItem>) returns (item: PriorityItem, r: seq<PriorityItem>)
    requires IsHeap(h) && h != []
    ensures IsHeap(r)
    ensures multiset(h) == multiset(r) + multiset{item} && |r| == |h| - 1
    ensures forall x | x in multiset(h) :: !Less(x, item)
  {
    item := h[0];
    forall x | x in multiset(h)
      ensures !Less(x, item)
    {
      var k :| 0 <= k < |h| && h[k] == x;
      RootIsMinimal(h, k);
    }
    var n := |h| - 1;
    assert h == h[..n] + [h[n]];
    if n == 0 {
      return item, [];
    }
    assert h[..n] == [item] + h[1..n];
    r := SiftDown([h[n]] + h[1..n]);
  }
}

/** NativePriorityQueue: a binary heap in a growable list, ordered through an
    epsilon-tolerant comparison of NodeWithPriority values. A min-heap compares
    a against b, a max-heap b against a. Floats are modelled as reals. */
module PriorityQueue {
  import opened Grid

  /** The tolerance every node is constructed with (0.0001f). */
  const Epsilon: real := 0.0001

  /** NodeWithPriority: a tile and its priority (the f cost), carrying the
      tolerance its comparisons use. */
  datatype NodeWithPriority = NodeWithPriority(epsilon: real, position: Int2, priority: real)
  {
    /** CompareTo: 0 when the priorities differ by less than this node's
        epsilon, otherwise -1 or 1 by the ordinary order. */
    function CompareTo(other: NodeWithPriority): (r: int)
      ensures r == 0 <==> AbsReal(priority - other.priority) < epsilon
      ensures r < 0 ==> priority < other.priority
      ensures r > 0 ==> other.priority <= priority
      ensures -1 <= r <= 1
    {
      if AbsReal(priority - other.priority) < epsilon then 0
      else if priority < other.priority then -1 else 1
    }

    /** Equals: same tile, and priorities within epsilon (inclusive). */
    predicate Equals(other: NodeWithPriority)
    {
      position == other.position && AbsReal(priority - other.priority) <= epsilon
    }
  }

  /** Both constructors: the int overload converts its priority first. */
  function NewNode(pos: Int2, priority: real): (n: NodeWithPriority)
    ensures n.epsilon == Epsilon && n.position == pos && n.priority == priority
  {
    NodeWithPriority(Epsilon, pos, priority)
  }

  /** Two nodes with the same positive tolerance compare in opposite directions.
      (With tolerance 0, equal priorities compare 1 both ways.) */
  lemma CompareToAntisymmetric(a: NodeWithPriority, b: NodeWithPriority)
    requires a.epsilon == b.epsilon > 0.0
    ensures a.CompareTo(b) == -b.CompareTo(a)
  {
  }

  /** Equals is reflexive for a non-negative tolerance and symmetric for a shared one. */
  lemma EqualsReflexiveSymmetric(a: NodeWithPriority, b: NodeWithPriority)
    requires a.epsilon >= 0.0 && a.epsilon == b.epsilon
    ensures a.Equals(a)
    ensures a.Equals(b) <==> b.Equals(a)
  {
  }

  /** Equals and CompareTo disagree at distance exactly epsilon: the nodes are
      Equal, yet CompareTo orders them. */
  lemma EqualsVersusCompareTo()
    ensures var a, b := NewNode(Int2(0, 0), 0.0), NewNode(Int2(0, 0), Epsilon);
      a.Equals(b) && a.CompareTo(b) == -1
  {
  }

  /** The queue's private Compare. */
  function Compare(a: NodeWithPriority, b: NodeWithPriority, isMinHeap: bool): int
  {
    if isMinHeap then a.CompareTo(b) else b.CompareTo(a)
  }

  function Swap(h: seq<NodeWithPriority>, i: int, j: int): (r: seq<NodeWithPriority>)
    requires 0 <= i < |h| && 0 <= j < |h|
    ensures |r| == |h| && multiset(r) == multiset(h)
    ensures r[i] == h[j] && r[j] == h[i]
    ensures forall k :: 0 <= k < |h| && k != i && k != j ==> r[k] == h[k]
  {
    h[i := h[j]][j := h[i]]
  }

  /** The heap after SiftUp(index): the node at index is swapped with its parent
      (index - 1) / 2 while it compares below it. */
  function SiftedUp(h: seq<NodeWithPriority>, index: int, isMinHeap: bool): (r: seq<NodeWithPriority>)
    requires 0 <= index < |h|
    ensures |r| == |h| && multiset(r) == multiset(h)
    decreases index
  {
    if index == 0 then h
    else
      var parentIndex := (index - 1) / 2;
      if Compare(h[index], h[parentIndex], isMinHeap) >= 0 then h
      else SiftedUp(Swap(h, index, parentIndex), parentIndex, isMinHeap)
  }

  /** The child of `index` SiftDown moves it towards: the left child if it
      compares below the node, then the right child if it compares below that. */
  function SmallestOrLargest(h: seq<NodeWithPriority>, index: int, isMinHeap: bool): (s: int)
    requires 0 <= index
    ensures s == index || (index < s < |h| && (s == 2 * index + 1 || s == 2 * index + 2))
  {
    var leftChild, rightChild := index * 2 + 1, index * 2 + 2;
    var s := if leftChild <= |h| - 1 && Compare(h[leftChild], h[index], isMinHeap) < 0 then leftChild else index;
    if rightChild <= |h| - 1 && Compare(h[rightChild], h[s], isMinHeap) < 0 then rightChild else s
  }

  /** The heap after SiftDown(index). An index past the end leaves the heap as it is. */
  function SiftedDown(h: seq<NodeWithPriority>, index: int, isMinHeap: bool): (r: seq<NodeWithPriority>)
    requires 0 <= index
    ensures |r| == |h| && multiset(r) == multiset(h)
    decreases |h| - index
  {
    var s := SmallestOrLargest(h, index, isMinHeap);
    if s == index then h
    else SiftedDown(Swap(h, index, s), s, isMinHeap)
  }

  /** Dequeue before its SiftDown(0): the last node moved to the root, the list shortened. */
  function RemoveRoot(h: seq<NodeWithPriority>): (r: seq<NodeWithPriority>)
    requires |h| > 0
    ensures |r| == |h| - 1
    ensures multiset(r) + multiset{h[0]} == multiset(h)
  {
    RemoveRootMultiset(h);
    h[0 := h[|h| - 1]][..|h| - 1]
  }

  lemma RemoveRootMultiset(h: seq<NodeWithPriority>)
    requires |h| > 0
    ensures multiset(h[0 := h[|h| - 1]][..|h| - 1]) + multiset{h[0]} == multiset(h)
  {
    var r := h[0 := h[|h| - 1]][..|h| - 1];
    assert h == [h[0]] + h[1..];
    if |h| > 1 {
      assert r == [h[|h| - 1]] + h[1..|h| - 1];
      assert h[1..] == h[1..|h| - 1] + [h[|h| - 1]];
    }
  }

  // ---------------------------------------------------------------------------
  // Heap order, for nodes compared exactly (epsilon 0).

  /** The key the heap orders by: the priority for a min-heap, its negation for a max-heap. */
  function Key(n: NodeWithPriority, isMinHeap: bool): real
  {
    if isMinHeap then n.priority else -n.priority
  }

  predicate Exact(h: seq<NodeWithPriority>)
  {
    forall i :: 0 <= i < |h| ==> h[i].epsilon == 0.0
  }

  /** The parent slot of slot i > 0. */
  function Parent(i: int): int
  {
    (i - 1) / 2
  }

  /** The slots whose parent is k are 2k + 1 and 2k + 2. */
  lemma ParentOf(c: int, k: int)
    requires 0 < c && 0 <= k
    ensures Parent(c) == k <==> c == 2 * k + 1 || c == 2 * k + 2
    ensures 0 <= Parent(c) < c
  {
  }

  /** Slot i holds a key no smaller than its parent's. */
  predicate OrderedAt(h: seq<NodeWithPriority>, i: int, isMinHeap: bool)
    requires 0 < i < |h|
  {
    Key(h[Parent(i)], isMinHeap) <= Key(h[i], isMinHeap)
  }

  predicate IsHeap(h: seq<NodeWithPriority>, isMinHeap: bool)
  {
    forall i :: 0 < i < |h| ==> OrderedAt(h, i, isMinHeap)
  }

  /** k's parent holds a key no greater than those of k's children. */
  predicate GrandparentBelowChildren(h: seq<NodeWithPriority>, k: int, isMinHeap: bool)
    requires 0 < k < |h|
  {
    forall c :: 0 < c < |h| && Parent(c) == k ==> Key(h[Parent(k)], isMinHeap) <= Key(h[c], isMinHeap)
  }

  /** For exact nodes Compare is the order of the keys. */
  lemma CompareExact(a: NodeWithPriority, b: NodeWithPriority, isMinHeap: bool)
    requires a.epsilon == 0.0 && b.epsilon == 0.0
    ensures Compare(a, b, isMinHeap) < 0 <==> Key(a, isMinHeap) < Key(b, isMinHeap)
  {
  }

  /** The state SiftUp works in: ordered except at k, and k's parent below k's children. */
  predicate UpInvariant(h: seq<NodeWithPriority>, k: int, isMinHeap: bool)
    requires 0 <= k < |h|
  {
    (forall i :: 0 < i < |h| && i != k ==> OrderedAt(h, i, isMinHeap)) &&
    (k > 0 ==> GrandparentBelowChildren(h, k, isMinHeap))
  }

  /** The state SiftDown works in: ordered except at k's children, and k's parent
      below k's children. */
  predicate DownInvariant(h: seq<NodeWithPriority>, k: int, isMinHeap: bool)
    requires 0 <= k
  {
    (forall i :: 0 < i < |h| && Parent(i) != k ==> OrderedAt(h, i, isMinHeap)) &&
    (0 < k < |h| ==> GrandparentBelowChildren(h, k, isMinHeap))
  }

  /** SiftUp from any slot in UpInvariant yields a heap. */
  lemma {:induction false} SiftedUpIsHeap(h: seq<NodeWithPriority>, k: int, isMinHeap: bool)
    requires 0 <= k < |h| && Exact(h) && UpInvariant(h, k, isMinHeap)
    ensures IsHeap(SiftedUp(h, k, isMinHeap), isMinHeap)
    decreases k
  {
    if k > 0 {
      var p := Parent(k);
      CompareExact(h[k], h[p], isMinHeap);
      if Compare(h[k], h[p], isMinHeap) < 0 {
        var h' := Swap(h, k, p);
        forall i | 0 < i < |h'| && i != p
          ensures OrderedAt(h', i, isMinHeap)
        {
          var q := Parent(i);
          if i == k {
          } else if q == k {
            assert h'[q] == h[p] && h'[i] == h[i];
          } else if q == p {
            assert h'[q] == h[k] && h'[i] == h[i] && OrderedAt(h, i, isMinHeap);
          } else {
            assert h'[q] == h[q] && h'[i] == h[i] && OrderedAt(h, i, isMinHeap);
          }
        }
        if p > 0 {
          forall c | 0 < c < |h'| && Parent(c) == p
            ensures Key(h'[Parent(p)], isMinHeap) <= Key(h'[c], isMinHeap)
          {
            assert h'[Parent(p)] == h[Parent(p)];
            assert OrderedAt(h, p, isMinHeap);
            if c != k {
              assert OrderedAt(h, c, isMinHeap);
            }
          }
        }
        SiftedUpIsHeap(h', p, isMinHeap);
      }
    }
  }

  /** The slot SiftDown picks holds a key no greater than k's and than each of k's children. */
  lemma SmallestOrLargestIsLeast(h: seq<NodeWithPriority>, k: int, isMinHeap: bool)
    requires 0 <= k && Exact(h)
    ensures var s := SmallestOrLargest(h, k, isMinHeap);
      (s == k || Key(h[s], isMinHeap) < Key(h[k], isMinHeap)) &&
      (k < |h| ==> forall c :: 0 < c < |h| && Parent(c) == k ==> Key(h[s], isMinHeap) <= Key(h[c], isMinHeap))
  {
    var l, r := 2 * k + 1, 2 * k + 2;
    if l < |h| && k < |h| { CompareExact(h[l], h[k], isMinHeap); }
    if r < |h| && k < |h| { CompareExact(h[r], h[k], isMinHeap); }
    if l < |h| && r < |h| { CompareExact(h[r], h[l], isMinHeap); }
    forall c | 0 < c < |h| && Parent(c) == k {
      ParentOf(c, k);
    }
  }

  /** SiftDown from any slot in DownInvariant yields a heap. */
  lemma {:induction false} SiftedDownIsHeap(h: seq<NodeWithPriority>, k: int, isMinHeap: bool)
    requires 0 <= k && Exact(h) && DownInvariant(h, k, isMinHeap)
    ensures IsHeap(SiftedDown(h, k, isMinHeap), isMinHeap)
    decreases |h| - k
  {
    var s := SmallestOrLargest(h, k, isMinHeap);
    SmallestOrLargestIsLeast(h, k, isMinHeap);
    if s == k {
      forall i | 0 < i < |h| ensures OrderedAt(h, i, isMinHeap) {
        if Parent(i) == k { ParentOf(i, k); }
      }
    } else {
      ParentOf(s, k);
      var h' := Swap(h, k, s);
      forall i | 0 < i < |h'| && Parent(i) != s
        ensures OrderedAt(h', i, isMinHeap)
      {
        var q := Parent(i);
        ParentOf(i, q);
        if i == s {
        } else if q == k {
          assert h'[q] == h[s] && h'[i] == h[i];
        } else if i == k {
          assert h'[q] == h[q] && h'[i] == h[s];
        } else {
          assert h'[q] == h[q] && h'[i] == h[i] && OrderedAt(h, i, isMinHeap);
        }
      }
      forall c | 0 < c < |h'| && Parent(c) == s
        ensures Key(h'[Parent(s)], isMinHeap) <= Key(h'[c], isMinHeap)
      {
        ParentOf(c, s);
        assert h'[c] == h[c] && OrderedAt(h, c, isMinHeap);
      }
      SiftedDownIsHeap(h', s, isMinHeap);
    }
  }

  /** Enqueue keeps an exact heap a heap. */
  lemma EnqueueKeepsHeap(h: seq<NodeWithPriority>, x: NodeWithPriority, isMinHeap: bool)
    requires Exact(h) && IsHeap(h, isMinHeap) && x.epsilon == 0.0
    ensures IsHeap(SiftedUp(h + [x], |h|, isMinHeap), isMinHeap)
  {
    var h' := h + [x];
    forall i | 0 < i < |h| ensures OrderedAt(h', i, isMinHeap) {
      assert OrderedAt(h, i, isMinHeap);
      ParentOf(i, Parent(i));
    }
    if |h| > 0 {
      forall c | 0 < c < |h'| && Parent(c) == |h| ensures false {
        ParentOf(c, |h|);
      }
    }
    SiftedUpIsHeap(h', |h|, isMinHeap);
  }

  /** Dequeue keeps an exact heap a heap. */
  lemma DequeueKeepsHeap(h: seq<NodeWithPriority>, isMinHeap: bool)
    requires |h| > 0 && Exact(h) && IsHeap(h, isMinHeap)
    ensures IsHeap(SiftedDown(RemoveRoot(h), 0, isMinHeap), isMinHeap)
  {
    var h' := RemoveRoot(h);
    forall i | 0 < i < |h'| && Parent(i) != 0 ensures OrderedAt(h', i, isMinHeap) {
      assert OrderedAt(h, i, isMinHeap);
      ParentOf(i, Parent(i));
    }
    SiftedDownIsHeap(h', 0, isMinHeap);
  }

  /** In a heap the root's key is the least: Peek and Dequeue return the node
      of least priority (min-heap) or greatest priority (max-heap). */
  lemma {:induction false} HeapRootIsExtreme(h: seq<NodeWithPriority>, isMinHeap: bool, i: int)
    requires IsHeap(h, isMinHeap) && 0 <= i < |h|
    ensures Key(h[0], isMinHeap) <= Key(h[i], isMinHeap)
    decreases i
  {
    if i > 0 {
      assert OrderedAt(h, i, isMinHeap);
      HeapRootIsExtreme(h, isMinHeap, Parent(i));
    }
  }

  lemma RootIsExtreme(h: seq<NodeWithPriority>, isMinHeap: bool)
    requires |h| > 0
    ensures IsHeap(h, isMinHeap) ==> forall i :: 0 <= i < |h| ==> Key(h[0], isMinHeap) <= Key(h[i], isMinHeap)
  {
    if IsHeap(h, isMinHeap) {
      forall i | 0 <= i < |h| ensures Key(h[0], isMinHeap) <= Key(h[i], isMinHeap) {
        HeapRootIsExtreme(h, isMinHeap, i);
      }
    }
  }

  /** The source's own relation between a slot and its parent: Compare >= 0. */
  predicate CompareOrderedAt(h: seq<NodeWithPriority>, i: int, isMinHeap: bool)
    requires 0 < i < |h|
  {
    Compare(h[i], h[Parent(i)], isMinHeap) >= 0
  }

  /** With the source's tolerance the local heap relation is not kept: a heap whose
      every node compares >= its parent, after one Enqueue, holds a node that
      compares below its parent, although none of the priorities is within
      epsilon of the new one. */
  lemma ToleranceBreaksHeapOrder()
    ensures var h := [NewNode(Int2(0, 0), 0.0), NewNode(Int2(1, 0), -0.00009),
                      NewNode(Int2(2, 0), 100.0), NewNode(Int2(3, 0), -0.00018)];
      var h' := SiftedUp(h + [NewNode(Int2(4, 0), -10.0)], 4, true);
      (forall i :: 0 < i < |h| ==> CompareOrderedAt(h, i, true)) && !CompareOrderedAt(h', 3, true)
  {
    var h := [NewNode(Int2(0, 0), 0.0), NewNode(Int2(1, 0), -0.00009),
              NewNode(Int2(2, 0), 100.0), NewNode(Int2(3, 0), -0.00018)];
    var x := NewNode(Int2(4, 0), -10.0);
    var h1 := Swap(h + [x], 4, 1);
    assert SiftedUp(h + [x], 4, true) == SiftedUp(h1, 1, true);
    var h2 := Swap(h1, 1, 0);
    assert SiftedUp(h1, 1, true) == SiftedUp(h2, 0, true) == h2;
    assert h2[3] == h[3] && h2[1] == h[0];
  }

  /** The queue object: the heap list, and the direction fixed at construction. */
  class NativePriorityQueue {
    var heap: seq<NodeWithPriority>
    const isMinHeap: bool

    constructor(isMinHeap: bool)
      ensures heap == [] && this.isMinHeap == isMinHeap
    {
      heap := [];
      this.isMinHeap := isMinHeap;
    }

    function Count(): (n: nat)
      reads this
      ensures n == |heap|
    {
      |heap|
    }

    function IsEmpty(): (b: bool)
      reads this
      ensures b <==> Count() == 0
    {
      |heap| == 0
    }

    /** Peek: the root, which is the extreme node when the heap is ordered. */
    function Peek(): (root: NodeWithPriority)
      reads this
      requires |heap| > 0
      ensures root == heap[0] && root in heap
      ensures IsHeap(heap, isMinHeap) ==>
        forall i :: 0 <= i < |heap| ==> Key(root, isMinHeap) <= Key(heap[i], isMinHeap)
    {
      RootIsExtreme(heap, isMinHeap);
      heap[0]
    }

    method Enqueue(value: NodeWithPriority)
      modifies this
      ensures heap == SiftedUp(old(heap) + [value], |old(heap)|, isMinHeap)
      ensures multiset(heap) == multiset(old(heap)) + multiset{value}
    {
      heap := heap + [value];
      SiftUp(|heap| - 1);
    }

    /** Dequeue on an empty queue indexes past the end of the list; callers
        check IsEmpty first. */
    method Dequeue() returns (root: NodeWithPriority)
      requires |heap| > 0
      modifies this
      ensures root == old(heap)[0]
      ensures heap == SiftedDown(RemoveRoot(old(heap)), 0, isMinHeap)
      ensures multiset(heap) + multiset{root} == multiset(old(heap))
    {
      root := heap[0];
      heap := heap[0 := heap[|heap| - 1]];
      heap := heap[..|heap| - 1];
      SiftDown(0);
    }

    /** Contains: a linear scan for a node Equal to `value`. */
    method Contains(value: NodeWithPriority) returns (found: bool)
      ensures found <==> exists i :: 0 <= i < |heap| && heap[i].Equals(value)
    {
      var i := 0;
      while i < |heap|
        invariant 0 <= i <= |heap|
        invariant forall j :: 0 <= j < i ==> !heap[j].Equals(value)
      {
        if heap[i].Equals(value) {
          return true;
        }
        i := i + 1;
      }
      return false;
    }

    method SiftUp(index: int)
      requires 0 <= index < |heap|
      modifies this
      ensures heap == SiftedUp(old(heap), index, isMinHeap)
    {
      var i := index;
      while i > 0
        invariant 0 <= i < |heap|
        invariant SiftedUp(heap, i, isMinHeap) == SiftedUp(old(heap), index, isMinHeap)
        decreases i
      {
        var parentIndex := (i - 1) / 2;
        if Compare(heap[i], heap[parentIndex], isMinHeap) >= 0 {
          break;
        }
        var temp := heap[i];
        heap := heap[i := heap[parentIndex]];
        heap := heap[parentIndex := temp];
        i := parentIndex;
      }
    }

    method SiftDown(index: int)
      requires 0 <= index
      modifies this
      ensures heap == SiftedDown(old(heap), index, isMinHeap)
    {
      var lastIndex := |heap| - 1;
      var i := index;
      while true
        invariant 0 <= i && |heap| == lastIndex + 1
        invariant SiftedDown(heap, i, isMinHeap) == SiftedDown(old(heap), index, isMinHeap)
        decreases |heap| - i
      {
        var leftChild := i * 2 + 1;
        var rightChild := i * 2 + 2;
        var smallestOrLargest := i;
        if leftChild <= lastIndex && Compare(heap[leftChild], heap[smallestOrLargest], isMinHeap) < 0 {
          smallestOrLargest := leftChild;
        }
        if rightChild <= lastIndex && Compare(heap[rightChild], heap[smallestOrLargest], isMinHeap) < 0 {
          smallestOrLargest := rightChild;
        }
        assert smallestOrLargest == SmallestOrLargest(heap, i, isMinHeap);
        if smallestOrLargest == i {
          break;
        }
        var temp := heap[i];
        heap := heap[i := heap[smallestOrLargest]];
        heap := heap[smallestOrLargest := temp];
        i := smallestOrLargest;
      }
    }
  }
}

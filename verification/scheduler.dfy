/** The event scheduler: a binary heap keyed by (timestamp, insertion number). */
module Scheduling {
  import opened Words

  datatype Entry<E> = Entry(when: nat, serial: nat, event: E)

  /** The firing order: earlier timestamp first, ties by insertion number. */
  predicate Sooner<E>(a: Entry<E>, b: Entry<E>) {
    a.when < b.when || (a.when == b.when && a.serial < b.serial)
  }

  ghost predicate Ordered<E>(p: seq<Entry<E>>) {
    forall i, j :: 0 <= i < j < |p| ==> Sooner(p[i], p[j])
  }

  ghost predicate DistinctSerials<E>(p: seq<Entry<E>>) {
    forall i, j :: 0 <= i < j < |p| ==> p[i].serial != p[j].serial
  }

  ghost predicate SerialsBelow<E>(p: seq<Entry<E>>, bound: nat) {
    forall i :: 0 <= i < |p| ==> p[i].serial < bound
  }

  // ---------------------------------------------------------------------------
  // The logical contents: a sequence in firing order
  // ---------------------------------------------------------------------------

  function Insert<E>(p: seq<Entry<E>>, e: Entry<E>): seq<Entry<E>> {
    if p == [] || Sooner(e, p[0]) then [e] + p else [p[0]] + Insert(p[1..], e)
  }

  /** The `sort_by` used by `pending_in_order` and `save`. */
  function SortEntries<E>(h: seq<Entry<E>>): seq<Entry<E>> {
    if h == [] then [] else Insert(SortEntries(h[1..]), h[0])
  }

  function Filter<E>(p: seq<Entry<E>>, keep: Entry<E> -> bool): seq<Entry<E>> {
    if p == [] then []
    else if keep(p[0]) then [p[0]] + Filter(p[1..], keep)
    else Filter(p[1..], keep)
  }

  lemma {:induction false} InsertPermutes<E>(p: seq<Entry<E>>, e: Entry<E>)
    ensures multiset(Insert(p, e)) == multiset(p) + multiset{e}
  {
    if p == [] || Sooner(e, p[0]) {
    } else {
      InsertPermutes(p[1..], e);
      assert p == [p[0]] + p[1..];
    }
  }

  lemma {:induction false} InsertKeepsOrder<E>(p: seq<Entry<E>>, e: Entry<E>)
    requires Ordered(p) && forall i :: 0 <= i < |p| ==> p[i].serial != e.serial
    ensures Ordered(Insert(p, e))
  {
    if p == [] || Sooner(e, p[0]) {
    } else {
      InsertKeepsOrder(p[1..], e);
      InsertPermutes(p[1..], e);
      var rest := Insert(p[1..], e);
      forall k | 0 <= k < |rest| ensures Sooner(p[0], rest[k]) {
        assert rest[k] in multiset(rest);
        assert rest[k] == e || rest[k] in p[1..];
      }
    }
  }

  lemma {:induction false} SortPermutes<E>(h: seq<Entry<E>>)
    ensures multiset(SortEntries(h)) == multiset(h)
  {
    if h != [] {
      SortPermutes(h[1..]);
      InsertPermutes(SortEntries(h[1..]), h[0]);
      assert h == [h[0]] + h[1..];
    }
  }

  lemma {:induction false} SortOrders<E>(h: seq<Entry<E>>)
    requires DistinctSerials(h)
    ensures Ordered(SortEntries(h))
  {
    if h != [] {
      var rest := SortEntries(h[1..]);
      SortOrders(h[1..]);
      SortPermutes(h[1..]);
      forall i | 0 <= i < |rest| ensures rest[i].serial != h[0].serial {
        assert rest[i] in multiset(rest);
        assert rest[i] in h[1..];
      }
      InsertKeepsOrder(rest, h[0]);
    }
  }

  /** Firing order is determined by which entries are pending, not by the heap's layout. */
  lemma {:induction false} OrderIsUnique<E>(p: seq<Entry<E>>, q: seq<Entry<E>>)
    requires Ordered(p) && Ordered(q) && multiset(p) == multiset(q)
    ensures p == q
  {
    if p == [] {
      assert |multiset(q)| == 0;
    } else {
      assert q != [] by { assert p[0] in multiset(q); }
      assert p[0] in multiset(q) && q[0] in multiset(p);
      assert p[0] == q[0];
      assert p == [p[0]] + p[1..] && q == [q[0]] + q[1..];
      assert multiset(p[1..]) == multiset(p) - multiset{p[0]};
      assert multiset(q[1..]) == multiset(q) - multiset{p[0]};
      OrderIsUnique(p[1..], q[1..]);
    }
  }

  lemma {:induction false} FilterConcat<E>(p: seq<Entry<E>>, q: seq<Entry<E>>, keep: Entry<E> -> bool)
    ensures Filter(p + q, keep) == Filter(p, keep) + Filter(q, keep)
  {
    if p == [] {
      assert p + q == q;
    } else {
      assert (p + q)[1..] == p[1..] + q;
      FilterConcat(p[1..], q, keep);
    }
  }

  function Without<E>(g: seq<Entry<E>>, k: nat): (r: seq<Entry<E>>)
    requires k < |g|
    ensures multiset(r) == multiset(g) - multiset{g[k]}
  {
    assert g == g[..k] + ([g[k]] + g[k + 1..]);
    g[..k] + g[k + 1..]
  }

  lemma FilterWithout<E>(g: seq<Entry<E>>, k: nat, keep: Entry<E> -> bool)
    requires k < |g|
    ensures multiset(Filter(g, keep)) == multiset(Filter(Without(g, k), keep)) + if keep(g[k]) then multiset{g[k]} else multiset{}
  {
    var a, b := g[..k], g[k..];
    assert g == a + b && b[1..] == g[k + 1..];
    FilterConcat(a, b[1..], keep);
    FilterConcat(a, b, keep);
    assert Filter(b, keep) == (if keep(g[k]) then [g[k]] else []) + Filter(b[1..], keep);
  }

  lemma {:induction false} FilterOfPermutation<E>(h: seq<Entry<E>>, g: seq<Entry<E>>, keep: Entry<E> -> bool)
    requires multiset(h) == multiset(g)
    ensures multiset(Filter(h, keep)) == multiset(Filter(g, keep))
  {
    if h == [] {
      assert |multiset(g)| == 0;
    } else {
      assert h[0] in multiset(g);
      var k :| 0 <= k < |g| && g[k] == h[0];
      FilterOfPermutation(Without(h, 0), Without(g, k), keep);
      FilterWithout(h, 0, keep);
      FilterWithout(g, k, keep);
    }
  }

  lemma {:induction false} FilterKeepsOrder<E>(p: seq<Entry<E>>, keep: Entry<E> -> bool)
    requires Ordered(p)
    ensures Ordered(Filter(p, keep))
    ensures forall i :: 0 <= i < |Filter(p, keep)| ==> Filter(p, keep)[i] in p && keep(Filter(p, keep)[i])
  {
    if p != [] {
      FilterKeepsOrder(p[1..], keep);
      assert p == [p[0]] + p[1..];
      var rest := Filter(p[1..], keep);
      forall k | 0 <= k < |rest| ensures Sooner(p[0], rest[k]) {
        assert rest[k] in p[1..];
      }
    }
  }

  lemma {:induction false} FilterLength<E>(p: seq<Entry<E>>, keep: Entry<E> -> bool)
    ensures |Filter(p, keep)| <= |p|
    ensures |Filter(p, keep)| == |p| <==> forall e :: e in p ==> keep(e)
    ensures |Filter(p, keep)| == |p| ==> Filter(p, keep) == p
  {
    if p != [] {
      FilterLength(p[1..], keep);
      assert p == [p[0]] + p[1..];
    }
  }

  lemma FilterStep<E>(all: seq<Entry<E>>, i: nat, keep: Entry<E> -> bool)
    requires i < |all|
    ensures Filter(all[..i + 1], keep) == Filter(all[..i], keep) + if keep(all[i]) then [all[i]] else []
  {
    assert all[..i + 1] == all[..i] + [all[i]];
    FilterConcat(all[..i], [all[i]], keep);
    assert [all[i]][1..] == [];
  }

  /** What `retain` leaves behind, seen through the firing order. */
  lemma RetainedContents<E>(all: seq<Entry<E>>, p: seq<Entry<E>>, keep: Entry<E> -> bool, bound: nat)
    requires multiset(all) == multiset(p)
    requires Ordered(p) && DistinctSerials(p) && SerialsBelow(p, bound)
    ensures multiset(Filter(all, keep)) == multiset(Filter(p, keep))
    ensures var q := Filter(p, keep); Ordered(q) && DistinctSerials(q) && SerialsBelow(q, bound)
  {
    var q := Filter(p, keep);
    FilterOfPermutation(all, p, keep);
    FilterKeepsOrder(p, keep);
    forall i, j | 0 <= i < j < |q| ensures q[i].serial != q[j].serial {
      assert q[i] in p && q[j] in p && Sooner(q[i], q[j]);
    }
  }

  lemma InsertedSerials<E>(p: seq<Entry<E>>, e: Entry<E>)
    requires DistinctSerials(p) && SerialsBelow(p, e.serial)
    ensures DistinctSerials(Insert(p, e)) && SerialsBelow(Insert(p, e), e.serial + 1)
  {
    InsertPermutes(p, e);
    DistinctnessIsLayoutFree(p + [e], Insert(p, e));
    PermutationFacts(p + [e], Insert(p, e));
    var q := Insert(p, e);
    forall i | 0 <= i < |q| ensures q[i].serial < e.serial + 1 {
      assert q[i] in p + [e];
    }
  }

  // ---------------------------------------------------------------------------
  // Binary-heap order
  // ---------------------------------------------------------------------------

  function Parent(j: nat): (i: nat)
    requires j > 0
  {
    (j - 1) / 2
  }

  ghost predicate HeapOrdered<E>(h: seq<Entry<E>>) {
    forall j {:trigger h[j]} :: 0 < j < |h| ==> !Sooner(h[j], h[Parent(j)])
  }

  lemma {:induction false} RootIsSoonest<E>(h: seq<Entry<E>>, j: nat)
    requires HeapOrdered(h) && j < |h|
    ensures !Sooner(h[j], h[0])
    decreases j
  {
    if j > 0 {
      RootIsSoonest(h, Parent(j));
    }
  }

  function Swap<E>(h: seq<Entry<E>>, i: nat, j: nat): (g: seq<Entry<E>>)
    requires i < |h| && j < |h|
    ensures multiset(g) == multiset(h)
    ensures |g| == |h| && g[i] == h[j] && g[j] == h[i]
    ensures forall k :: 0 <= k < |h| && k != i && k != j ==> g[k] == h[k]
  {
    h[i := h[j]][j := h[i]]
  }

  /** Heap order except that slot i may be sooner than its parent (sift-up). */
  ghost predicate OrderedAboveHole<E>(h: seq<Entry<E>>, i: nat) {
    && (forall j {:trigger h[j]} :: 0 < j < |h| && j != i ==> !Sooner(h[j], h[Parent(j)]))
    && (forall j {:trigger h[j]} :: 0 < j < |h| && Parent(j) == i && i > 0 ==> !Sooner(h[j], h[Parent(i)]))
  }

  /** Heap order except that slot i may be later than its children (sift-down). */
  ghost predicate OrderedBelowHole<E>(h: seq<Entry<E>>, i: nat) {
    && (forall j {:trigger h[j]} :: 0 < j < |h| && Parent(j) != i ==> !Sooner(h[j], h[Parent(j)]))
    && (forall j {:trigger h[j]} :: 0 < j < |h| && Parent(j) == i && i > 0 ==> !Sooner(h[j], h[Parent(i)]))
  }

  lemma SwapUp<E>(h: seq<Entry<E>>, i: nat)
    requires 0 < i < |h| && OrderedAboveHole(h, i) && Sooner(h[i], h[Parent(i)])
    ensures OrderedAboveHole(Swap(h, i, Parent(i)), Parent(i))
  {
    var up := Parent(i);
    var g := Swap(h, i, up);
    forall j {:trigger g[j]} | 0 < j < |g| && j != up ensures !Sooner(g[j], g[Parent(j)]) {
      assert !Sooner(h[j], h[Parent(j)]) || j == i;
    }
    forall j {:trigger g[j]} | 0 < j < |g| && Parent(j) == up && up > 0 ensures !Sooner(g[j], g[Parent(up)]) {
      assert !Sooner(h[up], h[Parent(up)]);
      assert !Sooner(h[j], h[Parent(j)]) || j == i;
    }
  }

  lemma HoleFilledFromBelow<E>(h: seq<Entry<E>>, i: nat)
    requires i < |h| && OrderedAboveHole(h, i)
    requires i == 0 || !Sooner(h[i], h[Parent(i)])
    ensures HeapOrdered(h)
  {
  }

  function SoonerChild<E>(h: seq<Entry<E>>, i: nat): (child: nat)
    requires 2 * i + 1 < |h|
    ensures child < |h| && (child == 2 * i + 1 || child == 2 * i + 2)
  {
    if 2 * i + 2 < |h| && Sooner(h[2 * i + 2], h[2 * i + 1]) then 2 * i + 2 else 2 * i + 1
  }

  lemma ChildrenOf(i: nat, j: nat)
    requires j > 0 && Parent(j) == i
    ensures j == 2 * i + 1 || j == 2 * i + 2
  {
  }

  lemma SwapDown<E>(h: seq<Entry<E>>, i: nat)
    requires 2 * i + 1 < |h| && OrderedBelowHole(h, i)
    requires Sooner(h[SoonerChild(h, i)], h[i])
    ensures OrderedBelowHole(Swap(h, SoonerChild(h, i), i), SoonerChild(h, i))
  {
    var c := SoonerChild(h, i);
    var g := Swap(h, c, i);
    forall j {:trigger g[j]} | 0 < j < |g| && Parent(j) != c ensures !Sooner(g[j], g[Parent(j)]) {
      if Parent(j) == i {
        ChildrenOf(i, j);
      } else {
        assert !Sooner(h[j], h[Parent(j)]);
      }
      if j == i {
        assert !Sooner(h[c], h[Parent(i)]);
      }
    }
    forall j {:trigger g[j]} | 0 < j < |g| && Parent(j) == c && c > 0 ensures !Sooner(g[j], g[Parent(c)]) {
      assert !Sooner(h[j], h[Parent(j)]);
    }
  }

  lemma HoleFilledFromAbove<E>(h: seq<Entry<E>>, i: nat)
    requires i < |h| && OrderedBelowHole(h, i)
    requires 2 * i + 1 < |h| ==> !Sooner(h[SoonerChild(h, i)], h[i])
    ensures HeapOrdered(h)
  {
    forall j {:trigger h[j]} | 0 < j < |h| ensures !Sooner(h[j], h[Parent(j)]) {
      if Parent(j) == i {
        ChildrenOf(i, j);
      }
    }
  }

  /** `swap_remove` of the root: the last leaf takes its place and leaves a hole at the top. */
  lemma ReplaceRoot<E>(h: seq<Entry<E>>)
    requires HeapOrdered(h) && h != []
    ensures |h| == 1 ==> multiset(h) == multiset{h[0]}
    ensures |h| > 1 ==>
      var g := h[..|h| - 1][0 := h[|h| - 1]];
      multiset(g) == multiset(h) - multiset{h[0]} && OrderedBelowHole(g, 0)
  {
    if |h| == 1 {
      assert h == [h[0]];
    } else {
      LeafReplacesRoot(h);
      HoleAtTop(h);
    }
  }

  lemma LeafReplacesRoot<E>(h: seq<Entry<E>>)
    requires |h| > 1
    ensures multiset(h[..|h| - 1][0 := h[|h| - 1]]) == multiset(h) - multiset{h[0]}
  {
    var middle, last := h[1..|h| - 1], h[|h| - 1];
    assert h == [h[0]] + middle + [last];
    assert h[..|h| - 1][0 := last] == [last] + middle;
  }

  lemma HoleAtTop<E>(h: seq<Entry<E>>)
    requires HeapOrdered(h) && |h| > 1
    ensures OrderedBelowHole(h[..|h| - 1][0 := h[|h| - 1]], 0)
  {
    var g := h[..|h| - 1][0 := h[|h| - 1]];
    forall j {:trigger g[j]} | 0 < j < |g| && Parent(j) != 0 ensures !Sooner(g[j], g[Parent(j)]) {
      assert !Sooner(h[j], h[Parent(j)]);
    }
  }

  lemma PermutationFacts<E>(h: seq<Entry<E>>, g: seq<Entry<E>>)
    requires multiset(h) == multiset(g)
    ensures |h| == |g|
    ensures forall i :: 0 <= i < |h| ==> h[i] in g
    ensures forall i :: 0 <= i < |g| ==> g[i] in h
  {
    assert |h| == |multiset(h)| && |g| == |multiset(g)|;
    forall i | 0 <= i < |h| ensures h[i] in g {
      assert h[i] in multiset(h);
    }
    forall i | 0 <= i < |g| ensures g[i] in h {
      assert g[i] in multiset(g);
    }
  }

  /** Distinct serials is a property of the entries held, whatever their arrangement. */
  lemma DistinctnessIsLayoutFree<E>(h: seq<Entry<E>>, g: seq<Entry<E>>)
    requires DistinctSerials(h) && multiset(h) == multiset(g)
    ensures DistinctSerials(g)
  {
    forall i, j | 0 <= i < j < |g| ensures g[i].serial != g[j].serial {
      if g[i].serial == g[j].serial {
        PermutationFacts(h, g);
        assert g[i] in h && g[j] in h;
        assert g[i] == g[j];
        assert g == g[..i] + [g[i]] + g[i+1..j] + [g[j]] + g[j+1..];
        assert multiset(g)[g[i]] >= 2;
        AtMostOnce(h, g[i]);
      }
    }
  }

  lemma {:induction false} AtMostOnce<E>(h: seq<Entry<E>>, e: Entry<E>)
    requires DistinctSerials(h)
    ensures multiset(h)[e] <= 1
  {
    if h != [] {
      AtMostOnce(h[1..], e);
      assert h == [h[0]] + h[1..];
      assert e in h[1..] ==> h[0] != e;
    }
  }

  // ---------------------------------------------------------------------------
  // The scheduler
  // ---------------------------------------------------------------------------

  class Scheduler<E> {
    var heap: seq<Entry<E>>
    var nextSeq: nat

    ghost predicate Valid()
      reads this
    {
      HeapOrdered(heap) && DistinctSerials(heap) && SerialsBelow(heap, nextSeq)
    }

    /** `pending_in_order`: what will fire, in order. */
    function Pending(): (p: seq<Entry<E>>)
      reads this
    {
      SortEntries(heap)
    }

    lemma PendingFacts()
      requires Valid()
      ensures Ordered(Pending()) && multiset(Pending()) == multiset(heap)
      ensures DistinctSerials(Pending()) && SerialsBelow(Pending(), nextSeq)
      ensures |Pending()| == |heap|
      ensures heap != [] ==> Pending() != [] && Pending()[0] == heap[0]
    {
      var p := Pending();
      SortPermutes(heap);
      SortOrders(heap);
      DistinctnessIsLayoutFree(heap, p);
      PermutationFacts(heap, p);
      forall i | 0 <= i < |p| ensures p[i].serial < nextSeq {
        assert p[i] in heap;
      }
      if heap != [] {
        assert heap[0] in heap;
        assert heap[0] in p;
        var k :| 0 <= k < |p| && p[k] == heap[0];
        if k > 0 {
          assert Sooner(p[0], heap[0]);
          assert p[0] in p;
          assert p[0] in heap;
          var j :| 0 <= j < |heap| && heap[j] == p[0];
          RootIsSoonest(heap, j);
          assert false;
        }
      }
    }

    /** Reorganising the heap, or replacing it, cannot matter beyond its multiset of entries. */
    lemma PendingIs(p: seq<Entry<E>>)
      requires DistinctSerials(heap) && Ordered(p) && multiset(p) == multiset(heap)
      ensures Pending() == p
    {
      SortPermutes(heap);
      SortOrders(heap);
      OrderIsUnique(Pending(), p);
    }

    /** A well-formed ordered sequence with the heap's entries certifies the whole state. */
    lemma Settle(p: seq<Entry<E>>)
      requires HeapOrdered(heap) && multiset(heap) == multiset(p)
      requires Ordered(p) && DistinctSerials(p) && SerialsBelow(p, nextSeq)
      ensures Valid() && Pending() == p
    {
      DistinctnessIsLayoutFree(p, heap);
      PermutationFacts(p, heap);
      forall i | 0 <= i < |heap| ensures heap[i].serial < nextSeq {
        assert heap[i] in p;
      }
      PendingIs(p);
    }

    constructor ()
      ensures Valid() && Pending() == [] && nextSeq == 0
    {
      heap := [];
      nextSeq := 0;
    }

    /** `BinaryHeap::push`. */
    method Push(e: Entry<E>)
      requires HeapOrdered(heap)
      modifies this`heap
      ensures HeapOrdered(heap)
      ensures multiset(heap) == multiset(old(heap)) + multiset{e}
    {
      heap := heap + [e];
      var i := |heap| - 1;
      while i > 0 && Sooner(heap[i], heap[Parent(i)])
        invariant 0 <= i < |heap| && OrderedAboveHole(heap, i)
        invariant multiset(heap) == multiset(old(heap)) + multiset{e}
      {
        SwapUp(heap, i);
        heap, i := Swap(heap, i, Parent(i)), Parent(i);
      }
      HoleFilledFromBelow(heap, i);
    }

    /** `BinaryHeap::pop` on a non-empty heap. */
    method PopRoot() returns (e: Entry<E>)
      requires HeapOrdered(heap) && heap != []
      modifies this`heap
      ensures HeapOrdered(heap)
      ensures e == old(heap)[0]
      ensures multiset(heap) == multiset(old(heap)) - multiset{e}
    {
      e := heap[0];
      ReplaceRoot(heap);
      heap := if |heap| == 1 then [] else heap[..|heap| - 1][0 := heap[|heap| - 1]];
      if heap == [] {
        return;
      }
      var i := 0;
      while 2 * i + 1 < |heap|
        invariant i < |heap| && OrderedBelowHole(heap, i)
        invariant multiset(heap) == multiset(old(heap)) - multiset{e}
        decreases |heap| - i
      {
        var child := SoonerChild(heap, i);
        if !Sooner(heap[child], heap[i]) {
          HoleFilledFromAbove(heap, i);
          return;
        }
        SwapDown(heap, i);
        heap, i := Swap(heap, child, i), child;
      }
      HoleFilledFromAbove(heap, i);
    }

    /** Rebuild the heap from the entries of `all` that are kept. */
    method Rebuild(all: seq<Entry<E>>, keep: Entry<E> -> bool)
      modifies this`heap
      ensures HeapOrdered(heap) && multiset(heap) == multiset(Filter(all, keep))
    {
      heap := [];
      for i := 0 to |all|
        invariant HeapOrdered(heap)
        invariant multiset(heap) == multiset(Filter(all[..i], keep))
      {
        FilterStep(all, i, keep);
        if keep(all[i]) {
          Push(all[i]);
        }
      }
      assert all[..|all|] == all;
    }

    /** `BinaryHeap::retain`. */
    method Retain(keep: Entry<E> -> bool)
      requires Valid()
      modifies this`heap
      ensures Valid() && Pending() == Filter(old(Pending()), keep)
    {
      ghost var p := Pending();
      PendingFacts();
      RetainedContents(heap, p, keep, nextSeq);
      Rebuild(heap, keep);
      Settle(Filter(p, keep));
    }

    /** Queue `event`; the handle is the entry's serial. */
    method Schedule(when: nat, event: E) returns (handle: nat)
      requires Valid()
      modifies this
      ensures Valid() && handle == old(nextSeq) && nextSeq == handle + 1
      ensures Pending() == Insert(old(Pending()), Entry(when, handle, event))
    {
      PendingFacts();
      ghost var p := Pending();
      handle := nextSeq;
      nextSeq := nextSeq + 1;
      ghost var e := Entry(when, handle, event);
      Push(Entry(when, handle, event));
      InsertPermutes(p, e);
      InsertKeepsOrder(p, e);
      InsertedSerials(p, e);
      Settle(Insert(p, e));
    }

    /** Remove a pending event by handle, reporting whether it was still pending. */
    method Cancel(handle: nat) returns (wasPending: bool)
      requires Valid()
      modifies this`heap
      ensures Valid()
      ensures Pending() == Filter(old(Pending()), (e: Entry<E>) => e.serial != handle)
      ensures wasPending <==> exists e :: e in old(Pending()) && e.serial == handle
    {
      ghost var p := Pending();
      PendingFacts();
      var before := |heap|;
      var keep := (e: Entry<E>) => e.serial != handle;
      Retain(keep);
      PendingFacts();
      FilterLength(p, keep);
      wasPending := before != |heap|;
    }

    /** Remove every pending event satisfying `pred`, reporting how many there were. */
    method CancelMatching(pred: E -> bool) returns (removed: nat)
      requires Valid()
      modifies this`heap
      ensures Valid()
      ensures Pending() == Filter(old(Pending()), (e: Entry<E>) => !pred(e.event))
      ensures removed == |old(Pending())| - |Pending()|
    {
      ghost var p := Pending();
      PendingFacts();
      var before := |heap|;
      var keep := (e: Entry<E>) => !pred(e.event);
      Retain(keep);
      PendingFacts();
      FilterLength(p, keep);
      removed := before - |heap|;
    }

    method NextEventTime() returns (when: Option<nat>)
      requires Valid()
      ensures when == if Pending() == [] then None else Some(Pending()[0].when)
    {
      PendingFacts();
      when := if heap == [] then None else Some(heap[0].when);
    }

    /** Cycles the CPU may run before the next event; saturates at zero for a late one. */
    method CyclesUntilNext(now: nat) returns (slice: Option<nat>)
      requires Valid()
      ensures Pending() == [] ==> slice == None
      ensures Pending() != [] ==> slice.Some?
      ensures Pending() != [] && now <= Pending()[0].when ==> now + slice.value == Pending()[0].when
      ensures Pending() != [] && now > Pending()[0].when ==> slice.value == 0
    {
      var next := NextEventTime();
      slice := match next
        case None => None
        case Some(when) => Some(if when >= now then when - now else 0);
    }

    /** Pop the earliest event if it is due at or before `now`. */
    method PopDue(now: nat) returns (due: Option<(nat, E)>)
      requires Valid()
      modifies this`heap
      ensures Valid()
      ensures due.Some? <==> old(Pending()) != [] && old(Pending())[0].when <= now
      ensures due.None? ==> Pending() == old(Pending())
      ensures due.Some? ==>
                due.value == (old(Pending())[0].when, old(Pending())[0].event) && Pending() == old(Pending())[1..]
    {
      PendingFacts();
      if heap == [] || heap[0].when > now {
        return None;
      }
      ghost var p := Pending();
      var e := PopRoot();
      due := Some((e.when, e.event));
      assert p == [p[0]] + p[1..];
      assert multiset(heap) == multiset(p[1..]);
      Settle(p[1..]);
    }

    /** Drop every pending event; handles keep counting. */
    method Clear()
      modifies this`heap
      ensures Valid() && Pending() == []
    {
      heap := [];
    }
  }
}

/** `heapq`: the array heap whose `_siftup` bubbles the hole down to a leaf and then sifts the
    item back up.  Everything is generic in the comparison `lt` the code performs; the `_max`
    variants of the source are the same routines with the comparison reversed.

    The comparison need not be an order: what it has to do is refine a strict weak order `ord` on
    the elements in question, `dom`.  By default it is that order itself, on everything. */
module Heapq {
  import opened Common

  /** A Python list, updated in place. */
  class List<T> {
    var xs: seq<T>

    constructor (xs: seq<T>)
      ensures this.xs == xs
    {
      this.xs := xs;
    }
  }

  ghost predicate WeakOrder<T(!new)>(lt: (T, T) -> bool) {
    && (forall x, y :: lt(x, y) ==> !lt(y, x))
    && (forall x, y, z :: !lt(x, y) && !lt(y, z) ==> !lt(x, z))
  }

  ghost function Everything<T>(): T -> bool { (x: T) => true }

  /** On `dom`, `lt` holds where `ord` does and never against it. */
  ghost predicate Refines<T(!new)>(lt: (T, T) -> bool, ord: (T, T) -> bool, dom: T -> bool) {
    && WeakOrder(ord)
    && forall x, y :: dom(x) && dom(y) ==> (ord(x, y) ==> lt(x, y)) && (lt(x, y) ==> !ord(y, x))
  }

  ghost predicate Within<T(!new)>(h: seq<T>, dom: T -> bool) {
    forall i :: 0 <= i < |h| ==> dom(h[i])
  }

  lemma InDomain<T(!new)>(h: seq<T>, dom: T -> bool, i: nat)
    requires Within(h, dom) && i < |h|
    ensures dom(h[i])
  {
  }

  lemma SameWithin<T(!new)>(h: seq<T>, h': seq<T>, dom: T -> bool)
    requires Within(h, dom) && multiset(h') == multiset(h)
    ensures Within(h', dom)
  {
    forall i | 0 <= i < |h'| ensures dom(h'[i]) { assert h'[i] in multiset(h); }
  }

  function Parent(i: nat): nat
    requires i > 0
  {
    (i - 1) / 2
  }

  /** The heap invariant on all edges whose parent is at or after `lo`. */
  predicate HeapFrom<T>(h: seq<T>, lt: (T, T) -> bool, lo: nat) {
    forall i :: 0 < i < |h| && lo <= Parent(i) ==> !lt(h[i], h[Parent(i)])
  }

  predicate IsHeap<T>(h: seq<T>, lt: (T, T) -> bool) { HeapFrom(h, lt, 0) }

  /** `p` lies in the subtree rooted at `a`. */
  predicate Below(a: nat, p: nat) {
    p == a || (p > a && Below(a, Parent(p)))
  }

  /** Heap on the edges from `lo` on, except the one above `pos`; the subtrees of `pos` also
      respect the parent of `pos`. */
  predicate ExceptAbove<T>(h: seq<T>, lt: (T, T) -> bool, lo: nat, pos: nat) {
    && (forall i :: 0 < i < |h| && i != pos && lo <= Parent(i) ==> !lt(h[i], h[Parent(i)]))
    && (forall i :: lo < pos && 0 < i < |h| && Parent(i) == pos ==> !lt(h[i], h[Parent(pos)]))
  }

  /** Heap on the edges from `lo` on, except those touching the hole `pos`. */
  predicate ExceptAround<T>(h: seq<T>, lt: (T, T) -> bool, lo: nat, pos: nat) {
    && (forall i :: 0 < i < |h| && i != pos && lo <= Parent(i) && Parent(i) != pos ==> !lt(h[i], h[Parent(i)]))
    && (forall i :: lo < pos && 0 < i < |h| && Parent(i) == pos ==> !lt(h[i], h[Parent(pos)]))
  }

  lemma SwapKeepsMultiset<T>(h: seq<T>, i: nat, j: nat)
    requires i < |h| && j < |h|
    ensures multiset(h[i := h[j]][j := h[i]]) == multiset(h)
  {
  }

  /** Moving the parent of `pos` down keeps all edges but the one above the new position. */
  lemma RiseKeeps<T(!new)>(h: seq<T>, lt: (T, T) -> bool, lo: nat, pos: nat)
    requires WeakOrder(lt) && lo < pos < |h| && Below(lo, pos)
    requires ExceptAbove(h, lt, lo, pos) && !lt(h[Parent(pos)], h[pos])
    ensures ExceptAbove(h[pos := h[Parent(pos)]][Parent(pos) := h[pos]], lt, lo, Parent(pos))
  {
    var p := Parent(pos);
    var v := h[pos := h[p]][p := h[pos]];
    forall i | 0 < i < |v| && i != p && lo <= Parent(i) ensures !lt(v[i], v[Parent(i)]) {
      if i != pos && Parent(i) != pos {
        assert !lt(h[i], h[Parent(i)]);
      }
    }
    forall i | lo < p && 0 < i < |v| && Parent(i) == p ensures !lt(v[i], v[Parent(p)]) {
      assert Below(lo, p) && Below(lo, Parent(p));
      assert !lt(h[p], h[Parent(p)]);
      assert i != pos ==> !lt(h[i], h[p]);
    }
  }

  /** Two elements, swapped unless they are strictly in order: even equal ones change places. */
  function PairHeap<T>(h: seq<T>, lt: (T, T) -> bool): seq<T>
    requires |h| == 2
  {
    if lt(h[0], h[1]) then h else [h[1], h[0]]
  }

  /** One turn of the loop in `_siftdown`, seen on the list with the item put into the hole. */
  lemma RiseStep<T(!new)>(h: seq<T>, lt: (T, T) -> bool, lo: nat, pos: nat, x: T, ord: (T, T) -> bool, dom: T -> bool)
    requires Refines(lt, ord, dom) && Within(h, dom) && dom(x) && lo < pos < |h| && Below(lo, pos)
    requires ExceptAbove(h[pos := x], ord, lo, pos) && lt(x, h[Parent(pos)])
    ensures var p := Parent(pos);
            var h' := h[pos := h[p]];
            && Below(lo, p) && lo <= p && h'[..lo] == h[..lo] && Within(h', dom)
            && multiset(h'[p := x]) == multiset(h[pos := x]) && ExceptAbove(h'[p := x], ord, lo, p)
  {
    var v, p := h[pos := x], Parent(pos);
    RiseKeeps(v, ord, lo, pos);
    SwapKeepsMultiset(v, pos, p);
    assert h[pos := h[p]][p := x] == v[pos := v[p]][p := v[pos]];
    assert Below(lo, p);
    hide ExceptAbove, WeakOrder;
  }

  lemma Settled<T(!new)>(h: seq<T>, lt: (T, T) -> bool, lo: nat, pos: nat, x: T, ord: (T, T) -> bool, dom: T -> bool)
    requires Refines(lt, ord, dom) && Within(h, dom) && dom(x)
    requires lo <= pos < |h| && Below(lo, pos) && ExceptAbove(h[pos := x], ord, lo, pos)
    requires pos > lo ==> !lt(x, h[Parent(pos)])
    ensures HeapFrom(h[pos := x], ord, lo) && h[pos := x][..lo] == h[..lo]
  {
  }

  /** `_siftdown`: the item rises from `pos0` past every parent that compares greater. */
  method Siftdown<T(!new)>(heap: List<T>, lt: (T, T) -> bool, startpos: nat, pos0: nat,
                           ghost ord: (T, T) -> bool := lt, ghost dom: T -> bool := Everything())
    requires Refines(lt, ord, dom) && Within(heap.xs, dom) && pos0 < |heap.xs| && Below(startpos, pos0)
    requires ExceptAbove(heap.xs, ord, startpos, pos0)
    modifies heap
    ensures HeapFrom(heap.xs, ord, startpos)
    ensures multiset(heap.xs) == old(multiset(heap.xs)) && |heap.xs| == old(|heap.xs|)
    ensures heap.xs[..startpos] == old(heap.xs[..startpos])
    ensures startpos == 0 < pos0 ==>
              || heap.xs[0] == old(heap.xs)[0]
              || (heap.xs[0] == old(heap.xs)[pos0] && lt(old(heap.xs)[pos0], old(heap.xs)[0]))
    ensures old(|heap.xs|) == 2 && startpos == 0 && pos0 == 1 ==>
              heap.xs == if lt(old(heap.xs)[1], old(heap.xs)[0]) then [old(heap.xs)[1], old(heap.xs)[0]]
                         else old(heap.xs)
  {
    var pos := pos0;
    var newitem := heap.xs[pos];
    assert heap.xs == heap.xs[pos := newitem];
    hide ExceptAbove, Below, HeapFrom, Refines, Within;
    assert dom(newitem) by { InDomain(heap.xs, dom, pos); }
    while pos > startpos
      invariant startpos <= pos < |heap.xs| == old(|heap.xs|) && Below(startpos, pos)
      invariant multiset(heap.xs[pos := newitem]) == old(multiset(heap.xs))
      invariant ExceptAbove(heap.xs[pos := newitem], ord, startpos, pos)
      invariant heap.xs[..startpos] == old(heap.xs[..startpos]) && Within(heap.xs, dom)
      invariant pos == pos0 ==> heap.xs == old(heap.xs)
      invariant 0 < pos ==> heap.xs[0] == old(heap.xs)[0]
      invariant 0 == pos < pos0 ==> lt(newitem, old(heap.xs)[0])
      invariant pos0 == 1 && pos == 0 ==> heap.xs == old(heap.xs)[1 := old(heap.xs)[0]]
    {
      var parentpos := (pos - 1) / 2;
      var parent := heap.xs[parentpos];
      if !lt(newitem, parent) { break; }
      RiseStep(heap.xs, lt, startpos, pos, newitem, ord, dom);
      heap.xs := heap.xs[pos := parent];
      pos := parentpos;
    }
    Settled(heap.xs, lt, startpos, pos, newitem, ord, dom);
    heap.xs := heap.xs[pos := newitem];
  }

  /** Moving the smaller child of the hole up moves the hole to that child. */
  lemma SinkKeeps<T(!new)>(h: seq<T>, lt: (T, T) -> bool, lo: nat, pos: nat, c: nat)
    requires WeakOrder(lt) && lo <= pos < c < |h| && Parent(c) == pos && Below(lo, pos)
    requires ExceptAround(h, lt, lo, pos)
    requires forall i :: 0 < i < |h| && Parent(i) == pos ==> !lt(h[i], h[c])
    ensures ExceptAround(h[pos := h[c]], lt, lo, c) && Below(lo, c)
  {
    var v := h[pos := h[c]];
    forall i | 0 < i < |v| && i != c && lo <= Parent(i) && Parent(i) != c ensures !lt(v[i], v[Parent(i)]) {
      if i == pos {
        assert !lt(h[c], h[Parent(pos)]);
      } else if Parent(i) != pos {
        assert !lt(h[i], h[Parent(i)]);
      }
    }
  }

  lemma SinkMultiset<T>(h: seq<T>, pos: nat, c: nat, x: T)
    requires pos < |h| && c < |h| && pos != c
    ensures multiset(h[pos := h[c]][c := x]) == multiset(h[pos := x])
  {
    var v := h[pos := x];
    SwapKeepsMultiset(v, pos, c);
    assert h[pos := h[c]][c := x] == v[pos := v[c]][c := v[pos]];
  }

  /** The child `_siftup` moves up: the left one only if it is strictly smaller. */
  function SmallerChild<T>(h: seq<T>, lt: (T, T) -> bool, pos: nat): nat
    requires 2 * pos + 1 < |h|
  {
    var c := 2 * pos + 1;
    if c + 1 < |h| && !lt(h[c], h[c + 1]) then c + 1 else c
  }

  lemma BubbleKeeps<T(!new)>(h: seq<T>, lt: (T, T) -> bool, lo: nat, pos: nat, x: T,
                             ord: (T, T) -> bool, dom: T -> bool)
    requires Refines(lt, ord, dom) && Within(h, dom)
    requires lo <= pos && 2 * pos + 1 < |h| && Below(lo, pos) && ExceptAround(h, ord, lo, pos)
    ensures var c := SmallerChild(h, lt, pos);
            && pos < c < |h| && Within(h[pos := h[c]], dom) && h[pos := h[c]][..lo] == h[..lo]
            && Below(lo, c) && ExceptAround(h[pos := h[c]], ord, lo, c)
            && multiset(h[pos := h[c]][c := x]) == multiset(h[pos := x])
  {
    var c := SmallerChild(h, lt, pos);
    assert !ord(h[c], h[c]);
    SinkKeeps(h, ord, lo, pos, c);
    SinkMultiset(h, pos, c, x);
  }

  /** One turn of the loop in `_siftup`: move the smaller child of the hole up. */
  method BubbleOnce<T(!new)>(heap: List<T>, lt: (T, T) -> bool, ghost lo: nat, pos: nat, ghost x: T,
                             ghost ord: (T, T) -> bool, ghost dom: T -> bool)
    returns (childpos: nat)
    requires Refines(lt, ord, dom) && Within(heap.xs, dom)
    requires lo <= pos && 2 * pos + 1 < |heap.xs| && Below(lo, pos) && ExceptAround(heap.xs, ord, lo, pos)
    modifies heap
    ensures pos < childpos < |heap.xs| == old(|heap.xs|) && Below(lo, childpos)
    ensures ExceptAround(heap.xs, ord, lo, childpos) && Within(heap.xs, dom)
    ensures multiset(heap.xs[childpos := x]) == old(multiset(heap.xs[pos := x]))
    ensures heap.xs[..lo] == old(heap.xs[..lo])
    ensures heap.xs == old(heap.xs)[pos := old(heap.xs)[childpos]]
  {
    hide Refines, Within, ExceptAround, Below;
    childpos := 2 * pos + 1;
    var rightpos := childpos + 1;
    if rightpos < |heap.xs| && !lt(heap.xs[childpos], heap.xs[rightpos]) {
      childpos := rightpos;
    }
    assert childpos == SmallerChild(heap.xs, lt, pos);
    BubbleKeeps(heap.xs, lt, lo, pos, x, ord, dom);
    hide SmallerChild;
    heap.xs := heap.xs[pos := heap.xs[childpos]];
  }

  lemma StartHole<T(!new)>(h: seq<T>, lt: (T, T) -> bool, lo: nat)
    requires HeapFrom(h, lt, lo + 1)
    ensures ExceptAround(h, lt, lo, lo) && Below(lo, lo)
  {
  }

  /** Putting the item into a hole at a leaf leaves only the edge above it open. */
  lemma FillHole<T(!new)>(h: seq<T>, lt: (T, T) -> bool, lo: nat, pos: nat, x: T)
    requires pos < |h| <= 2 * pos + 1 && ExceptAround(h, lt, lo, pos)
    ensures ExceptAbove(h[pos := x], lt, lo, pos)
  {
  }

  /** `_siftup`: bubble the smaller child up until the hole is a leaf, then let `_siftdown`
      bring the item back up to its place. */
  method Siftup<T(!new)>(heap: List<T>, lt: (T, T) -> bool, startpos: nat,
                         ghost ord: (T, T) -> bool := lt, ghost dom: T -> bool := Everything())
    requires Refines(lt, ord, dom) && Within(heap.xs, dom)
    requires startpos < |heap.xs| && HeapFrom(heap.xs, ord, startpos + 1)
    modifies heap
    ensures HeapFrom(heap.xs, ord, startpos)
    ensures multiset(heap.xs) == old(multiset(heap.xs)) && |heap.xs| == old(|heap.xs|)
    ensures heap.xs[..startpos] == old(heap.xs[..startpos])
    ensures old(|heap.xs|) == 2 && startpos == 0 ==> heap.xs == PairHeap(old(heap.xs), lt)
  {
    var newitem := heap.xs[startpos];
    var pos := startpos;
    StartHole(heap.xs, ord, startpos);
    hide Refines, HeapFrom, Below, ExceptAround;
    while 2 * pos + 1 < |heap.xs|
      invariant startpos <= pos < |heap.xs| == old(|heap.xs|) && Below(startpos, pos)
      invariant ExceptAround(heap.xs, ord, startpos, pos) && Within(heap.xs, dom)
      invariant multiset(heap.xs[pos := newitem]) == old(multiset(heap.xs))
      invariant heap.xs[..startpos] == old(heap.xs[..startpos])
      invariant pos == startpos ==> heap.xs == old(heap.xs)
      invariant old(|heap.xs|) == 2 && startpos == 0 && pos == 1 ==> heap.xs[0] == old(heap.xs)[1]
      decreases |heap.xs| - pos
    {
      pos := BubbleOnce(heap, lt, startpos, pos, newitem, ord, dom);
    }
    FillHole(heap.xs, ord, startpos, pos, newitem);
    heap.xs := heap.xs[pos := newitem];
    Siftdown(heap, lt, startpos, pos, ord, dom);
  }

  /** The root of a heap is a least element. */
  lemma {:induction false} RootIsLeast<T(!new)>(h: seq<T>, lt: (T, T) -> bool, i: nat)
    requires WeakOrder(lt) && IsHeap(h, lt) && i < |h|
    ensures !lt(h[i], h[0])
  {
    if i > 0 {
      RootIsLeast(h, lt, Parent(i));
      assert !lt(h[i], h[Parent(i)]);
    }
  }

  lemma BelowZero(p: nat)
    ensures Below(0, p)
  {
  }

  /** The item becomes the root exactly when it is less than the root. */
  method Heappush<T(!new)>(heap: List<T>, lt: (T, T) -> bool, item: T)
    requires WeakOrder(lt) && IsHeap(heap.xs, lt)
    modifies heap
    ensures IsHeap(heap.xs, lt)
    ensures multiset(heap.xs) == old(multiset(heap.xs)) + multiset{item}
    ensures |heap.xs| == old(|heap.xs|) + 1
    ensures heap.xs[0] == if old(heap.xs) == [] || lt(item, old(heap.xs)[0]) then item else old(heap.xs)[0]
  {
    heap.xs := heap.xs + [item];
    BelowZero(|heap.xs| - 1);
    Siftdown(heap, lt, 0, |heap.xs| - 1);
    assert item in multiset(heap.xs);
    ghost var i :| 0 <= i < |heap.xs| && heap.xs[i] == item;
    RootIsLeast(heap.xs, lt, i);
  }

  /** The last element put in the place of the root. */
  lemma LastToFirst<T(!new)>(h: seq<T>, ord: (T, T) -> bool, dom: T -> bool)
    requires |h| > 1 && IsHeap(h, ord) && Within(h, dom)
    ensures var v := h[..|h| - 1][0 := h[|h| - 1]];
            multiset(v) + multiset{h[0]} == multiset(h) && HeapFrom(v, ord, 1) && Within(v, dom)
  {
    var n := |h| - 1;
    var v := h[..n][0 := h[n]];
    assert h == [h[0]] + h[1..n] + [h[n]];
    assert v == [h[n]] + h[1..n];
    assert multiset(h) == multiset{h[0]} + multiset(h[1..n]) + multiset{h[n]};
  }

  /** None is the IndexError of an empty list. */
  method Heappop<T(!new)>(heap: List<T>, lt: (T, T) -> bool,
                          ghost ord: (T, T) -> bool := lt, ghost dom: T -> bool := Everything())
    returns (r: Option<T>)
    requires Refines(lt, ord, dom) && Within(heap.xs, dom) && IsHeap(heap.xs, ord)
    modifies heap
    ensures IsHeap(heap.xs, ord)
    ensures r.None? <==> old(heap.xs) == []
    ensures r.None? ==> heap.xs == []
    ensures r.Some? ==> r.value == old(heap.xs)[0]
    ensures r.Some? ==> multiset(heap.xs) + multiset{r.value} == old(multiset(heap.xs))
    ensures r.Some? ==> |heap.xs| + 1 == old(|heap.xs|)
    ensures r.Some? ==> forall i :: 0 <= i < old(|heap.xs|) ==> !ord(old(heap.xs)[i], r.value)
  {
    if |heap.xs| == 0 { return None; }
    forall i | 0 <= i < |heap.xs| ensures !ord(heap.xs[i], heap.xs[0]) { RootIsLeast(heap.xs, ord, i); }
    ghost var was := heap.xs;
    var n := |heap.xs| - 1;
    var lastelt := heap.xs[n];
    heap.xs := heap.xs[..n];
    assert was == heap.xs + [lastelt];
    if heap.xs == [] { return Some(lastelt); }
    var returnitem := heap.xs[0];
    LastToFirst(was, ord, dom);
    hide HeapFrom, Refines, Within;
    heap.xs := heap.xs[0 := lastelt];
    Siftup(heap, lt, 0, ord, dom);
    return Some(returnitem);
  }

  /** An item put in the place of the root. */
  lemma ItemToFirst<T(!new)>(h: seq<T>, ord: (T, T) -> bool, dom: T -> bool, item: T)
    requires h != [] && HeapFrom(h, ord, 1) && Within(h, dom) && dom(item)
    ensures var v := h[0 := item];
            multiset(v) == multiset(h) - multiset{h[0]} + multiset{item} && HeapFrom(v, ord, 1) && Within(v, dom)
  {
    assert h == [h[0]] + h[1..];
    assert h[0 := item] == [item] + h[1..];
  }

  /** Only the edges below the root need hold: callers may have changed the root in place.
      None is the IndexError of an empty list. */
  method Heapreplace<T(!new)>(heap: List<T>, lt: (T, T) -> bool, item: T,
                              ghost ord: (T, T) -> bool := lt, ghost dom: T -> bool := Everything())
    returns (r: Option<T>)
    requires Refines(lt, ord, dom) && Within(heap.xs, dom) && dom(item) && HeapFrom(heap.xs, ord, 1)
    modifies heap
    ensures IsHeap(heap.xs, ord) && |heap.xs| == old(|heap.xs|)
    ensures r == if old(heap.xs) == [] then None else Some(old(heap.xs)[0])
    ensures r.Some? ==> multiset(heap.xs) == old(multiset(heap.xs)) - multiset{r.value} + multiset{item}
  {
    if heap.xs == [] { return None; }
    r := Some(heap.xs[0]);
    ItemToFirst(heap.xs, ord, dom, item);
    hide HeapFrom, Refines, Within;
    heap.xs := heap.xs[0 := item];
    Siftup(heap, lt, 0, ord, dom);
  }

  /** `heappushpop`: the root if it is less than the item, else the item; either way a least
      element of the heap and the item, and the rest stays. */
  method Heappushpop<T(!new)>(heap: List<T>, lt: (T, T) -> bool, item: T) returns (r: T)
    requires WeakOrder(lt) && IsHeap(heap.xs, lt)
    modifies heap
    ensures IsHeap(heap.xs, lt) && |heap.xs| == old(|heap.xs|)
    ensures multiset(heap.xs) + multiset{r} == old(multiset(heap.xs)) + multiset{item}
    ensures !lt(item, r) && forall i :: 0 <= i < old(|heap.xs|) ==> !lt(old(heap.xs)[i], r)
    ensures r == if old(heap.xs) != [] && lt(old(heap.xs)[0], item) then old(heap.xs)[0] else item
  {
    forall i | 0 <= i < |heap.xs| ensures !lt(heap.xs[i], heap.xs[0]) { RootIsLeast(heap.xs, lt, i); }
    r := item;
    if heap.xs != [] && lt(heap.xs[0], item) {
      r := heap.xs[0];
      assert heap.xs == [r] + heap.xs[1..];
      heap.xs := heap.xs[0 := item];
      assert heap.xs == [item] + heap.xs[1..];
      Siftup(heap, lt, 0);
    }
  }

  method Heapify<T(!new)>(x: List<T>, lt: (T, T) -> bool,
                          ghost ord: (T, T) -> bool := lt, ghost dom: T -> bool := Everything())
    requires Refines(lt, ord, dom) && Within(x.xs, dom)
    modifies x
    ensures IsHeap(x.xs, ord) && multiset(x.xs) == old(multiset(x.xs)) && |x.xs| == old(|x.xs|)
    ensures old(|x.xs|) == 2 ==> x.xs == PairHeap(old(x.xs), lt)
  {
    var i := |x.xs| / 2;
    while i > 0
      invariant 0 <= i <= |x.xs| == old(|x.xs|)
      invariant HeapFrom(x.xs, ord, i) && multiset(x.xs) == old(multiset(x.xs))
      invariant old(|x.xs|) == 2 ==> i <= 1 && x.xs == if i == 1 then old(x.xs) else PairHeap(old(x.xs), lt)
    {
      SameWithin(old(x.xs), x.xs, dom);
      i := i - 1;
      Siftup(x, lt, i, ord, dom);
    }
  }
}

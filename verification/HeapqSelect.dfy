/** Sorting through the heap: repeated `heappop`, and `nsmallest` / `nlargest` without a key. */
module HeapqSelect {
  import opened Common
  import opened Heapq

  predicate Sorted<T>(s: seq<T>, lt: (T, T) -> bool) {
    forall i, j :: 0 <= i < j < |s| ==> !lt(s[j], s[i])
  }

  /** Elements of `s` that compare neither way are equal. */
  predicate TiesEqual<T(==)>(s: seq<T>, lt: (T, T) -> bool) {
    forall i, j :: 0 <= i < |s| && 0 <= j < |s| && !lt(s[i], s[j]) && !lt(s[j], s[i]) ==> s[i] == s[j]
  }

  function Reverse<T>(lt: (T, T) -> bool): (T, T) -> bool { (x, y) => lt(y, x) }

  lemma ReverseOrder<T(!new)>(lt: (T, T) -> bool)
    requires WeakOrder(lt)
    ensures WeakOrder(Reverse(lt))
  {
  }

  function Insert<T>(x: T, s: seq<T>, lt: (T, T) -> bool): seq<T> {
    if s == [] || lt(x, s[0]) then [x] + s else [s[0]] + Insert(x, s[1..], lt)
  }

  /** The reference: insertion sort. */
  function Sort<T>(s: seq<T>, lt: (T, T) -> bool): seq<T> {
    if s == [] then [] else Insert(s[|s| - 1], Sort(s[..|s| - 1], lt), lt)
  }

  lemma SortedCons<T>(x: T, s: seq<T>, lt: (T, T) -> bool)
    requires Sorted(s, lt) && forall j :: 0 <= j < |s| ==> !lt(s[j], x)
    ensures Sorted([x] + s, lt)
  {
  }

  lemma {:induction false} InsertSorted<T(!new)>(x: T, s: seq<T>, lt: (T, T) -> bool)
    requires WeakOrder(lt) && Sorted(s, lt)
    ensures Sorted(Insert(x, s, lt), lt) && multiset(Insert(x, s, lt)) == multiset(s) + multiset{x}
  {
    if s != [] && !lt(x, s[0]) {
      assert Sorted(s[1..], lt);
      InsertSorted(x, s[1..], lt);
      assert s == [s[0]] + s[1..];
      var r := Insert(x, s[1..], lt);
      forall j | 0 <= j < |r| ensures !lt(r[j], s[0]) {
        assert r[j] in multiset(r);
        assert r[j] == x || r[j] in s[1..];
      }
      hide Sorted, WeakOrder;
      SortedCons(s[0], r, lt);
    } else if s != [] {
      assert forall j :: 0 <= j < |s| ==> !lt(s[j], x);
      SortedCons(x, s, lt);
    }
  }

  lemma {:induction false} SortSorts<T(!new)>(s: seq<T>, lt: (T, T) -> bool)
    requires WeakOrder(lt)
    ensures Sorted(Sort(s, lt), lt) && multiset(Sort(s, lt)) == multiset(s)
  {
    if s != [] {
      var n := |s| - 1;
      hide Sorted, WeakOrder, Insert;
      SortSorts(s[..n], lt);
      InsertSorted(s[n], Sort(s[..n], lt), lt);
      assert s == s[..n] + [s[n]];
    }
  }

  lemma FirstLeast<T>(a: seq<T>, x: T, lt: (T, T) -> bool)
    requires Sorted(a, lt) && x in a
    ensures x == a[0] || !lt(x, a[0])
  {
  }

  lemma TiesAt<T>(a: seq<T>, x: T, y: T, lt: (T, T) -> bool)
    requires TiesEqual(a, lt) && x in a && y in a && !lt(x, y) && !lt(y, x)
    ensures x == y
  {
  }

  lemma WithoutFirst<T>(a: seq<T>, b: seq<T>)
    requires a != [] && b != [] && a[0] == b[0] && multiset(a) == multiset(b)
    ensures multiset(a[1..]) == multiset(b[1..])
  {
    assert a == [a[0]] + a[1..] && b == [b[0]] + b[1..];
    assert multiset(a[1..]) == multiset(a) - multiset{a[0]};
  }

  lemma SameFirst<T(!new)>(a: seq<T>, b: seq<T>, lt: (T, T) -> bool)
    requires Sorted(a, lt) && Sorted(b, lt) && multiset(a) == multiset(b) && TiesEqual(a, lt)
    ensures |a| == |b|
    ensures a != [] ==> a[0] == b[0] && multiset(a[1..]) == multiset(b[1..])
  {
    hide Sorted, TiesEqual;
    assert |a| == |multiset(a)| == |multiset(b)| == |b|;
    if a != [] {
      assert a[0] in multiset(b) && b[0] in multiset(a);
      FirstLeast(a, b[0], lt);
      FirstLeast(b, a[0], lt);
      if a[0] != b[0] { TiesAt(a, a[0], b[0], lt); }
      WithoutFirst(a, b);
    }
  }

  lemma SortedRest<T>(a: seq<T>, lt: (T, T) -> bool)
    requires a != []
    ensures Sorted(a, lt) ==> Sorted(a[1..], lt)
    ensures TiesEqual(a, lt) ==> TiesEqual(a[1..], lt)
  {
  }

  /** A sorted arrangement is unique when tied elements are equal. */
  lemma {:induction false} SortedUnique<T(!new)>(a: seq<T>, b: seq<T>, lt: (T, T) -> bool)
    requires Sorted(a, lt) && Sorted(b, lt) && multiset(a) == multiset(b) && TiesEqual(a, lt)
    ensures a == b
  {
    SameFirst(a, b, lt);
    hide TiesEqual, Sorted;
    if a != [] {
      assert a == [a[0]] + a[1..] && b == [b[0]] + b[1..];
      SortedRest(a, lt);
      SortedRest(b, lt);
      SortedUnique(a[1..], b[1..], lt);
    }
  }

  lemma SameRest<T>(s: multiset<T>, x: T, t: multiset<T>, y: T)
    requires s + multiset{x} == t + multiset{y}
    ensures s == t <==> x == y
  {
    assert s == (s + multiset{x}) - multiset{x} && t == (t + multiset{y}) - multiset{y};
    assert (s + multiset{x})[x] == s[x] + 1 && (t + multiset{y})[x] == t[x] + (if x == y then 1 else 0);
  }

  /** `heappushpop` against its definition, a push followed by a pop.  They hand back the same
      element and keep the same ones if and only if the root and the item are not tied, or equal. */
  method PushpopAgreesIff<T(!new)>(a: List<T>, b: List<T>, lt: (T, T) -> bool, item: T) returns (r: T, p: Option<T>)
    requires WeakOrder(lt) && a != b && a.xs == b.xs && IsHeap(a.xs, lt)
    modifies a, b
    ensures IsHeap(a.xs, lt) && IsHeap(b.xs, lt) && p.Some?
    ensures multiset(a.xs) + multiset{r} == multiset(b.xs) + multiset{p.value}
    ensures var h := old(a.xs);
            && (p == Some(r) <==> h == [] || lt(h[0], item) || lt(item, h[0]) || h[0] == item)
            && (multiset(a.xs) == multiset(b.xs) <==> h == [] || lt(h[0], item) || lt(item, h[0]) || h[0] == item)
  {
    r := Heappushpop(a, lt, item);
    Heappush(b, lt, item);
    p := Heappop(b, lt);
    SameRest(multiset(a.xs), r, multiset(b.xs), p.value);
  }

  /** The failing input: a heap of one element and an item tied with it. */
  method PushpopDiffers<T(!new)>(x: T, item: T, lt: (T, T) -> bool) returns (r: T, p: Option<T>)
    requires WeakOrder(lt) && !lt(x, item) && !lt(item, x) && x != item
    ensures r == item && p == Some(x)
  {
    var a := new List([x]);
    var b := new List([x]);
    r := Heappushpop(a, lt, item);
    Heappush(b, lt, item);
    p := Heappop(b, lt);
  }

  /** Popping a heap empty yields its elements in sorted order. */
  method PopAll<T(!new)>(heap: List<T>, lt: (T, T) -> bool) returns (out: seq<T>)
    requires WeakOrder(lt) && IsHeap(heap.xs, lt)
    modifies heap
    ensures Sorted(out, lt) && multiset(out) == old(multiset(heap.xs)) && heap.xs == []
  {
    out := [];
    while heap.xs != []
      invariant IsHeap(heap.xs, lt) && Sorted(out, lt)
      invariant multiset(out) + multiset(heap.xs) == old(multiset(heap.xs))
      invariant forall i, j :: 0 <= i < |out| && 0 <= j < |heap.xs| ==> !lt(heap.xs[j], out[i])
      decreases |heap.xs|
    {
      ghost var was := heap.xs;
      var r := Heappop(heap, lt);
      forall j | 0 <= j < |heap.xs| ensures heap.xs[j] in was { assert heap.xs[j] in multiset(was); }
      out := out + [r.value];
    }
  }

  /** The kept elements after one `_heappushpop` with the reversed order stay below the rest. */
  lemma KeepSmallest<T(!new)>(kept: seq<T>, elem: T, kept': seq<T>, r: T, dropped: seq<T>, lt: (T, T) -> bool)
    requires WeakOrder(lt)
    requires forall x, d :: x in kept && d in dropped ==> !lt(d, x)
    requires multiset(kept') + multiset{r} == multiset(kept) + multiset{elem}
    requires !lt(r, elem) && forall x :: x in kept ==> !lt(r, x)
    ensures forall x, d :: x in kept' && d in dropped + [r] ==> !lt(d, x)
  {
    forall x, d | x in kept' && d in dropped + [r] ensures !lt(d, x) {
      assert x in multiset(kept') + multiset{r};
      assert r in multiset(kept) + multiset{elem};
      if r !in kept {
        assert multiset(kept') == (multiset(kept') + multiset{r}) - multiset{r};
        assert multiset(kept) == (multiset(kept) + multiset{elem}) - multiset{elem};
        assert x in multiset(kept);
      }
    }
  }

  predicate MinLength(len: nat, n: int, size: nat) { len == if n < 0 then 0 else if n < size then n else size }

  /** One turn of the loop in `nsmallest`; `rest` collects what the heap gives back. */
  method Offer<T(!new)>(heap: List<T>, elem: T, lt: (T, T) -> bool, ghost rest: seq<T>) returns (ghost rest': seq<T>)
    requires WeakOrder(lt) && IsHeap(heap.xs, Reverse(lt))
    requires forall x, d :: x in heap.xs && d in rest ==> !lt(d, x)
    modifies heap
    ensures IsHeap(heap.xs, Reverse(lt)) && |heap.xs| == old(|heap.xs|)
    ensures multiset(heap.xs) + multiset(rest') == old(multiset(heap.xs)) + multiset(rest) + multiset{elem}
    ensures forall x, d :: x in heap.xs && d in rest' ==> !lt(d, x)
  {
    ReverseOrder(lt);
    ghost var kept := heap.xs;
    var dropped := Heappushpop(heap, Reverse(lt), elem);
    KeepSmallest(kept, elem, heap.xs, dropped, rest, lt);
    rest' := rest + [dropped];
    assert multiset(heap.xs) + multiset(rest') == (multiset(heap.xs) + multiset{dropped}) + multiset(rest);
  }

  lemma SortKeeps<T(!new)>(s: seq<T>, r: seq<T>, rest: seq<T>, lt: (T, T) -> bool)
    requires WeakOrder(lt) && r == Sort(s, lt)
    requires forall x, d :: x in s && d in rest ==> !lt(d, x)
    ensures Sorted(r, lt) && multiset(r) == multiset(s) && |r| == |s|
    ensures forall x, d :: x in r && d in rest ==> !lt(d, x)
  {
    SortSorts(s, lt);
    assert |r| == |multiset(r)| == |s|;
    forall x, d | x in r && d in rest ensures !lt(d, x) { assert x in multiset(s); }
  }

  lemma SameTies<T>(s: seq<T>, t: seq<T>, lt: (T, T) -> bool)
    requires TiesEqual(s, lt) && multiset(s) == multiset(t)
    ensures TiesEqual(t, lt)
  {
    forall i, j | 0 <= i < |t| && 0 <= j < |t| && !lt(t[i], t[j]) && !lt(t[j], t[i]) ensures t[i] == t[j] {
      assert t[i] in multiset(s) && t[j] in multiset(s);
    }
  }

  lemma FirstOfSorted<T(!new)>(r: seq<T>, rest: seq<T>, all: seq<T>, lt: (T, T) -> bool)
    requires WeakOrder(lt) && TiesEqual(all, lt) && Sorted(r, lt) && multiset(r) + multiset(rest) == multiset(all)
    requires forall x, d :: x in r && d in rest ==> !lt(d, x)
    ensures r <= Sort(all, lt)
  {
    SortSorts(rest, lt);
    SortSorts(all, lt);
    var s := Sort(rest, lt);
    forall j | 0 <= j < |s| ensures s[j] in rest { assert s[j] in multiset(s); }
    assert Sorted(r + s, lt);
    SameTies(all, Sort(all, lt), lt);
    SortedUnique(Sort(all, lt), r + s, lt);
  }

  /** `nsmallest(n, iterable)` without a key: sorted, and nothing left out is smaller; the first
      `n` of the sorted input when tied elements of it are equal.  `rest` is what was dropped. */
  method Nsmallest<T(!new)>(n: int, iterable: seq<T>, lt: (T, T) -> bool) returns (r: seq<T>, ghost rest: seq<T>)
    requires WeakOrder(lt)
    ensures MinLength(|r|, n, |iterable|) && Sorted(r, lt)
    ensures n >= 0 ==> multiset(r) + multiset(rest) == multiset(iterable)
    ensures forall x, d :: x in r && d in rest ==> !lt(d, x)
    ensures TiesEqual(iterable, lt) ==> r <= Sort(iterable, lt)
    ensures n == 2 == |iterable| ==> r == Sort(PairHeap(iterable, Reverse(lt)), lt)
  {
    if n < 0 { return [], []; }
    var k := if n < |iterable| then n else |iterable|;
    if k == 0 { return [], iterable; }
    var result := new List(iterable[..k]);
    ReverseOrder(lt);
    Heapify(result, Reverse(lt));
    rest := [];
    assert iterable[..|iterable|] == iterable;
    ghost var heapified := result.xs;
    for i := k to |iterable|
      invariant k == |iterable| ==> result.xs == heapified
      invariant |result.xs| == k && IsHeap(result.xs, Reverse(lt))
      invariant multiset(result.xs) + multiset(rest) == multiset(iterable[..i])
      invariant forall x, d :: x in result.xs && d in rest ==> !lt(d, x)
    {
      hide WeakOrder, Sort, TiesEqual, IsHeap;
      rest := Offer(result, iterable[i], lt, rest);
      assert iterable[..i + 1] == iterable[..i] + [iterable[i]];
    }
    assert iterable[..|iterable|] == iterable;
    r := Sort(result.xs, lt);
    SortKeeps(result.xs, r, rest, lt);
    if TiesEqual(iterable, lt) { FirstOfSorted(r, rest, iterable, lt); }
  }

  lemma SortTied<T(!new)>(a: T, b: T, lt: (T, T) -> bool)
    requires !lt(b, a)
    ensures Sort([a, b], lt) == [a, b]
  {
    assert [a, b][..1] == [a] && [a][..0] == [];
    assert Sort([a], lt) == Insert(a, Sort([], lt), lt) == [a];
    assert Insert(b, [a], lt) == [a] + Insert(b, [a][1..], lt);
  }

  /** With tied elements that differ the documented equivalence with `sorted(iterable)[:n]` fails:
      two elements that compare neither way come back in reverse. */
  method TiesReversed<T(!new)>(a: T, b: T, lt: (T, T) -> bool) returns (r: seq<T>)
    requires WeakOrder(lt) && !lt(a, b) && !lt(b, a)
    ensures r == [b, a] && Sort([a, b], lt) == [a, b]
  {
    ghost var rest;
    r, rest := Nsmallest(2, [a, b], lt);
    SortTied(a, b, lt);
    SortTied(b, a, lt);
  }

  lemma ReverseTies<T>(s: seq<T>, lt: (T, T) -> bool)
    ensures TiesEqual(s, lt) ==> TiesEqual(s, Reverse(lt))
  {
  }

  /** `nlargest(n, iterable)`: the same selection with the order reversed. */
  method Nlargest<T(!new)>(n: int, iterable: seq<T>, lt: (T, T) -> bool) returns (r: seq<T>, ghost rest: seq<T>)
    requires WeakOrder(lt)
    ensures MinLength(|r|, n, |iterable|)
    ensures forall i, j :: 0 <= i < j < |r| ==> !lt(r[i], r[j])
    ensures n >= 0 ==> multiset(r) + multiset(rest) == multiset(iterable)
    ensures forall x, d :: x in r && d in rest ==> !lt(x, d)
    ensures TiesEqual(iterable, lt) ==> r <= Sort(iterable, Reverse(lt))
  {
    ReverseOrder(lt);
    ReverseTies(iterable, lt);
    hide TiesEqual, WeakOrder, Sort;
    r, rest := Nsmallest(n, iterable, Reverse(lt));
    hide MinLength;
    assert forall x, d :: x in r && d in rest ==> !Reverse(lt)(d, x);
  }
}

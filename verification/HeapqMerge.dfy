/** `heapq.merge`: the heap of iterator heads whose root is changed in place, replaced, and
    popped when its iterator is exhausted.

    The heap compares the lists `[value, itnum, next]`, and that comparison asks for equality of
    the values first.  It is an order only where tied values are equal, so the output is always
    sorted, but stable only under that condition. */
module HeapqMerge {
  import opened Heapq

  /** An element with where it came from: element `idx` of input `itnum`. */
  datatype Entry<T> = Entry(v: T, itnum: nat, idx: nat)

  /** Comparison of the lists that the heap holds: the first place where they differ decides. */
  function EntryLt<T(==)>(lt: (T, T) -> bool): (Entry<T>, Entry<T>) -> bool {
    (a: Entry<T>, b: Entry<T>) => if a.v == b.v then a.itnum < b.itnum else lt(a.v, b.v)
  }

  /** The weak order that comparison refines: by value, and for a stable merge then by input. */
  function EntryOrder<T>(lt: (T, T) -> bool, stable: bool): (Entry<T>, Entry<T>) -> bool {
    (a: Entry<T>, b: Entry<T>) => lt(a.v, b.v) || (stable && !lt(b.v, a.v) && a.itnum < b.itnum)
  }

  predicate FromInput<T(==)>(e: Entry<T>, inputs: seq<seq<T>>) {
    e.itnum < |inputs| && e.idx < |inputs[e.itnum]| && e.v == inputs[e.itnum][e.idx]
  }

  ghost function From<T(!new)>(inputs: seq<seq<T>>): Entry<T> -> bool { (e: Entry<T>) => FromInput(e, inputs) }

  predicate SortedInputs<T>(inputs: seq<seq<T>>, lt: (T, T) -> bool) {
    forall i, j, k :: 0 <= i < |inputs| && 0 <= j < k < |inputs[i]| ==> !lt(inputs[i][k], inputs[i][j])
  }

  /** Elements of different inputs that compare neither way are equal. */
  ghost predicate TiesEqual<T(!new)>(inputs: seq<seq<T>>, lt: (T, T) -> bool) {
    forall a, b :: FromInput(a, inputs) && FromInput(b, inputs) && a.itnum != b.itnum ==>
      lt(a.v, b.v) || lt(b.v, a.v) || a.v == b.v
  }

  /** Sorted, and each input in its own order. */
  predicate InOrder<T>(a: Entry<T>, b: Entry<T>, lt: (T, T) -> bool) {
    !lt(b.v, a.v) && (a.itnum == b.itnum ==> a.idx < b.idx)
  }

  /** Tied elements in the order of their inputs. */
  predicate InputOrder<T>(a: Entry<T>, b: Entry<T>, lt: (T, T) -> bool) {
    !lt(a.v, b.v) ==> a.itnum <= b.itnum
  }

  predicate Ordered<T>(a: Entry<T>, b: Entry<T>, lt: (T, T) -> bool, stable: bool) {
    InOrder(a, b, lt) && (stable ==> InputOrder(a, b, lt))
  }

  lemma WeakEntryOrder<T(!new)>(lt: (T, T) -> bool, stable: bool)
    requires WeakOrder(lt)
    ensures WeakOrder(EntryOrder(lt, stable))
  {
    var L := EntryOrder(lt, stable);
    forall x, y ensures L(x, y) ==> !L(y, x) { assert lt(x.v, y.v) ==> !lt(y.v, x.v); }
    forall x, y, z ensures !L(x, y) && !L(y, z) ==> !L(x, z) {
      assert !lt(x.v, y.v) && !lt(y.v, z.v) ==> !lt(x.v, z.v);
      assert !lt(y.v, x.v) && !lt(x.v, z.v) ==> !lt(y.v, z.v);
      assert !lt(z.v, x.v) && !lt(x.v, y.v) ==> !lt(z.v, y.v);
    }
  }

  lemma EntryLtRefines<T(!new)>(inputs: seq<seq<T>>, lt: (T, T) -> bool, stable: bool)
    requires WeakOrder(lt) && (stable ==> TiesEqual(inputs, lt))
    ensures Refines(EntryLt(lt), EntryOrder(lt, stable), From(inputs))
  {
    WeakEntryOrder(lt, stable);
    var L, C := EntryOrder(lt, stable), EntryLt(lt);
    forall x, y | From(inputs)(x) && From(inputs)(y) ensures (L(x, y) ==> C(x, y)) && (C(x, y) ==> !L(y, x)) {
      assert FromInput(x, inputs) && FromInput(y, inputs);
      assert !lt(x.v, x.v);
    }
  }

  // ---------------------------------------------------------------- cursors

  predicate Cursor<T>(inputs: seq<seq<T>>, pos: seq<nat>) {
    |pos| == |inputs| && forall i :: 0 <= i < |inputs| ==> pos[i] <= |inputs[i]|
  }

  /** The heads of the inputs not exhausted yet. */
  ghost function Live<T>(inputs: seq<seq<T>>, pos: seq<nat>): set<Entry<T>>
    requires Cursor(inputs, pos)
  {
    set i | 0 <= i < |inputs| && pos[i] < |inputs[i]| :: Entry(inputs[i][pos[i]], i, pos[i])
  }

  ghost function Left<T>(inputs: seq<seq<T>>, pos: seq<nat>): nat
    requires Cursor(inputs, pos)
  {
    if inputs == [] then 0
    else
      var n := |inputs| - 1;
      Left(inputs[..n], pos[..n]) + |inputs[n]| - pos[n]
  }

  lemma {:induction false} LeftAdvance<T>(inputs: seq<seq<T>>, pos: seq<nat>, i: nat)
    requires Cursor(inputs, pos) && i < |inputs| && pos[i] < |inputs[i]|
    ensures Left(inputs, pos[i := pos[i] + 1]) == Left(inputs, pos) - 1
  {
    var n := |inputs| - 1;
    if i == n {
      assert pos[i := pos[i] + 1][..n] == pos[..n];
    } else {
      assert pos[i := pos[i] + 1][..n] == pos[..n][i := pos[i] + 1];
      LeftAdvance(inputs[..n], pos[..n], i);
    }
  }

  /** The live heads after the cursor of `e` moved on. */
  lemma LiveAdvance<T>(inputs: seq<seq<T>>, pos: seq<nat>, e: Entry<T>)
    requires Cursor(inputs, pos) && e in Live(inputs, pos)
    ensures var pos' := pos[e.itnum := e.idx + 1];
            && Cursor(inputs, pos')
            && Live(inputs, pos') == Live(inputs, pos) - {e}
                 + (if e.idx + 1 < |inputs[e.itnum]|
                    then {Entry(inputs[e.itnum][e.idx + 1], e.itnum, e.idx + 1)} else {})
            && (e.idx + 1 < |inputs[e.itnum]| ==>
                  Entry(inputs[e.itnum][e.idx + 1], e.itnum, e.idx + 1) !in Live(inputs, pos))
  {
    var pos' := pos[e.itnum := e.idx + 1];
    forall x | x in Live(inputs, pos) && x != e ensures x in Live(inputs, pos') { assert x.itnum != e.itnum; }
  }

  lemma LiveFrom<T(!new)>(h: seq<Entry<T>>, inputs: seq<seq<T>>, pos: seq<nat>)
    requires Cursor(inputs, pos) && multiset(h) == multiset(Live(inputs, pos))
    ensures Within(h, From(inputs))
  {
    forall i | 0 <= i < |h| ensures From(inputs)(h[i]) {
      assert h[i] in multiset(h);
      assert h[i] in Live(inputs, pos);
    }
  }

  // ---------------------------------------------------------------- the output

  /** What has been yielded: exactly the elements before the cursor, in order, and before every
      element still to come. */
  ghost predicate Yielded<T(!new)>(out: seq<Entry<T>>, inputs: seq<seq<T>>, pos: seq<nat>,
                                   lt: (T, T) -> bool, stable: bool)
    requires Cursor(inputs, pos)
  {
    && (forall e :: e in out <==> FromInput(e, inputs) && e.idx < pos[e.itnum])
    && (forall a, b :: 0 <= a < b < |out| ==> Ordered(out[a], out[b], lt, stable))
    && (forall a, e :: a in out && e in Live(inputs, pos) ==> Ordered(a, e, lt, stable))
  }

  lemma OrderedThen<T(!new)>(a: Entry<T>, e: Entry<T>, x: Entry<T>, lt: (T, T) -> bool, stable: bool)
    requires WeakOrder(lt) && Ordered(a, e, lt, stable) && !lt(x.v, e.v) && x.itnum == e.itnum && e.idx < x.idx
    ensures Ordered(a, x, lt, stable)
  {
    assert !lt(x.v, e.v) && !lt(e.v, a.v) ==> !lt(x.v, a.v);
    assert !lt(a.v, x.v) && !lt(x.v, e.v) ==> !lt(a.v, e.v);
  }

  lemma HeadFirst<T(!new)>(inputs: seq<seq<T>>, pos: seq<nat>, lt: (T, T) -> bool, stable: bool,
                           e: Entry<T>, x: Entry<T>)
    requires SortedInputs(inputs, lt) && Cursor(inputs, pos) && e in Live(inputs, pos)
    requires forall y :: y in Live(inputs, pos) ==> !EntryOrder(lt, stable)(y, e)
    requires x in Live(inputs, pos[e.itnum := e.idx + 1])
    ensures Ordered(e, x, lt, stable)
  {
    if x.itnum == e.itnum {
      assert !lt(inputs[x.itnum][x.idx], inputs[e.itnum][e.idx]);
    } else {
      assert x in Live(inputs, pos);
      assert !EntryOrder(lt, stable)(x, e);
    }
  }

  /** Yielding the least head and moving its cursor on. */
  lemma YieldHead<T(!new)>(out: seq<Entry<T>>, inputs: seq<seq<T>>, pos: seq<nat>, lt: (T, T) -> bool, stable: bool,
                           e: Entry<T>)
    requires WeakOrder(lt) && SortedInputs(inputs, lt) && Cursor(inputs, pos)
    requires Yielded(out, inputs, pos, lt, stable) && e in Live(inputs, pos)
    requires forall x :: x in Live(inputs, pos) ==> !EntryOrder(lt, stable)(x, e)
    ensures var pos' := pos[e.itnum := e.idx + 1];
            Cursor(inputs, pos') && Yielded(out + [e], inputs, pos', lt, stable)
            && Left(inputs, pos') < Left(inputs, pos)
  {
    var pos' := pos[e.itnum := e.idx + 1];
    LeftAdvance(inputs, pos, e.itnum);
    hide WeakOrder, Ordered, Left;
    forall x ensures x in out + [e] <==> FromInput(x, inputs) && x.idx < pos'[x.itnum] {
      assert FromInput(x, inputs) && x.itnum == e.itnum && x.idx == e.idx ==> x == e;
    }
    forall a, x | a in out + [e] && x in Live(inputs, pos') ensures Ordered(a, x, lt, stable) {
      HeadFirst(inputs, pos, lt, stable, e, x);
      if a != e {
        assert Ordered(a, e, lt, stable);
        if x.itnum == e.itnum {
          assert !lt(inputs[x.itnum][x.idx], inputs[e.itnum][e.idx]);
          OrderedThen(a, e, x, lt, stable);
        } else {
          assert x in Live(inputs, pos);
        }
      }
    }
  }

  // ---------------------------------------------------------------- the heap

  ghost predicate Holds<T(!new)>(h: seq<Entry<T>>, inputs: seq<seq<T>>, pos: seq<nat>, lt: (T, T) -> bool, stable: bool)
    requires Cursor(inputs, pos)
  {
    IsHeap(h, EntryOrder(lt, stable)) && multiset(h) == multiset(Live(inputs, pos))
  }

  /** The first elements of the first `n` inputs. */
  function Firsts<T>(inputs: seq<seq<T>>, n: nat): seq<Entry<T>>
    requires n <= |inputs|
  {
    if n == 0 then []
    else Firsts(inputs, n - 1) + (if |inputs[n - 1]| == 0 then [] else [Entry(inputs[n - 1][0], n - 1, 0)])
  }

  ghost function FirstSet<T>(inputs: seq<seq<T>>, n: nat): set<Entry<T>>
    requires n <= |inputs|
  {
    set i | 0 <= i < n && 0 < |inputs[i]| :: Entry(inputs[i][0], i, 0)
  }

  lemma FirstSetNext<T>(inputs: seq<seq<T>>, n: nat)
    requires n < |inputs|
    ensures |inputs[n]| == 0 ==> FirstSet(inputs, n + 1) == FirstSet(inputs, n)
    ensures |inputs[n]| > 0 ==>
              var e := Entry(inputs[n][0], n, 0);
              FirstSet(inputs, n + 1) == FirstSet(inputs, n) + {e} && e !in FirstSet(inputs, n)
  {
  }

  lemma FirstsNext<T>(inputs: seq<seq<T>>, n: nat)
    requires n < |inputs|
    ensures |inputs[n]| == 0 ==> Firsts(inputs, n + 1) == Firsts(inputs, n)
    ensures |inputs[n]| > 0 ==> Firsts(inputs, n + 1) == Firsts(inputs, n) + [Entry(inputs[n][0], n, 0)]
  {
  }

  lemma AddedMultiset<T>(s: seq<T>, live: set<T>, e: T)
    requires multiset(s) == multiset(live) && e !in live
    ensures multiset(s + [e]) == multiset(live + {e})
  {
  }

  lemma PoppedMultiset<T>(rest: multiset<T>, live: set<T>, e: T)
    requires rest + multiset{e} == multiset(live)
    ensures rest == multiset(live - {e})
  {
    assert rest == multiset(live) - multiset{e};
  }

  lemma {:induction false} FirstsAreHeads<T>(inputs: seq<seq<T>>, n: nat)
    requires n <= |inputs|
    ensures multiset(Firsts(inputs, n)) == multiset(FirstSet(inputs, n))
  {
    if n > 0 {
      hide Firsts, FirstSet;
      var m := n - 1;
      FirstsAreHeads(inputs, m);
      FirstSetNext(inputs, m);
      FirstsNext(inputs, m);
      if |inputs[m]| > 0 {
        AddedMultiset(Firsts(inputs, m), FirstSet(inputs, m), Entry(inputs[m][0], m, 0));
      }
    }
  }

  lemma StartLive<T>(inputs: seq<seq<T>>, pos: seq<nat>)
    requires Cursor(inputs, pos) && forall i :: 0 <= i < |inputs| ==> pos[i] == 0
    ensures multiset(Firsts(inputs, |inputs|)) == multiset(Live(inputs, pos))
  {
    FirstsAreHeads(inputs, |inputs|);
    assert FirstSet(inputs, |inputs|) == Live(inputs, pos);
  }

  /** The heads of two nonempty inputs. */
  predicate TwoInputs<T>(inputs: seq<seq<T>>) { |inputs| == 2 && |inputs[0]| > 0 && |inputs[1]| > 0 }

  function TwoHeads<T>(inputs: seq<seq<T>>): seq<Entry<T>>
    requires TwoInputs(inputs)
  {
    [Entry(inputs[0][0], 0, 0), Entry(inputs[1][0], 1, 0)]
  }

  /** The loop that fills the heap with the first element of every nonempty input. */
  method Heads<T(==,!new)>(inputs: seq<seq<T>>, lt: (T, T) -> bool, ghost stable: bool)
    returns (h: List<Entry<T>>, ghost pos: seq<nat>)
    requires WeakOrder(lt) && (stable ==> TiesEqual(inputs, lt))
    ensures fresh(h) && Cursor(inputs, pos) && Holds(h.xs, inputs, pos, lt, stable)
    ensures forall i :: 0 <= i < |inputs| ==> pos[i] == 0
    ensures TwoInputs(inputs) ==> h.xs == PairHeap(TwoHeads(inputs), EntryLt(lt))
  {
    h := new List([]);
    pos := seq(|inputs|, i => 0);
    hide WeakOrder, TiesEqual, Refines, Within;
    for itnum := 0 to |inputs|
      invariant h.xs == Firsts(inputs, itnum)
    {
      if inputs[itnum] != [] { h.xs := h.xs + [Entry(inputs[itnum][0], itnum, 0)]; }
    }
    StartLive(inputs, pos);
    EntryLtRefines(inputs, lt, stable);
    LiveFrom(h.xs, inputs, pos);
    assert TwoInputs(inputs) ==> h.xs == TwoHeads(inputs);
    Heapify(h, EntryLt(lt), EntryOrder(lt, stable), From(inputs));
  }

  lemma HeadIsLeast<T(!new)>(h: seq<Entry<T>>, inputs: seq<seq<T>>, pos: seq<nat>, lt: (T, T) -> bool, stable: bool)
    requires WeakOrder(lt) && Cursor(inputs, pos) && Holds(h, inputs, pos, lt, stable) && h != []
    ensures h[0] in Live(inputs, pos)
    ensures forall x :: x in Live(inputs, pos) ==> !EntryOrder(lt, stable)(x, h[0])
  {
    WeakEntryOrder(lt, stable);
    assert h[0] in multiset(h);
    forall x | x in Live(inputs, pos) ensures !EntryOrder(lt, stable)(x, h[0]) {
      assert x in multiset(h);
      var i :| 0 <= i < |h| && h[i] == x;
      RootIsLeast(h, EntryOrder(lt, stable), i);
    }
  }

  lemma ReplacedMultiset<T>(rest: multiset<Entry<T>>, root: Entry<T>, s: Entry<T>, live: set<Entry<T>>)
    requires multiset{root} + rest == multiset(live) && s !in live
    ensures multiset{s} + rest - multiset{s} + multiset{s} == multiset(live - {root} + {s})
  {
    assert rest == multiset(live) - multiset{root};
  }

  /** The root is changed in place before `heapreplace` is called with that same entry. */
  method ReplaceRoot<T(==,!new)>(h: List<Entry<T>>, lt: (T, T) -> bool, s: Entry<T>, ghost live: set<Entry<T>>,
                                 ghost ord: (Entry<T>, Entry<T>) -> bool, ghost dom: Entry<T> -> bool)
    requires Refines(EntryLt(lt), ord, dom) && Within(h.xs, dom) && dom(s)
    requires h.xs != [] && IsHeap(h.xs, ord) && multiset(h.xs) == multiset(live) && s !in live
    modifies h
    ensures IsHeap(h.xs, ord) && multiset(h.xs) == multiset(live - {old(h.xs)[0]} + {s})
  {
    ghost var root := h.xs[0];
    ghost var rest := h.xs[1..];
    assert h.xs == [root] + rest;
    hide Refines;
    h.xs := h.xs[0 := s];
    assert h.xs == [s] + rest;
    var _ := Heapreplace(h, EntryLt(lt), s, ord, dom);
    ReplacedMultiset(multiset(rest), root, s, live);
  }

  lemma EmptyLive<T>(xs: seq<Entry<T>>, live: set<Entry<T>>)
    requires multiset(xs) == multiset(live) && xs == []
    ensures live == {}
  {
    forall x ensures x !in live { assert x !in multiset(xs); }
  }

  lemma Exhausted<T>(inputs: seq<seq<T>>, pos: seq<nat>)
    requires Cursor(inputs, pos)
    ensures Live(inputs, pos) != {} || pos == seq(|inputs|, i requires 0 <= i < |inputs| => |inputs[i]|)
  {
    if i :| 0 <= i < |inputs| && pos[i] < |inputs[i]| {
      assert Entry(inputs[i][pos[i]], i, pos[i]) in Live(inputs, pos);
    }
  }

  /** After a yield: put the iterator's next element in the root's place and restore the heap,
      or pop the exhausted iterator. */
  method Advance<T(==,!new)>(h: List<Entry<T>>, inputs: seq<seq<T>>, ghost pos: seq<nat>, lt: (T, T) -> bool,
                             ghost stable: bool)
    returns (ghost pos': seq<nat>)
    requires WeakOrder(lt) && (stable ==> TiesEqual(inputs, lt))
    requires Cursor(inputs, pos) && Holds(h.xs, inputs, pos, lt, stable) && h.xs != [] && h.xs[0] in Live(inputs, pos)
    modifies h
    ensures pos' == pos[old(h.xs)[0].itnum := old(h.xs)[0].idx + 1]
    ensures Cursor(inputs, pos') && Holds(h.xs, inputs, pos', lt, stable)
  {
    var s := h.xs[0];
    LiveAdvance(inputs, pos, s);
    pos' := pos[s.itnum := s.idx + 1];
    EntryLtRefines(inputs, lt, stable);
    LiveFrom(h.xs, inputs, pos);
    ghost var ord := EntryOrder(lt, stable);
    assert s.idx + 1 < |inputs[s.itnum]| ==> From(inputs)(Entry(inputs[s.itnum][s.idx + 1], s.itnum, s.idx + 1));
    hide WeakOrder, TiesEqual, Refines, Within, IsHeap, EntryOrder, EntryLt, Live, From;
    if s.idx + 1 < |inputs[s.itnum]| {
      ReplaceRoot(h, lt, Entry(inputs[s.itnum][s.idx + 1], s.itnum, s.idx + 1), Live(inputs, pos), ord, From(inputs));
    } else {
      var _ := Heappop(h, EntryLt(lt), ord, From(inputs));
      PoppedMultiset(multiset(h.xs), Live(inputs, pos), s);
      assert Live(inputs, pos) - {s} + {} == Live(inputs, pos) - {s};
    }
  }

  /** One turn of the main loop. */
  method Turn<T(==,!new)>(h: List<Entry<T>>, inputs: seq<seq<T>>, ghost pos: seq<nat>, lt: (T, T) -> bool,
                          out: seq<Entry<T>>, ghost stable: bool)
    returns (out': seq<Entry<T>>, ghost pos': seq<nat>)
    requires WeakOrder(lt) && SortedInputs(inputs, lt) && Cursor(inputs, pos) && (stable ==> TiesEqual(inputs, lt))
    requires Holds(h.xs, inputs, pos, lt, stable) && h.xs != [] && Yielded(out, inputs, pos, lt, stable)
    modifies h
    ensures Cursor(inputs, pos') && Holds(h.xs, inputs, pos', lt, stable) && Yielded(out', inputs, pos', lt, stable)
    ensures Left(inputs, pos') < Left(inputs, pos) && out' == out + [old(h.xs)[0]]
  {
    HeadIsLeast(h.xs, inputs, pos, lt, stable);
    YieldHead(out, inputs, pos, lt, stable, h.xs[0]);
    hide Yielded, WeakOrder, SortedInputs, TiesEqual, Left;
    out' := out + [h.xs[0]];
    pos' := Advance(h, inputs, pos, lt, stable);
  }

  lemma OneLeft<T(!new)>(h: seq<Entry<T>>, inputs: seq<seq<T>>, pos: seq<nat>)
    requires Cursor(inputs, pos) && multiset(h) == multiset(Live(inputs, pos)) && |h| == 1
    ensures Live(inputs, pos) == {h[0]}
    ensures h[0].itnum < |inputs| && h[0].idx < |inputs[h[0].itnum]|
    ensures h[0] == Entry(inputs[h[0].itnum][h[0].idx], h[0].itnum, h[0].idx)
  {
    forall x ensures x in Live(inputs, pos) <==> x == h[0] { assert x in multiset(h) <==> x == h[0]; }
    assert h[0] in Live(inputs, pos);
  }

  lemma RestStep<T(!new)>(out: seq<Entry<T>>, inputs: seq<seq<T>>, pos: seq<nat>, lt: (T, T) -> bool, stable: bool,
                          x: Entry<T>)
    requires WeakOrder(lt) && SortedInputs(inputs, lt) && Cursor(inputs, pos)
    requires Yielded(out, inputs, pos, lt, stable) && Live(inputs, pos) == {x}
    ensures x.itnum < |inputs|
    ensures var pos' := pos[x.itnum := x.idx + 1];
            && Cursor(inputs, pos') && Yielded(out + [x], inputs, pos', lt, stable)
            && Live(inputs, pos') == if x.idx + 1 < |inputs[x.itnum]|
                                     then {Entry(inputs[x.itnum][x.idx + 1], x.itnum, x.idx + 1)} else {}
  {
    assert x in Live(inputs, pos);
    LiveAdvance(inputs, pos, x);
    assert !EntryOrder(lt, stable)(x, x);
    hide Yielded;
    YieldHead(out, inputs, pos, lt, stable, x);
  }

  /** The fast path: one iterator remains; yield its head, then the rest of it. */
  method YieldRest<T(!new)>(out: seq<Entry<T>>, inputs: seq<seq<T>>, ghost pos: seq<nat>, lt: (T, T) -> bool,
                            h: List<Entry<T>>, ghost stable: bool)
    returns (out': seq<Entry<T>>, ghost pos': seq<nat>)
    requires WeakOrder(lt) && SortedInputs(inputs, lt) && Cursor(inputs, pos)
    requires Yielded(out, inputs, pos, lt, stable) && Holds(h.xs, inputs, pos, lt, stable) && |h.xs| == 1
    ensures Cursor(inputs, pos') && Yielded(out', inputs, pos', lt, stable) && Live(inputs, pos') == {}
    ensures out + [h.xs[0]] <= out'
  {
    hide Yielded, WeakOrder, SortedInputs, IsHeap, Live, EntryOrder;
    OneLeft(h.xs, inputs, pos);
    out', pos' := out, pos;
    var i, j := h.xs[0].itnum, h.xs[0].idx;
    while j < |inputs[i]|
      invariant i < |inputs| && j <= |inputs[i]|
      invariant Cursor(inputs, pos') && Yielded(out', inputs, pos', lt, stable)
      invariant Live(inputs, pos') == if j < |inputs[i]| then {Entry(inputs[i][j], i, j)} else {}
      invariant if j == h.xs[0].idx then out' == out else out + [h.xs[0]] <= out'
    {
      var x := Entry(inputs[i][j], i, j);
      RestStep(out', inputs, pos', lt, stable, x);
      out' := out' + [x];
      pos' := pos'[i := j + 1];
      j := j + 1;
    }
  }

  lemma StartYield<T(!new)>(inputs: seq<seq<T>>, pos: seq<nat>, lt: (T, T) -> bool, stable: bool)
    requires Cursor(inputs, pos) && forall i :: 0 <= i < |inputs| ==> pos[i] == 0
    ensures Yielded([], inputs, pos, lt, stable)
  {
  }

  lemma HoldsNothing<T(!new)>(h: seq<Entry<T>>, inputs: seq<seq<T>>, pos: seq<nat>, lt: (T, T) -> bool, stable: bool)
    requires Cursor(inputs, pos) && Holds(h, inputs, pos, lt, stable) && h == []
    ensures Live(inputs, pos) == {}
  {
    EmptyLive(h, Live(inputs, pos));
  }

  lemma AllYielded<T(!new)>(out: seq<Entry<T>>, inputs: seq<seq<T>>, pos: seq<nat>, lt: (T, T) -> bool, stable: bool)
    requires Cursor(inputs, pos) && Yielded(out, inputs, pos, lt, stable) && Live(inputs, pos) == {}
    ensures forall e :: e in out <==> FromInput(e, inputs)
    ensures forall a, b :: 0 <= a < b < |out| ==> InOrder(out[a], out[b], lt)
    ensures stable ==> forall a, b :: 0 <= a < b < |out| ==> InputOrder(out[a], out[b], lt)
  {
    Exhausted(inputs, pos);
    forall a, b | 0 <= a < b < |out| ensures Ordered(out[a], out[b], lt, stable) {}
  }

  /** `merge` of sorted inputs yields every element of every input once, in sorted order and each
      input in its own order; tied elements come in the order of the inputs if all of them are
      equal. */
  method Merge<T(==,!new)>(inputs: seq<seq<T>>, lt: (T, T) -> bool) returns (out: seq<Entry<T>>)
    requires WeakOrder(lt) && SortedInputs(inputs, lt)
    ensures forall e :: e in out <==> FromInput(e, inputs)
    ensures forall a, b :: 0 <= a < b < |out| ==> InOrder(out[a], out[b], lt)
    ensures TiesEqual(inputs, lt) ==> forall a, b :: 0 <= a < b < |out| ==> InputOrder(out[a], out[b], lt)
    ensures TwoInputs(inputs) ==> out != [] && out[0] == PairHeap(TwoHeads(inputs), EntryLt(lt))[0]
  {
    var h;
    ghost var pos: seq<nat>;
    ghost var stable := TiesEqual(inputs, lt);
    h, pos := Heads(inputs, lt, stable);
    out := [];
    ghost var heads := h.xs;
    StartYield(inputs, pos, lt, stable);
    hide Yielded, Holds, TiesEqual, WeakOrder, SortedInputs, Left, Live, EntryLt;
    while |h.xs| > 1
      invariant fresh(h) && Cursor(inputs, pos) && Holds(h.xs, inputs, pos, lt, stable)
      invariant Yielded(out, inputs, pos, lt, stable)
      invariant if out == [] then h.xs == heads else heads != [] && out[0] == heads[0]
      decreases Left(inputs, pos)
    {
      out, pos := Turn(h, inputs, pos, lt, out, stable);
    }
    if h.xs != [] {
      out, pos := YieldRest(out, inputs, pos, lt, h, stable);
    } else {
      HoldsNothing(h.xs, inputs, pos, lt, stable);
    }
    AllYielded(out, inputs, pos, lt, stable);
  }

  // ---------------------------------------------------------------- where stability fails

  lemma {:induction false} DistinctCount<T>(s: seq<T>)
    requires forall p, q :: 0 <= p < q < |s| ==> s[p] != s[q]
    ensures |set e | e in s| == |s|
  {
    if s != [] {
      var n := |s| - 1;
      DistinctCount(s[..n]);
      assert (set e | e in s) == (set e | e in s[..n]) + {s[n]};
    }
  }

  lemma TwoEntries<T(!new)>(out: seq<Entry<T>>, x: Entry<T>, y: Entry<T>, lt: (T, T) -> bool)
    requires x != y && forall e :: e in out <==> e == x || e == y
    requires forall a, b :: 0 <= a < b < |out| ==> InOrder(out[a], out[b], lt)
    ensures out == [x, y] || out == [y, x]
  {
    forall p, q | 0 <= p < q < |out| ensures out[p] != out[q] { assert InOrder(out[p], out[q], lt); }
    DistinctCount(out);
    assert (set e | e in out) == {x, y};
    assert out[0] in out && out[1] in out && out[0] != out[1];
  }

  /** `merge([a], [b])` keeps the order of the inputs if and only if `a` and `b` are not tied, or
      equal; if they are tied and differ, `b` comes first. */
  method MergePairIff<T(==,!new)>(a: T, b: T, lt: (T, T) -> bool) returns (out: seq<Entry<T>>)
    requires WeakOrder(lt)
    ensures out == if lt(a, b) || a == b then [Entry(a, 0, 0), Entry(b, 1, 0)] else [Entry(b, 1, 0), Entry(a, 0, 0)]
    ensures InputOrder(out[0], out[1], lt) <==> lt(a, b) || lt(b, a) || a == b
  {
    var inputs := [[a], [b]];
    out := Merge(inputs, lt);
    ghost var x, y := Entry(a, 0, 0), Entry(b, 1, 0);
    forall e ensures e in out <==> e == x || e == y {
      assert e in out <==> FromInput(e, inputs);
    }
    TwoEntries(out, x, y, lt);
    assert TwoHeads(inputs) == [x, y];
  }
}

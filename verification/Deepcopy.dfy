/** `copy.deepcopy` of a cyclic graph of atoms, tuples, lists and dicts with a memo table.

    Objects live in a store and are named by their index, which plays the part of `id`.  A
    cycle can only close through a list or dict, so tuples have a nesting rank. */
module Deepcopy {
  import opened Common

  datatype Node =
    | Atom(v: int)
    | Tuple(elems: seq<nat>)
    | List(elems: seq<nat>)
    | Dict(keys: seq<int>, elems: seq<nat>)  // keys are atoms
  {
    predicate Mutable() { List? || Dict? }

    function Items(): seq<nat> { if Atom? then [] else elems }
  }

  /** Same kind, same atom or keys, same number of items. */
  predicate SameShape(a: Node, b: Node) {
    match a
    case Atom(v) => a == b
    case Tuple(_) => b.Tuple? && |a.elems| == |b.elems|
    case List(_) => b.List? && |a.elems| == |b.elems|
    case Dict(ks, _) => b.Dict? && ks == b.keys && |a.elems| == |b.elems|
  }

  /** References stay in the store; a dict has one value per key. */
  predicate Closed(g: seq<Node>) {
    forall x :: 0 <= x < |g| ==>
      && (forall i :: 0 <= i < |g[x].Items()| ==> g[x].Items()[i] < |g|)
      && (g[x].Dict? ==> |g[x].keys| == |g[x].elems|)
  }

  /** Closed, and a tuple inside a tuple has the smaller rank. */
  predicate WellFormed(g: seq<Node>, rank: seq<nat>) {
    && |rank| == |g| && Closed(g)
    && forall x, i :: 0 <= x < |g| && g[x].Tuple? && 0 <= i < |g[x].Items()| && g[g[x].Items()[i]].Tuple?
                      ==> rank[g[x].Items()[i]] < rank[x]
  }

  /** An atom, or a tuple with no list or dict anywhere in its nested tuples. */
  predicate Pure(g: seq<Node>, rank: seq<nat>, x: nat)
    requires WellFormed(g, rank) && x < |g|
    decreases rank[x]
  {
    g[x].Atom?
    || (g[x].Tuple? && forall i :: 0 <= i < |g[x].Items()| ==>
          var e := g[x].Items()[i];
          g[e].Atom? || (g[e].Tuple? && Pure(g, rank, e)))
  }

  lemma PureTuple(g: seq<Node>, rank: seq<nat>, x: nat)
    requires WellFormed(g, rank) && x < |g| && g[x].Tuple?
    ensures Pure(g, rank, x) <==> forall i :: 0 <= i < |g[x].Items()| ==> Pure(g, rank, g[x].Items()[i])
  {
  }

  // ---------------------------------------------------------------- the memo

  function Copy(memo: map<nat, nat>, x: nat): nat { if x in memo then memo[x] else x }

  /** The copy of `x` is settled: memoized, or `x` itself. */
  predicate Covered(g: seq<Node>, rank: seq<nat>, memo: map<nat, nat>, x: nat)
    requires WellFormed(g, rank)
  {
    x < |g| && (x in memo || Pure(g, rank, x))
  }

  /** The first `n` items of `x` are settled and stand, copied, in the copy of `x`. */
  predicate CopiedTo(g: seq<Node>, rank: seq<nat>, memo: map<nat, nat>, x: nat, items: seq<nat>)
    requires WellFormed(g, rank) && x < |g|
  {
    && |items| <= |g[x].Items()|
    && forall i :: 0 <= i < |items| ==>
         Covered(g, rank, memo, g[x].Items()[i]) && items[i] == Copy(memo, g[x].Items()[i])
  }

  /** The copy of `x` is finished. */
  predicate Done(g: seq<Node>, rank: seq<nat>, h: seq<Node>, memo: map<nat, nat>, x: nat)
    requires WellFormed(g, rank)
  {
    && x < |g| && x in memo && memo[x] < |h|
    && SameShape(g[x], h[memo[x]])
    && CopiedTo(g, rank, memo, x, h[memo[x]].Items())
  }

  /** The original is untouched; only impure originals are memoized, each to its own new object. */
  predicate MemoOk(g: seq<Node>, rank: seq<nat>, h: seq<Node>, memo: map<nat, nat>)
    requires WellFormed(g, rank)
  {
    && g <= h
    && (forall x :: x in memo ==> x < |g| && !Pure(g, rank, x) && |g| <= memo[x] < |h|)
    && (forall x, y :: x in memo && y in memo && memo[x] == memo[y] ==> x == y)
  }

  predicate Extends(memo: map<nat, nat>, memo': map<nat, nat>) {
    forall x :: x in memo ==> x in memo' && memo'[x] == memo[x]
  }

  /** Settled copies stay settled while the memo grows. */
  lemma CopiedToStays(g: seq<Node>, rank: seq<nat>, h: seq<Node>, memo: map<nat, nat>, memo': map<nat, nat>,
                      x: nat, items: seq<nat>)
    requires WellFormed(g, rank) && x < |g| && CopiedTo(g, rank, memo, x, items)
    requires Extends(memo, memo') && MemoOk(g, rank, h, memo')
    ensures CopiedTo(g, rank, memo', x, items)
  {
  }

  lemma CopiedToAppend(g: seq<Node>, rank: seq<nat>, memo: map<nat, nat>, x: nat, items: seq<nat>, c: nat)
    requires WellFormed(g, rank) && x < |g| && CopiedTo(g, rank, memo, x, items) && |items| < |g[x].Items()|
    requires Covered(g, rank, memo, g[x].Items()[|items|]) && c == Copy(memo, g[x].Items()[|items|])
    ensures CopiedTo(g, rank, memo, x, items + [c])
  {
  }

  lemma DoneStays(g: seq<Node>, rank: seq<nat>, h: seq<Node>, h': seq<Node>,
                  memo: map<nat, nat>, memo': map<nat, nat>, x: nat)
    requires WellFormed(g, rank) && Done(g, rank, h, memo, x)
    requires Extends(memo, memo') && MemoOk(g, rank, h', memo') && h[memo[x]] == h'[memo[x]]
    ensures Done(g, rank, h', memo', x)
  {
    CopiedToStays(g, rank, h', memo, memo', x, h[memo[x]].Items());
  }

  function Mutables(g: seq<Node>): set<nat> { set x: nat | x < |g| && g[x].Mutable() }

  /** Everything memoized since `before` is finished. */
  predicate NewDone(g: seq<Node>, rank: seq<nat>, h: seq<Node>, memo: map<nat, nat>, before: set<nat>)
    requires WellFormed(g, rank)
  {
    forall x :: x in memo && x !in before ==> Done(g, rank, h, memo, x)
  }

  lemma NewDoneStays(g: seq<Node>, rank: seq<nat>, h: seq<Node>, h': seq<Node>,
                     memo: map<nat, nat>, memo': map<nat, nat>, before: set<nat>)
    requires WellFormed(g, rank) && NewDone(g, rank, h, memo, before)
    requires Extends(memo, memo') && MemoOk(g, rank, h', memo') && h <= h'
    requires NewDone(g, rank, h', memo', memo.Keys)
    ensures NewDone(g, rank, h', memo', before)
  {
    forall x | x in memo' && x !in before ensures Done(g, rank, h', memo', x) {
      if x in memo { DoneStays(g, rank, h, h', memo, memo', x); }
    }
  }

  /** A list or dict like `source` holding just the items in `elems`. */
  function Filled(source: Node, elems: seq<nat>): Node
    requires source.Mutable() && |elems| <= |source.elems| && (source.Dict? ==> |source.keys| == |source.elems|)
  {
    if source.Dict? then Dict(source.keys[..|elems|], elems) else List(elems)
  }

  /** No item of a tuple changed exactly when the tuple is pure. */
  lemma TupleUnchanged(g: seq<Node>, rank: seq<nat>, h: seq<Node>, memo: map<nat, nat>, x: nat, copies: seq<nat>)
    requires WellFormed(g, rank) && MemoOk(g, rank, h, memo) && x < |g| && g[x].Tuple?
    requires |copies| == |g[x].Items()| && CopiedTo(g, rank, memo, x, copies)
    ensures copies == g[x].Items() <==> Pure(g, rank, x)
  {
    PureTuple(g, rank, x);
    if !Pure(g, rank, x) {
      var i :| 0 <= i < |copies| && !Pure(g, rank, g[x].Items()[i]);
      assert copies[i] != g[x].Items()[i];
    } else {
      assert forall i :: 0 <= i < |copies| ==> copies[i] == g[x].Items()[i];
    }
  }

  /** Writing into the copy of `x` disturbs no other finished copy. */
  lemma StoreKeepsDone(g: seq<Node>, rank: seq<nat>, h: seq<Node>, memo: map<nat, nat>, x: nat, n: Node,
                       before: set<nat>)
    requires WellFormed(g, rank) && MemoOk(g, rank, h, memo) && x in memo && x in before
    requires NewDone(g, rank, h, memo, before)
    ensures MemoOk(g, rank, h[memo[x] := n], memo) && NewDone(g, rank, h[memo[x] := n], memo, before)
  {
    hide CopiedTo, Pure;
    forall z | z in memo && z !in before ensures Done(g, rank, h[memo[x] := n], memo, z) {
      DoneStays(g, rank, h, h[memo[x] := n], memo, memo, z);
    }
  }

  /** A copy holding all its items is finished. */
  lemma FilledIsDone(g: seq<Node>, rank: seq<nat>, h: seq<Node>, memo: map<nat, nat>, x: nat, before: set<nat>)
    requires WellFormed(g, rank) && x < |g| && g[x].Mutable() && x in memo && memo[x] < |h|
    requires var n := h[memo[x]];
             |n.Items()| == |g[x].Items()| && n == Filled(g[x], n.Items()) && CopiedTo(g, rank, memo, x, n.Items())
    requires NewDone(g, rank, h, memo, before)
    ensures NewDone(g, rank, h, memo, before - {x})
  {
    hide CopiedTo;
    assert g[x].Dict? ==> g[x].keys[..|g[x].keys|] == g[x].keys;
  }

  class Copier {
    ghost const g: seq<Node>
    ghost const rank: seq<nat>
    var store: seq<Node>
    var memo: map<nat, nat>

    ghost predicate Valid()
      reads this
    {
      WellFormed(g, rank) && MemoOk(g, rank, store, memo)
    }

    constructor (store: seq<Node>, ghost rank: seq<nat>)
      requires WellFormed(store, rank)
      ensures g == store && this.store == store && this.rank == rank && memo == map[] && Valid()
    {
      this.g, this.rank := store, rank;
      this.store, this.memo := store, map[];
    }

    /** How deeply tuples nest below `x` without a list or dict in between. */
    ghost function Nesting(x: nat): nat
      requires WellFormed(g, rank) && x < |g|
    {
      if g[x].Tuple? then rank[x] + 1 else 0
    }

    /** `deepcopy(x, memo)`: settles `x`, touches no existing object and finishes whatever it
        memoizes.  Terminates because each list or dict is entered once and tuples nest. */
    method DeepCopy(x: nat) returns (y: nat)
      requires Valid() && x < |g|
      modifies this
      ensures Valid() && old(store) <= store && Extends(old(memo), memo)
      ensures Covered(g, rank, memo, x) && y == Copy(memo, x)
      ensures NewDone(g, rank, store, memo, old(memo.Keys))
      decreases Mutables(g) - memo.Keys, Nesting(x), 2
    {
      if x in memo { return memo[x]; }
      match store[x] {
        case Atom(_) => y := x;
        case Tuple(_) => y := DeepcopyTuple(x);
        case List(_) => y := DeepcopyMutable(x);
        case Dict(_, _) => y := DeepcopyMutable(x);
      }
    }

    /** The empty copy of `x` and its memo entry. */
    method StoreEmpty(x: nat) returns (y: nat)
      requires Valid() && x < |g| && g[x].Mutable() && x !in memo
      modifies this
      ensures Valid() && y == old(|store|) && store == old(store) + [Filled(g[x], [])]
      ensures memo == old(memo)[x := y] && CopiedTo(g, rank, memo, x, [])
      ensures NewDone(g, rank, store, memo, old(memo.Keys) + {x})
    {
      y := |store|;
      store := store + [Filled(store[x], [])];
      memo := memo[x := y];
    }

    /** `_deepcopy_list` and `_deepcopy_dict`: memoize the empty copy first, then fill it. */
    method DeepcopyMutable(x: nat) returns (y: nat)
      requires Valid() && x < |g| && g[x].Mutable() && x !in memo
      modifies this
      ensures Valid() && old(store) <= store && Extends(old(memo), memo)
      ensures x in memo && y == memo[x]
      ensures NewDone(g, rank, store, memo, old(memo.Keys))
      decreases Mutables(g) - memo.Keys, Nesting(x), 1
    {
      var source := store[x];
      y := StoreEmpty(x);
      ghost var before := old(memo.Keys) + {x};
      hide CopiedTo, Pure, Covered, Done;
      for i := 0 to |source.elems|
        invariant Valid() && x in memo && memo[x] == y && y == old(|store|) < |store|
        invariant old(store) == store[..y] && Extends(old(memo), memo) && before <= memo.Keys
        invariant |store[y].Items()| == i && store[y] == Filled(source, store[y].Items())
        invariant CopiedTo(g, rank, memo, x, store[y].Items())
        invariant NewDone(g, rank, store, memo, before)
      {
        AppendCopy(x, i, before);
      }
      FilledIsDone(g, rank, store, memo, x, before);
    }

    /** One turn of the filling loop. */
    method AppendCopy(x: nat, i: nat, ghost before: set<nat>)
      requires Valid() && x in memo && x in before && before <= memo.Keys
      requires x < |g| && g[x].Mutable() && i < |g[x].Items()|
      requires var n := store[memo[x]];
               |n.Items()| == i && n == Filled(g[x], n.Items()) && CopiedTo(g, rank, memo, x, n.Items())
      requires NewDone(g, rank, store, memo, before)
      modifies this
      ensures Valid() && Extends(old(memo), memo) && |store| >= old(|store|)
      ensures forall z :: 0 <= z < old(|store|) && z != memo[x] ==> store[z] == old(store)[z]
      ensures var n := store[memo[x]];
              |n.Items()| == i + 1 && n == Filled(g[x], n.Items()) && CopiedTo(g, rank, memo, x, n.Items())
      ensures NewDone(g, rank, store, memo, before)
      decreases Mutables(g) - memo.Keys
    {
      hide CopiedTo, Done, Pure, Covered;
      var y := memo[x];
      var c := DeepCopy(store[x].elems[i]);
      NewDoneStays(g, rank, old(store), store, old(memo), memo, before);
      CopiedToStays(g, rank, store, old(memo), memo, x, store[y].Items());
      CopiedToAppend(g, rank, memo, x, store[y].Items(), c);
      StoreKeepsDone(g, rank, store, memo, x, Filled(store[x], store[y].elems + [c]), before);
      store := store[y := Filled(store[x], store[y].elems + [c])];
    }

    /** The new tuple and, back in `deepcopy`, its memo entry. */
    method StoreTuple(x: nat, copies: seq<nat>, ghost before: set<nat>) returns (y: nat)
      requires Valid() && x < |g| && g[x].Tuple? && x !in memo && !Pure(g, rank, x)
      requires |copies| == |g[x].Items()| && CopiedTo(g, rank, memo, x, copies)
      requires NewDone(g, rank, store, memo, before)
      modifies this
      ensures Valid() && old(store) <= store && Extends(old(memo), memo)
      ensures x in memo && y == memo[x] && NewDone(g, rank, store, memo, before)
    {
      y := |store|;
      store := store + [Tuple(copies)];
      memo := memo[x := y];
      assert Valid();
      CopiedToStays(g, rank, store, old(memo), memo, x, copies);
      hide CopiedTo, Pure, Covered;
      forall z | z in memo && z !in before ensures Done(g, rank, store, memo, z) {
        if z != x { DoneStays(g, rank, old(store), store, old(memo), memo, z); }
      }
    }

    /** `_deepcopy_tuple`: copy the items, then look in the memo again, since an item may have
        led back here; keep the tuple itself if no item changed. */
    method DeepcopyTuple(x: nat) returns (y: nat)
      requires Valid() && x < |g| && g[x].Tuple? && x !in memo
      modifies this
      ensures Valid() && old(store) <= store && Extends(old(memo), memo)
      ensures Covered(g, rank, memo, x) && y == Copy(memo, x)
      ensures NewDone(g, rank, store, memo, old(memo.Keys))
      decreases Mutables(g) - memo.Keys, Nesting(x), 1
    {
      var elems := store[x].elems;
      var copies: seq<nat> := [];
      for i := 0 to |elems|
        invariant Valid() && old(store) <= store && Extends(old(memo), memo)
        invariant |copies| == i && CopiedTo(g, rank, memo, x, copies)
        invariant old(memo.Keys) <= memo.Keys && NewDone(g, rank, store, memo, old(memo.Keys))
      {
        copies := CopyItem(x, copies, old(memo.Keys));
      }
      if x in memo { return memo[x]; }
      TupleUnchanged(g, rank, store, memo, x, copies);
      if copies == elems { return x; }
      y := StoreTuple(x, copies, old(memo.Keys));
    }

    /** One turn of the loop over a tuple's items. */
    method CopyItem(x: nat, copies: seq<nat>, ghost before: set<nat>) returns (r: seq<nat>)
      requires Valid() && x < |g| && g[x].Tuple? && |copies| < |g[x].Items()| && before <= memo.Keys
      requires CopiedTo(g, rank, memo, x, copies) && NewDone(g, rank, store, memo, before)
      modifies this
      ensures Valid() && old(store) <= store && Extends(old(memo), memo)
      ensures |r| == |copies| + 1 && CopiedTo(g, rank, memo, x, r) && NewDone(g, rank, store, memo, before)
      decreases Mutables(g) - memo.Keys, Nesting(x), 0
    {
      hide CopiedTo, NewDone, Done, Pure, Covered;
      var c := DeepCopy(store[x].elems[|copies|]);
      NewDoneStays(g, rank, old(store), store, old(memo), memo, before);
      CopiedToStays(g, rank, store, old(memo), memo, x, copies);
      CopiedToAppend(g, rank, memo, x, copies, c);
      r := copies + [c];
    }
  }

  // ---------------------------------------------------------------- what a caller can observe

  /** The object reached from `x` by taking item `path[0]`, then item `path[1]`, and so on. */
  function Follow(h: seq<Node>, x: nat, path: seq<nat>): Option<nat>
    decreases |path|
  {
    if x >= |h| then None
    else if path == [] then Some(x)
    else if path[0] >= |h[x].Items()| then None
    else Follow(h, h[x].Items()[path[0]], path[1..])
  }

  /** Same object at the end of two paths, or not, alike in both graphs: sharing and cycles are
      kept and none is added. */
  ghost predicate SameSharing(g: seq<Node>, x: nat, h: seq<Node>, y: nat) {
    forall p, q :: Follow(g, x, p).Some? && Follow(g, x, q).Some? ==>
      (Follow(g, x, p) == Follow(g, x, q) <==> Follow(h, y, p) == Follow(h, y, q))
  }

  ghost predicate SameShapes(g: seq<Node>, x: nat, h: seq<Node>, y: nat) {
    forall p ::
      match (Follow(g, x, p), Follow(h, y, p))
      case (Some(a), Some(b)) => a < |g| && b < |h| && SameShape(g[a], h[b])
      case (None, None) => true
      case _ => false
  }

  /** Every list and dict reachable from the copy is new. */
  ghost predicate NothingMutableShared(g: seq<Node>, h: seq<Node>, y: nat) {
    forall p :: Follow(h, y, p).Some? && Follow(h, y, p).value < |h| && h[Follow(h, y, p).value].Mutable()
                ==> Follow(h, y, p).value >= |g|
  }

  lemma {:induction false} FollowCopy(g: seq<Node>, rank: seq<nat>, h: seq<Node>, memo: map<nat, nat>, x: nat,
                                      path: seq<nat>)
    requires WellFormed(g, rank) && MemoOk(g, rank, h, memo) && NewDone(g, rank, h, memo, {})
    requires Covered(g, rank, memo, x)
    ensures match Follow(g, x, path)
            case None => Follow(h, Copy(memo, x), path) == None
            case Some(z) => Covered(g, rank, memo, z) && Follow(h, Copy(memo, x), path) == Some(Copy(memo, z))
    decreases |path|
  {
    var y := Copy(memo, x);
    if x in memo { assert Done(g, rank, h, memo, x); } else { assert h[y] == g[x]; }
    assert |h[y].Items()| == |g[x].Items()|;
    if path != [] && path[0] < |g[x].Items()| {
      var e := g[x].Items()[path[0]];
      assert Covered(g, rank, memo, e) && h[y].Items()[path[0]] == Copy(memo, e);
      FollowCopy(g, rank, h, memo, e, path[1..]);
    }
  }

  lemma CopyIsIsomorphic(g: seq<Node>, rank: seq<nat>, h: seq<Node>, memo: map<nat, nat>, x: nat)
    requires WellFormed(g, rank) && MemoOk(g, rank, h, memo) && NewDone(g, rank, h, memo, {})
    requires Covered(g, rank, memo, x)
    ensures SameShapes(g, x, h, Copy(memo, x)) && SameSharing(g, x, h, Copy(memo, x))
    ensures NothingMutableShared(g, h, Copy(memo, x))
  {
    hide Follow, CopiedTo;
    var y := Copy(memo, x);
    forall p
      ensures Follow(g, x, p).Some? <==> Follow(h, y, p).Some?
      ensures Follow(g, x, p).Some? ==> Covered(g, rank, memo, Follow(g, x, p).value)
      ensures Follow(g, x, p).Some? ==> Follow(h, y, p) == Some(Copy(memo, Follow(g, x, p).value))
    {
      FollowCopy(g, rank, h, memo, x, p);
    }
    forall z: nat | Covered(g, rank, memo, z)
      ensures Copy(memo, z) < |h| && SameShape(g[z], h[Copy(memo, z)])
      ensures h[Copy(memo, z)].Mutable() ==> Copy(memo, z) >= |g|
    {
      if z in memo { assert Done(g, rank, h, memo, z); } else { assert h[z] == g[z]; }
    }
  }

  /** `deepcopy(x)` on any finite graph: it terminates, leaves the original as it was, and
      returns an isomorphic graph with the same sharing and no list or dict of the original. */
  method Deepcopy(store: seq<Node>, ghost rank: seq<nat>, x: nat) returns (store': seq<Node>, y: nat)
    requires WellFormed(store, rank) && x < |store|
    ensures store <= store'
    ensures SameShapes(store, x, store', y) && SameSharing(store, x, store', y)
    ensures NothingMutableShared(store, store', y)
    ensures Pure(store, rank, x) <==> y == x
  {
    var c := new Copier(store, rank);
    y := c.DeepCopy(x);
    store' := c.store;
    CopyIsIsomorphic(store, rank, c.store, c.memo, x);
  }
}

/** `asyncio.gather`: the outer future over every order in which children finish, their done
    callbacks fire, and the outer future is cancelled.

    A callback fires some time after its child finished, once per distinct child; that each
    registered callback fires exactly once is `KernelCounts.CallbacksFireOnce`. */
module Gather {
  import opened Common

  /** How a child future ended. */
  datatype Outcome = Value(v: int) | Failed(e: int) | Cancelled

  datatype Error = Raised(e: int) | CancelledError

  /** An entry of the result list: a value, or an exception returned in its place. */
  datatype Item = Result(v: int) | Returned(e: Error)

  datatype Outer = Pending | Results(items: seq<Item>) | Exception(e: Error)

  /** `order` records in which order the callbacks fired. */
  datatype State = State(children: seq<nat>, returnExceptions: bool, nfuts: nat, outcomes: map<nat, Outcome>,
                         order: seq<nat>, cancelRequested: bool, outer: Outer)

  function Elems(s: seq<nat>): set<nat> { set c | c in s }

  /** Without arguments the outer future is completed at once. */
  predicate IsInitial(s: State) {
    && s.nfuts == |Elems(s.children)|
    && s.outcomes == map[] && s.order == [] && !s.cancelRequested
    && s.outer == if s.children == [] then Results([]) else Pending
  }

  function ErrorOf(o: Outcome): Option<Error> {
    match o
    case Value(_) => None
    case Failed(e) => Some(Raised(e))
    case Cancelled => Some(CancelledError)
  }

  function ItemOf(o: Outcome): Item {
    match o
    case Value(v) => Result(v)
    case Failed(e) => Returned(Raised(e))
    case Cancelled => Returned(CancelledError)
  }

  /** `taken` are the children whose `cancel` returned True. */
  datatype Event = ChildDone(c: nat, o: Outcome) | Fire(c: nat) | CancelOuter(taken: set<nat>)

  /** A done child refuses a cancel request; a pending one may take it or not, since it may be a
      gathering future itself. */
  predicate MayTake(s: State, taken: set<nat>) {
    forall c :: c in taken ==> c in s.children && c !in s.outcomes
  }

  predicate Enabled(s: State, e: Event) {
    match e
    case ChildDone(c, _) => c in s.children && c !in s.outcomes
    case Fire(c) => c in s.children && c in s.outcomes && c !in s.order
    case CancelOuter(taken) => MayTake(s, taken)
  }

  /** What `_GatheringFuture.cancel` returns: some child took the request. */
  predicate CancelTaken(s: State, taken: set<nat>) { s.outer == Pending && taken != {} }

  predicate AllDone(s: State) { forall i :: 0 <= i < |s.children| ==> s.children[i] in s.outcomes }

  function ItemsOf(s: State): seq<Item>
    requires AllDone(s)
  {
    seq(|s.children|, i requires 0 <= i < |s.children| => ItemOf(s.outcomes[s.children[i]]))
  }

  /** `_done_callback(fut)` on the outer future, after counting. */
  function Settle(s: State, c: nat): Outer
    requires c in s.outcomes
  {
    var err := ErrorOf(s.outcomes[c]);
    if s.outer != Pending then s.outer
    else if !s.returnExceptions && err.Some? then Exception(err.value)
    else if |s.order| == s.nfuts && AllDone(s)
    then if s.cancelRequested then Exception(CancelledError) else Results(ItemsOf(s))
    else Pending
  }

  function Next(s: State, e: Event): State
    requires Enabled(s, e)
  {
    match e
    case ChildDone(c, o) => s.(outcomes := s.outcomes[c := o])
    case Fire(c) => var s1 := s.(order := s.order + [c]); s1.(outer := Settle(s1, c))
    case CancelOuter(taken) => s.(cancelRequested := s.cancelRequested || CancelTaken(s, taken))
  }

  // ---------------------------------------------------------------- what the outer future holds

  /** The error of the first callback, in firing order, whose child did not succeed. */
  function FirstError(order: seq<nat>, outcomes: map<nat, Outcome>): Option<Error>
    requires forall c :: c in order ==> c in outcomes
  {
    if order == [] then None
    else
      var n := |order| - 1;
      var earlier := FirstError(order[..n], outcomes);
      if earlier.Some? then earlier else ErrorOf(outcomes[order[n]])
  }

  predicate Fired(s: State) {
    && (forall i, j :: 0 <= i < j < |s.order| ==> s.order[i] != s.order[j])
    && (forall c :: c in s.order ==> c in s.children && c in s.outcomes)
    && (forall c :: c in s.outcomes ==> c in s.children)
    && s.nfuts == |Elems(s.children)|
  }

  /** The outer future as the history of the run determines it. */
  function Expected(s: State): Outer
    requires Fired(s)
  {
    var err := FirstError(s.order, s.outcomes);
    if !s.returnExceptions && err.Some? then Exception(err.value)
    else if |s.order| == s.nfuts && AllDone(s)
    then if s.cancelRequested then Exception(CancelledError) else Results(ItemsOf(s))
    else Pending
  }

  predicate Inv(s: State) { Fired(s) && s.outer == Expected(s) }

  lemma {:induction false} FirstErrorStays(order: seq<nat>, outcomes: map<nat, Outcome>, c: nat, o: Outcome)
    requires (forall x :: x in order ==> x in outcomes) && c !in outcomes
    ensures FirstError(order, outcomes[c := o]) == FirstError(order, outcomes)
  {
    if order != [] { FirstErrorStays(order[..|order| - 1], outcomes, c, o); }
  }

  lemma {:induction false} Cardinality(s: seq<nat>)
    requires forall i, j :: 0 <= i < j < |s| ==> s[i] != s[j]
    ensures |Elems(s)| == |s|
  {
    if s != [] {
      var n := |s| - 1;
      Cardinality(s[..n]);
      assert Elems(s) == Elems(s[..n]) + {s[n]};
    }
  }

  /** All callbacks have fired exactly when each distinct child's has, and then all are done. */
  lemma FiredAll(s: State)
    requires Fired(s)
    ensures |s.order| <= s.nfuts
    ensures |s.order| == s.nfuts <==> Elems(s.order) == Elems(s.children)
    ensures |s.order| == s.nfuts ==> AllDone(s)
  {
    Cardinality(s.order);
    SubsetSize(Elems(s.order), Elems(s.children));
    if |s.order| == s.nfuts {
      forall i | 0 <= i < |s.children| ensures s.children[i] in s.outcomes {
        assert s.children[i] in Elems(s.children);
      }
    }
  }

  lemma ChildDoneInv(s: State, c: nat, o: Outcome)
    requires Inv(s) && Enabled(s, ChildDone(c, o))
    ensures Inv(Next(s, ChildDone(c, o)))
  {
    FiredAll(s);
    FirstErrorStays(s.order, s.outcomes, c, o);
    assert c in Elems(s.children);
    hide FirstError;
  }

  lemma FireInv(s: State, c: nat)
    requires Inv(s) && Enabled(s, Fire(c))
    ensures Inv(Next(s, Fire(c)))
  {
    FiredAll(s);
    var order' := s.order + [c];
    assert order'[..|s.order|] == s.order;
    assert FirstError(order', s.outcomes)
        == if FirstError(s.order, s.outcomes).Some? then FirstError(s.order, s.outcomes) else ErrorOf(s.outcomes[c]);
    hide FirstError;
    assert c in Elems(s.children);
  }

  lemma CancelOuterInv(s: State, taken: set<nat>)
    requires Inv(s) && Enabled(s, CancelOuter(taken))
    ensures Inv(Next(s, CancelOuter(taken)))
  {
    FiredAll(s);
    hide FirstError;
  }

  lemma NextInv(s: State, e: Event)
    requires Inv(s) && Enabled(s, e)
    ensures Inv(Next(s, e))
  {
    hide Next, Inv;
    match e
    case ChildDone(c, o) => ChildDoneInv(s, c, o);
    case Fire(c) => FireInv(s, c);
    case CancelOuter(taken) => CancelOuterInv(s, taken);
  }

  ghost predicate IsRun(ss: seq<State>, es: seq<Event>) {
    && |ss| == |es| + 1 && IsInitial(ss[0])
    && forall i :: 0 <= i < |es| ==> Enabled(ss[i], es[i]) && ss[i + 1] == Next(ss[i], es[i])
  }

  lemma InitialInv(s: State)
    requires IsInitial(s)
    ensures Inv(s)
  {
    if s.children != [] { assert s.children[0] in Elems(s.children); }
  }

  /** In every reachable state the outer future is exactly what the history says. */
  lemma {:induction false} RunInv(ss: seq<State>, es: seq<Event>, n: nat)
    requires IsRun(ss, es) && n <= |es|
    ensures Inv(ss[n])
    ensures ss[n].children == ss[0].children && ss[n].returnExceptions == ss[0].returnExceptions
    ensures ss[n].nfuts == ss[0].nfuts
  {
    if n == 0 {
      InitialInv(ss[0]);
    } else {
      RunInv(ss, es, n - 1);
      NextInv(ss[n - 1], es[n - 1]);
    }
  }

  /** The outer future completes at most once. */
  lemma {:induction false} CompletesOnce(ss: seq<State>, es: seq<Event>, m: nat, n: nat)
    requires IsRun(ss, es) && m <= n <= |es| && ss[m].outer != Pending
    ensures ss[n].outer == ss[m].outer
  {
    if m < n {
      CompletesOnce(ss, es, m, n - 1);
      assert ss[n] == Next(ss[n - 1], es[n - 1]);
    }
  }

  lemma {:induction false} NoError(order: seq<nat>, outcomes: map<nat, Outcome>)
    requires forall c :: c in order ==> c in outcomes && outcomes[c].Value?
    ensures FirstError(order, outcomes) == None
  {
    if order != [] {
      assert order[|order| - 1] in order;
      NoError(order[..|order| - 1], outcomes);
    }
  }

  /** When every child has finished and reported, with no failure that is not returned and no
      cancel request, the result is the children's results in argument order. */
  lemma ResultsInArgumentOrder(ss: seq<State>, es: seq<Event>, n: nat)
    requires IsRun(ss, es) && n <= |es| && !ss[n].cancelRequested
    requires Elems(ss[n].order) == Elems(ss[n].children)
    requires !ss[n].returnExceptions ==>
               forall c :: c in ss[n].children ==> c in ss[n].outcomes && ss[n].outcomes[c].Value?
    ensures AllDone(ss[n]) && ss[n].outer.Results? && ss[n].children == ss[0].children
    ensures |ss[n].outer.items| == |ss[0].children|
    ensures forall i :: 0 <= i < |ss[0].children| ==>
              match ss[n].outcomes[ss[0].children[i]]
              case Value(v) => ss[n].outer.items[i] == Result(v)
              case Failed(e) => ss[n].outer.items[i] == Returned(Raised(e))
              case Cancelled => ss[n].outer.items[i] == Returned(CancelledError)
  {
    RunInv(ss, es, n);
    FiredAll(ss[n]);
    if !ss[n].returnExceptions { NoError(ss[n].order, ss[n].outcomes); }
  }

  lemma {:induction false} FirstErrorAt(order: seq<nat>, outcomes: map<nat, Outcome>, j: nat)
    requires (forall c :: c in order ==> c in outcomes) && j < |order| && !outcomes[order[j]].Value?
    requires forall i :: 0 <= i < j ==> outcomes[order[i]].Value?
    ensures FirstError(order, outcomes) == ErrorOf(outcomes[order[j]])
  {
    var n := |order| - 1;
    if j < n { FirstErrorAt(order[..n], outcomes, j); } else { NoError(order[..n], outcomes); }
  }

  /** Unless exceptions are returned, the first child whose callback fires without success decides:
      the outer future holds its exception, whatever fires or is cancelled later. */
  lemma FirstFailureDecides(ss: seq<State>, es: seq<Event>, n: nat, j: nat)
    requires IsRun(ss, es) && n <= |es| && !ss[0].returnExceptions && j < |ss[n].order|
    requires forall c :: c in ss[n].order ==> c in ss[n].outcomes
    requires forall i :: 0 <= i < j ==> ss[n].outcomes[ss[n].order[i]].Value?
    ensures match ss[n].outcomes[ss[n].order[j]]
            case Value(_) => true
            case Failed(e) => ss[n].outer == Exception(Raised(e))
            case Cancelled => ss[n].outer == Exception(CancelledError)
  {
    RunInv(ss, es, n);
    if !ss[n].outcomes[ss[n].order[j]].Value? { FirstErrorAt(ss[n].order, ss[n].outcomes, j); }
  }

  /** Until then, and until the last callback, the outer future stays pending. */
  lemma PendingUntilDecided(ss: seq<State>, es: seq<Event>, n: nat)
    requires IsRun(ss, es) && n <= |es| && Elems(ss[n].order) != Elems(ss[n].children)
    requires forall c :: c in ss[n].order ==>
               c in ss[n].outcomes && (ss[n].outcomes[c].Value? || ss[n].returnExceptions)
    ensures ss[n].outer == Pending
  {
    RunInv(ss, es, n);
    FiredAll(ss[n]);
    if !ss[n].returnExceptions { NoError(ss[n].order, ss[n].outcomes); }
  }

  /** The children whose callbacks the first `n` events fire, in order. */
  function FiredBy(es: seq<Event>, n: nat): seq<nat>
    requires n <= |es|
  {
    if n == 0 then [] else FiredBy(es, n - 1) + if es[n - 1].Fire? then [es[n - 1].c] else []
  }

  /** A child ended as its event says, and callbacks are recorded as they fired. */
  lemma {:induction false} ChildrenByEvents(ss: seq<State>, es: seq<Event>, n: nat)
    requires IsRun(ss, es) && n <= |es|
    ensures forall c, o :: c in ss[n].outcomes && ss[n].outcomes[c] == o <==> ChildDone(c, o) in es[..n]
    ensures ss[n].order == FiredBy(es, n)
  {
    if n > 0 {
      ChildrenByEvents(ss, es, n - 1);
      hide Settle, IsInitial, CancelTaken;
      assert Enabled(ss[n - 1], es[n - 1]) && ss[n] == Next(ss[n - 1], es[n - 1]);
      assert es[..n] == es[..n - 1] + [es[n - 1]];
    }
  }

  /** A cancel counts exactly when a child took it while the outer future was pending. */
  lemma {:induction false} CancelByEvents(ss: seq<State>, es: seq<Event>, n: nat)
    requires IsRun(ss, es) && n <= |es|
    ensures ss[n].cancelRequested <==>
              exists i :: 0 <= i < n && es[i].CancelOuter? && es[i].taken != {} && ss[i].outer == Pending
  {
    if n > 0 {
      CancelByEvents(ss, es, n - 1);
      hide Settle, IsInitial;
      assert Enabled(ss[n - 1], es[n - 1]) && ss[n] == Next(ss[n - 1], es[n - 1]);
    }
  }

  /** A pending gathering future refuses every cancel once its children are done, although their
      callbacks have not all fired: this is the child that is pending and takes no request. */
  lemma AllDoneRefuses(s: State, taken: set<nat>)
    requires AllDone(s) && Enabled(s, CancelOuter(taken))
    ensures !CancelTaken(s, taken) && Next(s, CancelOuter(taken)) == s
  {
    forall c ensures c !in taken { assert c in s.children ==> c in s.outcomes; }
  }

  /** Such a state is reached by one child that finishes. */
  lemma PendingRefusalExample(c: nat, o: Outcome)
    ensures exists ss: seq<State>, es: seq<Event> ::
              IsRun(ss, es) && AllDone(ss[|es|]) && ss[|es|].outer == Pending && ss[0].children == [c]
  {
    var s0 := State([c], false, 1, map[], [], false, Pending);
    assert Elems([c]) == {c};
    var s1 := s0.(outcomes := map[c := o]);
    assert IsRun([s0, s1], [ChildDone(c, o)]);
    var ss, es := [s0, s1], [ChildDone(c, o)];
    assert AllDone(ss[|es|]) && ss[|es|].outer == Pending;
  }

  /** With a cancel request taken and all callbacks fired, the outer future holds an exception: the
      first failure that is not returned, and CancelledError if there is none. */
  lemma TakenCancelPropagates(ss: seq<State>, es: seq<Event>, n: nat)
    requires IsRun(ss, es) && n <= |es| && ss[n].cancelRequested
    requires Elems(ss[n].order) == Elems(ss[n].children)
    ensures AllDone(ss[n]) && ss[n].outer.Exception?
    ensures ss[n].returnExceptions || (forall c :: c in ss[n].children ==> ss[n].outcomes[c].Value?) ==>
              ss[n].outer == Exception(CancelledError)
  {
    RunInv(ss, es, n);
    FiredAll(ss[n]);
    if forall c :: c in ss[n].children ==> ss[n].outcomes[c].Value? { NoError(ss[n].order, ss[n].outcomes); }
  }

  // ---------------------------------------------------------------- gathering futures inside one another

  /** A child as `cancel` sees it: a task or plain future, or a gathering future with its own
      children. */
  datatype Child = Single(done: bool) | Nested(done: bool, children: seq<Child>)

  /** What `cancel` returns: a done future refuses, a pending single one takes the request, a
      pending gathering future takes it if one of its children does. */
  predicate Takes(c: Child)
    decreases c
  {
    !c.done && (c.Single? || exists i :: 0 <= i < |c.children| && Takes(c.children[i]))
  }

  /** `path` leads down through pending gathering futures to a pending task or plain future. */
  predicate PendingPath(c: Child, path: seq<nat>)
    decreases c
  {
    !c.done && (if c.Single? then path == []
                else path != [] && path[0] < |c.children| && PendingPath(c.children[path[0]], path[1..]))
  }

  ghost predicate HasPendingPath(c: Child) { exists path: seq<nat> :: PendingPath(c, path) }

  lemma {:induction false} PathOf(c: Child) returns (path: seq<nat>)
    requires Takes(c)
    ensures PendingPath(c, path)
    decreases c
  {
    path := [];
    if c.Nested? {
      var i: nat :| i < |c.children| && Takes(c.children[i]);
      path := PathOf(c.children[i]);
      assert ([i] + path)[1..] == path;
      path := [i] + path;
    }
  }

  lemma {:induction false} PathTakes(c: Child, path: seq<nat>)
    requires PendingPath(c, path)
    ensures Takes(c)
    decreases c
  {
    if c.Nested? { PathTakes(c.children[path[0]], path[1..]); }
  }

  /** A pending gathering future refuses a cancel exactly when no such path leads out of it. */
  lemma TakesIff(c: Child)
    ensures Takes(c) <==> HasPendingPath(c)
  {
    if Takes(c) {
      var path := PathOf(c);
    } else if HasPendingPath(c) {
      var path: seq<nat> :| PendingPath(c, path);
      PathTakes(c, path);
    }
  }

  /** `_GatheringFuture.cancel` with the cancels of its children. */
  method CancelChild(c: Child) returns (ret: bool)
    ensures ret <==> HasPendingPath(c)
    decreases c
  {
    TakesIff(c);
    if c.done { return false; }
    if c.Single? { return true; }
    ret := false;
    for i := 0 to |c.children|
      invariant ret <==> exists j :: 0 <= j < i && Takes(c.children[j])
    {
      TakesIff(c.children[i]);
      var taken := CancelChild(c.children[i]);
      if taken { ret := true; }
    }
  }

  // ---------------------------------------------------------------- the closure and the future

  class GatheringFuture {
    const children: seq<nat>
    const returnExceptions: bool
    var nfuts: nat
    var nfinished: nat
    var cancelRequested: bool
    var outer: Outer
    ghost var order: seq<nat>

    /** `outcomes` are the children's states, kept by the loop. */
    ghost function View(outcomes: map<nat, Outcome>): State
      reads this
    {
      State(children, returnExceptions, nfuts, outcomes, order, cancelRequested, outer)
    }

    /** `gather(*args)`: one callback per distinct argument. */
    constructor (args: seq<nat>, returnExceptions: bool)
      ensures IsInitial(View(map[])) && children == args && this.returnExceptions == returnExceptions
      ensures nfinished == 0 && Inv(View(map[]))
    {
      var seen: set<nat> := {};
      var n := 0;
      for i := 0 to |args|
        invariant seen == Elems(args[..i]) && n == |seen|
      {
        assert args[..i + 1] == args[..i] + [args[i]];
        assert Elems(args[..i + 1]) == Elems(args[..i]) + {args[i]};
        if args[i] !in seen {
          n := n + 1;
          seen := seen + {args[i]};
        }
      }
      assert args[..|args|] == args;
      children, this.returnExceptions := args, returnExceptions;
      nfuts, nfinished, cancelRequested, order := n, 0, false, [];
      outer := if args == [] then Results([]) else Pending;
      new;
      InitialInv(View(map[]));
    }

    /** The loop that builds the result list. */
    method Collect(outcomes: map<nat, Outcome>) returns (results: seq<Item>)
      requires AllDone(View(outcomes))
      ensures results == ItemsOf(View(outcomes))
    {
      results := [];
      for i := 0 to |children|
        invariant |results| == i && forall j :: 0 <= j < i ==> results[j] == ItemOf(outcomes[children[j]])
      {
        var res;
        match outcomes[children[i]] {
          case Cancelled => res := Returned(CancelledError);
          case Failed(e) => res := Returned(Raised(e));
          case Value(v) => res := Result(v);
        }
        results := results + [res];
      }
    }

    /** `_done_callback`. */
    method DoneCallback(c: nat, outcomes: map<nat, Outcome>)
      requires Inv(View(outcomes)) && Enabled(View(outcomes), Fire(c)) && nfinished == |order|
      modifies this
      ensures View(outcomes) == Next(old(View(outcomes)), Fire(c))
      ensures Inv(View(outcomes)) && nfinished == |order|
    {
      NextInv(View(outcomes), Fire(c));
      hide Expected;
      nfinished := nfinished + 1;
      order := order + [c];
      if outer != Pending { return; }
      if !returnExceptions {
        match outcomes[c] {
          case Cancelled => outer := Exception(CancelledError); return;
          case Failed(e) => outer := Exception(Raised(e)); return;
          case Value(_) =>
        }
      }
      if nfinished == nfuts {
        FiredAll(View(outcomes));
        var results := Collect(outcomes);
        if cancelRequested { outer := Exception(CancelledError); } else { outer := Results(results); }
      }
    }

    /** `cancel`: every child is asked, and `taken` holds those that say yes; true if one does. */
    method Cancel(outcomes: map<nat, Outcome>, taken: set<nat>) returns (ret: bool)
      requires Inv(View(outcomes)) && MayTake(View(outcomes), taken)
      modifies this`cancelRequested
      ensures View(outcomes) == Next(old(View(outcomes)), CancelOuter(taken)) && Inv(View(outcomes))
      ensures ret <==> old(outer) == Pending && taken != {}
    {
      NextInv(View(outcomes), CancelOuter(taken));
      if outer != Pending { return false; }
      ret := false;
      for i := 0 to |children|
        invariant ret <==> exists j :: 0 <= j < i && children[j] in taken
      {
        if children[i] in taken { ret := true; }
      }
      assert forall c :: c in taken ==> c in children;
      if ret { cancelRequested := true; }
    }
  }
}

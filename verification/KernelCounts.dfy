/** Counting how often a callback is still going to be called, through every event of a run. */
module KernelCounts {
  import opened Common
  import opened Kernel

  predicate Fires(h: Handle, c: Callback) {
    match h
    case Step(t, _) => c == Wakeup(t)
    case Call(cb, _) => c == cb
  }

  function InReady(hs: seq<Handle>, c: Callback): nat {
    if hs == [] then 0 else (if Fires(hs[0], c) then 1 else 0) + InReady(hs[1..], c)
  }

  function InCallbacks(cbs: seq<Callback>, c: Callback): nat { multiset(cbs)[c] }

  function InFutures(futs: seq<Future>, c: Callback): nat {
    if futs == [] then 0
    else InFutures(futs[..|futs| - 1], c) + InCallbacks(futs[|futs| - 1].callbacks, c)
  }

  /** How often `c` is still going to be called; for `Wakeup(t)` this counts every pending
      resumption of task `t`, a scheduled `__step` included. */
  function Total(k: Kernel, c: Callback): nat { InReady(k.ready, c) + InFutures(k.futs, c) }

  lemma InReadyConcat(a: seq<Handle>, b: seq<Handle>, c: Callback)
    ensures InReady(a + b, c) == InReady(a, c) + InReady(b, c)
  {
    if a == [] {
      assert a + b == b;
    } else {
      assert (a + b)[1..] == a[1..] + b;
    }
  }

  lemma InReadyScheduled(cbs: seq<Callback>, f: nat, c: Callback)
    ensures InReady(Scheduled(cbs, f), c) == InCallbacks(cbs, c)
  {
    if cbs != [] {
      assert Scheduled(cbs, f)[1..] == Scheduled(cbs[1..], f);
      assert cbs == [cbs[0]] + cbs[1..];
      InReadyScheduled(cbs[1..], f, c);
    }
  }

  lemma InFuturesUpdate(futs: seq<Future>, i: nat, x: Future, c: Callback)
    requires i < |futs|
    ensures InFutures(futs[i := x], c) + InCallbacks(futs[i].callbacks, c)
         == InFutures(futs, c) + InCallbacks(x.callbacks, c)
  {
    var n := |futs| - 1;
    if i == n {
      assert futs[i := x][..n] == futs[..n];
    } else {
      assert futs[i := x][..n] == futs[..n][i := x];
      InFuturesUpdate(futs[..n], i, x, c);
    }
  }

  lemma InReadyPositive(hs: seq<Handle>, c: Callback)
    ensures InReady(hs, c) > 0 <==> exists i :: 0 <= i < |hs| && Fires(hs[i], c)
  {
    if hs != [] {
      InReadyPositive(hs[1..], c);
      if i :| 0 <= i < |hs| && Fires(hs[i], c) {
        assert i > 0 ==> Fires(hs[1..][i - 1], c);
      }
      if j :| 0 <= j < |hs[1..]| && Fires(hs[1..][j], c) {
        assert Fires(hs[j + 1], c);
      }
    }
  }

  lemma InFuturesPositive(futs: seq<Future>, c: Callback)
    ensures InFutures(futs, c) > 0 <==> exists f :: 0 <= f < |futs| && c in futs[f].callbacks
  {
    if futs != [] {
      var n := |futs| - 1;
      InFuturesPositive(futs[..n], c);
      if f :| 0 <= f < |futs| && c in futs[f].callbacks {
        assert f < n ==> c in futs[..n][f].callbacks;
      }
    }
  }

  /** Completing a future moves its callbacks and neither loses nor doubles one. */
  lemma CompleteConserves(k: Kernel, f: nat, st: State, c: Callback)
    requires f < |k.futs|
    ensures Total(Complete(k, f, st), c) == Total(k, c)
  {
    var x := k.futs[f].(state := st, callbacks := []);
    InFuturesUpdate(k.futs, f, x, c);
    InReadyConcat(k.ready, Scheduled(k.futs[f].callbacks, f), c);
    InReadyScheduled(k.futs[f].callbacks, f, c);
  }

  lemma EnqueueAdds(k: Kernel, h: Handle, c: Callback)
    ensures Total(Enqueue(k, h), c) == Total(k, c) + (if Fires(h, c) then 1 else 0)
  {
    InReadyConcat(k.ready, [h], c);
  }

  lemma AddDoneCallbackAdds(k: Kernel, f: nat, cb: Callback, c: Callback)
    requires f < |k.futs|
    ensures Total(AddDoneCallback(k, f, cb), c) == Total(k, c) + (if cb == c then 1 else 0)
  {
    EnqueueAdds(k, Call(cb, f), c);
    InFuturesUpdate(k.futs, f, k.futs[f].(callbacks := k.futs[f].callbacks + [cb]), c);
  }

  lemma SetTaskConserves(k: Kernel, t: nat, m: bool, w: Option<nat>, c: Callback)
    requires t < |k.futs|
    ensures Total(SetTask(k, t, m, w), c) == Total(k, c)
  {
    InFuturesUpdate(k.futs, t, k.futs[t].(mustCancel := m, waiter := w), c);
  }

  lemma CancelConserves(k: Kernel, f: nat, c: Callback)
    requires f < |k.futs|
    ensures Total(Cancel(k, f).0, c) == Total(k, c)
  {
    if !k.futs[f].Done() {
      var e := Target(k, f, Below(|k.futs|));
      if e.Some? {
        if k.futs[e.value].isTask { SetTaskConserves(k, e.value, true, k.futs[e.value].waiter, c); }
        else { CompleteConserves(k, e.value, Cancelled, c); }
      }
    }
  }

  lemma AppendCount(cbs: seq<Callback>, x: Callback, c: Callback)
    ensures InCallbacks(cbs + [x], c) == InCallbacks(cbs, c) + (if x == c then 1 else 0)
  {
  }

  lemma {:induction false} OthersCount(cbs: seq<Callback>, cb: Callback, c: Callback)
    ensures InCallbacks(Others(cbs, cb), c) == if c == cb then 0 else InCallbacks(cbs, c)
  {
    if cbs != [] {
      var n := |cbs| - 1;
      var rest, x := cbs[..n], cbs[n];
      OthersCount(rest, cb, c);
      assert cbs == rest + [x];
      hide InCallbacks;
      AppendCount(rest, x, c);
      if x == cb {
        assert Others(cbs, cb) == Others(rest, cb);
      } else {
        AppendCount(Others(rest, cb), x, c);
      }
    }
  }

  /** What event `e` registers: a done callback, a new task's first step, or the resumption of
      the task that has just suspended. */
  function Gains(k: Kernel, e: Event, c: Callback): nat
    requires Enabled(k, e)
  {
    match e
    case Act(AddCallback(_, id)) => if c == User(id) then 1 else 0
    case Act(CreateTask) => if c == Wakeup(|k.futs|) then 1 else 0
    case End(o) => if (o.Await? || o.BareYield? || o.BadYield?) && c == Wakeup(k.mode.task) then 1 else 0
    case _ => 0
  }

  /** What event `e` uses up: the handle the loop pops, or the callbacks a caller removes. */
  function Loses(k: Kernel, e: Event, c: Callback): nat
    requires Enabled(k, e)
  {
    match e
    case Begin => if Fires(k.ready[0], c) then 1 else 0
    case Act(RemoveCallback(f, id)) => if c == User(id) then InCallbacks(k.futs[f].callbacks, c) else 0
    case _ => 0
  }

  lemma CancelKeepsLength(k: Kernel, f: nat)
    requires f < |k.futs|
    ensures |Cancel(k, f).0.futs| == |k.futs|
  {
  }

  lemma AwaitCounts(k: Kernel, f: nat, c: Callback)
    requires Enabled(k, End(Await(f))) && f != k.mode.task
    ensures Total(DoEnd(k, Await(f)), c) == Total(k, c) + Gains(k, End(Await(f)), c)
  {
    var t := k.mode.task;
    var k0 := k.(mode := Idle);
    assert Total(k0, c) == Total(k, c);
    CancelKeepsLength(AwaitFuture(k0, t, f), f);
    hide Total, AddDoneCallback, Cancel;
    AddDoneCallbackAdds(k0, f, Wakeup(t), c);
    SetTaskConserves(AddDoneCallback(k0, f, Wakeup(t)), t, k.futs[t].mustCancel, Some(f), c);
    var k1 := AwaitFuture(k0, t, f);
    assert Total(k1, c) == Total(k, c) + Gains(k, End(Await(f)), c);
    if k.futs[t].mustCancel {
      CancelConserves(k1, f, c);
      SetTaskConserves(Cancel(k1, f).0, t, false, Some(f), c);
    }
  }

  lemma EndCounts(k: Kernel, o: Outcome, c: Callback)
    requires Enabled(k, End(o))
    ensures Total(DoEnd(k, o), c) == Total(k, c) + Gains(k, End(o), c)
  {
    var t := k.mode.task;
    var k0 := k.(mode := Idle);
    match o
    case Return(v) =>
      var k1 := SetTask(k0, t, false, k.futs[t].waiter);
      SetTaskConserves(k0, t, false, k.futs[t].waiter, c);
      CompleteConserves(k1, t, Raised(CancelledError), c);
      CompleteConserves(k0, t, Result(v), c);
    case Raise(x) => CompleteConserves(k0, t, if x.CancelledError? then Cancelled else Raised(x), c);
    case BareYield => EnqueueAdds(k0, Step(t, None), c);
    case BadYield => EnqueueAdds(k0, Step(t, Some(RuntimeError)), c);
    case Await(f) =>
      if f == t { EnqueueAdds(k0, Step(t, Some(RuntimeError)), c); } else { AwaitCounts(k, f, c); }
  }

  lemma CreateCounts(k: Kernel, x: Future, c: Callback)
    requires x.callbacks == []
    ensures Total(k.(futs := k.futs + [x]), c) == Total(k, c)
  {
    assert (k.futs + [x])[..|k.futs|] == k.futs;
  }

  lemma RemoveCounts(k: Kernel, f: nat, id: nat, c: Callback)
    requires f < |k.futs|
    ensures Total(DoAct(k, RemoveCallback(f, id)), c) + Loses(k, Act(RemoveCallback(f, id)), c) == Total(k, c)
  {
    InFuturesUpdate(k.futs, f, k.futs[f].(callbacks := Others(k.futs[f].callbacks, User(id))), c);
    OthersCount(k.futs[f].callbacks, User(id), c);
  }

  lemma ActCounts(k: Kernel, a: Action, c: Callback)
    requires ActionOk(k, a)
    ensures Total(DoAct(k, a), c) + Loses(k, Act(a), c) == Total(k, c) + Gains(k, Act(a), c)
  {
    hide Total, Complete, AddDoneCallback, Enqueue, Cancel;
    match a
    case CreateFuture => CreateCounts(k, PLAIN_FUTURE, c);
    case CreateTask =>
      CreateCounts(k, NEW_TASK, c);
      EnqueueAdds(k.(futs := k.futs + [NEW_TASK]), Step(|k.futs|, None), c);
    case SetResult(f, v) => CompleteConserves(k, f, Result(v), c);
    case SetException(f, x) => CompleteConserves(k, f, Raised(x), c);
    case CancelFuture(f) => CancelConserves(k, f, c);
    case AddCallback(f, id) => AddDoneCallbackAdds(k, f, User(id), c);
    case RemoveCallback(f, id) => RemoveCounts(k, f, id, c);
  }

  lemma BeginCounts(k: Kernel, c: Callback)
    requires Enabled(k, Begin)
    ensures Total(DoBegin(k), c) + Loses(k, Begin, c) == Total(k, c)
  {
    var t := Resumes(k);
    if t.Some? && t.value < |k.futs| {
      SetTaskConserves(k.(ready := k.ready[1..]), t.value, false, None, c);
    }
  }

  /** The counting law: an event changes what is outstanding by what it registers and uses up. */
  lemma NextCounts(k: Kernel, e: Event, c: Callback)
    requires Enabled(k, e)
    ensures Total(Next(k, e), c) + Loses(k, e, c) == Total(k, c) + Gains(k, e, c)
  {
    match e
    case Begin => BeginCounts(k, c);
    case Act(a) => ActCounts(k, a, c);
    case End(o) => EndCounts(k, o, c);
    case EndCallback =>
  }

  /** Registrations of `c` minus its firings and removals over the first `n` events of a run. */
  ghost function Outstanding(ks: seq<Kernel>, es: seq<Event>, c: Callback, n: nat): int
    requires IsRun(ks, es) && n <= |es|
  {
    if n == 0 then 0
    else
      assert StepOk(ks[n - 1], es[n - 1], ks[n]);
      Outstanding(ks, es, c, n - 1) + Gains(ks[n - 1], es[n - 1], c) - Loses(ks[n - 1], es[n - 1], c)
  }

  lemma InitialCounts(c: Callback)
    ensures Total(INITIAL, c) == 0
  {
  }

  /** Every registered callback is called exactly once unless removed: over a whole run each
      registration has been fired, removed, or still waits, never two of these. */
  lemma {:induction false} CallbacksFireOnce(ks: seq<Kernel>, es: seq<Event>, c: Callback, n: nat)
    requires IsRun(ks, es) && ks[0] == INITIAL && n <= |es|
    ensures Total(ks[n], c) == Outstanding(ks, es, c, n)
  {
    hide Next, Gains, Loses, Total, Enabled;
    if n == 0 {
      InitialCounts(c);
    } else {
      CallbacksFireOnce(ks, es, c, n - 1);
      var k, e := ks[n - 1], es[n - 1];
      assert StepOk(k, e, ks[n]);
      NextCounts(k, e, c);
    }
  }
}

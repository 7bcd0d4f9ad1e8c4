/** What a task ends with and what an awaiting coroutine receives: results and exceptions pass
    through futures, callbacks and the ready queue unchanged.  The laws are stated on runs, by the
    events and the states of the futures. */
module KernelValues {
  import opened Common
  import opened Kernel
  import opened KernelCounts
  import opened KernelInvariant
  import opened KernelCancel

  lemma StepAt(ks: seq<Kernel>, es: seq<Event>, n: nat)
    requires IsRun(ks, es) && Inv(ks[0]) && n < |es|
    ensures |ks| == |es| + 1 && Inv(ks[n]) && Enabled(ks[n], es[n]) && ks[n + 1] == Next(ks[n], es[n])
    ensures es[n].Begin? ==> !WakesOnBaseExc(ks[n])
  {
    RunInv(ks, es, n);
    assert StepOk(ks[n], es[n], ks[n + 1]);
  }

  // ---------------------------------------------------------------- what a future holds

  /** A task that returns ends with the value it returned, unless it was cancelled in that step. */
  lemma ReturnEndsTask(ks: seq<Kernel>, es: seq<Event>, n: nat, t: nat, v: int)
    requires IsRun(ks, es) && Inv(ks[0]) && n < |es| && es[n] == End(Return(v)) && Running(ks[n], t)
    ensures t < |ks[n].futs| && t < |ks[n + 1].futs|
    ensures ks[n + 1].futs[t].state == if ks[n].futs[t].mustCancel then Raised(CancelledError) else Result(v)
  {
    RunInv(ks, es, n);
    assert StepOk(ks[n], es[n], ks[n + 1]);
  }

  /** A task that raises ends with what it raised; CancelledError ends it as cancelled. */
  lemma RaiseEndsTask(ks: seq<Kernel>, es: seq<Event>, n: nat, t: nat, x: Exc)
    requires IsRun(ks, es) && Inv(ks[0]) && n < |es| && es[n] == End(Raise(x)) && Running(ks[n], t)
    ensures t < |ks[n + 1].futs|
    ensures ks[n + 1].futs[t].state == if x == CancelledError then Cancelled else Raised(x)
  {
    RunInv(ks, es, n);
    assert StepOk(ks[n], es[n], ks[n + 1]);
  }

  /** `set_result` and `set_exception` leave exactly that result or exception in a pending plain
      future, and schedule its callbacks in the order in which they were added. */
  lemma SetLeavesValue(ks: seq<Kernel>, es: seq<Event>, n: nat, f: nat, st: State)
    requires IsRun(ks, es) && n < |es| && f < |ks[n].futs| && !ks[n].futs[f].isTask && ks[n].futs[f].state == Pending
    requires (exists v :: es[n] == Act(SetResult(f, v)) && st == Result(v))
             || (exists x :: es[n] == Act(SetException(f, x)) && st == Raised(x))
    ensures |ks[n + 1].futs| == |ks[n].futs| && ks[n + 1].futs[f].state == st && ks[n + 1].futs[f].callbacks == []
    ensures var cbs := ks[n].futs[f].callbacks;
            && |ks[n + 1].ready| == |ks[n].ready| + |cbs| && ks[n].ready <= ks[n + 1].ready
            && forall i :: 0 <= i < |cbs| ==> ks[n + 1].ready[|ks[n].ready| + i] == Call(cbs[i], f)
  {
    assert StepOk(ks[n], es[n], ks[n + 1]);
  }

  /** A callback added to a pending future goes to the end of its list; added to a done one it goes
      to the end of the ready queue. */
  lemma AddedLast(ks: seq<Kernel>, es: seq<Event>, n: nat, f: nat, id: nat)
    requires IsRun(ks, es) && n < |es| && es[n] == Act(AddCallback(f, id))
    ensures f < |ks[n].futs| == |ks[n + 1].futs|
    ensures if ks[n].futs[f].state == Pending
            then ks[n + 1].futs[f].callbacks == ks[n].futs[f].callbacks + [User(id)] && ks[n + 1].ready == ks[n].ready
            else ks[n + 1].ready == ks[n].ready + [Call(User(id), f)]
                 && ks[n + 1].futs[f].callbacks == ks[n].futs[f].callbacks
  {
    assert StepOk(ks[n], es[n], ks[n + 1]);
  }

  lemma CancelKeepsState(k: Kernel, f: nat, g: nat)
    requires f < |k.futs| && g < |k.futs| && k.futs[g].state != Pending
    ensures g < |Cancel(k, f).0.futs| && Cancel(k, f).0.futs[g].state == k.futs[g].state
  {
  }

  lemma ActKeepsState(k: Kernel, a: Action, g: nat)
    requires ActionOk(k, a) && g < |k.futs| && k.futs[g].state != Pending
    ensures g < |DoAct(k, a).futs| && DoAct(k, a).futs[g].state == k.futs[g].state
  {
    if a.CancelFuture? { CancelKeepsState(k, a.f, g); }
    hide Cancel;
  }

  lemma EndKeepsState(k: Kernel, o: Outcome, g: nat)
    requires Enabled(k, End(o)) && Unfinished(k, k.mode.task) && g < |k.futs| && k.futs[g].state != Pending
    ensures g < |DoEnd(k, o).futs| && DoEnd(k, o).futs[g].state == k.futs[g].state
  {
    if o.Await? && o.f != k.mode.task {
      var k1 := AwaitFuture(k.(mode := Idle), k.mode.task, o.f);
      CancelKeepsState(k1, o.f, g);
      CancelKeepsLength(k1, o.f);
    }
    hide Cancel;
  }

  lemma NextKeepsState(k: Kernel, e: Event, g: nat)
    requires Located(k) && Enabled(k, e) && g < |k.futs| && k.futs[g].state != Pending
    ensures g < |Next(k, e).futs| && Next(k, e).futs[g].state == k.futs[g].state
  {
    hide DoAct, DoEnd;
    match e
    case Act(a) => ActKeepsState(k, a, g);
    case End(o) => EndKeepsState(k, o, g);
    case Begin =>
    case EndCallback =>
  }

  lemma StateStep(k: Kernel, e: Event, f: nat)
    requires Inv(k) && Enabled(k, e) && f < |k.futs| && k.futs[f].state != Pending
    ensures f < |Next(k, e).futs| && Next(k, e).futs[f].state == k.futs[f].state
  {
    NextKeepsState(k, e, f);
  }

  /** What a future holds once it is done it holds for good. */
  lemma {:induction false} DoneForever(ks: seq<Kernel>, es: seq<Event>, m: nat, n: nat, f: nat)
    requires IsRun(ks, es) && Inv(ks[0]) && m <= n <= |es| && f < |ks[m].futs| && ks[m].futs[f].state != Pending
    ensures f < |ks[n].futs| && ks[n].futs[f].state == ks[m].futs[f].state
  {
    hide *;
    if m < n {
      DoneForever(ks, es, m, n - 1, f);
      StepAt(ks, es, n - 1);
      StateStep(ks[n - 1], es[n - 1], f);
    }
  }

  // ---------------------------------------------------------------- while a task is suspended

  lemma ActWaiter(k: Kernel, a: Action, t: nat)
    requires ActionOk(k, a) && Unfinished(k, t)
    ensures t < |DoAct(k, a).futs| && DoAct(k, a).futs[t].waiter == k.futs[t].waiter
  {
    if a.CancelFuture? { CancelKeepsTasks(k, a.f, t); }
    hide Cancel;
  }

  lemma EndWaiter(k: Kernel, o: Outcome, t: nat)
    requires Enabled(k, End(o)) && Unfinished(k, t) && t != k.mode.task
    ensures t < |DoEnd(k, o).futs| && DoEnd(k, o).futs[t].waiter == k.futs[t].waiter
  {
    if o.Await? && o.f != k.mode.task {
      var k1 := AwaitFuture(k.(mode := Idle), k.mode.task, o.f);
      CancelKeepsTasks(k1, o.f, t);
    }
    hide Cancel;
  }

  /** No event but its own resumption changes what a suspended task waits for. */
  lemma WaiterStays(k: Kernel, e: Event, t: nat)
    requires Inv(k) && Enabled(k, e) && Unfinished(k, t) && !Running(k, t) && (e.Begin? ==> Resumes(k) != Some(t))
    ensures Unfinished(Next(k, e), t) && !Running(Next(k, e), t) && Next(k, e).futs[t].waiter == k.futs[t].waiter
  {
    NotEntered(k, e, t);
    hide DoAct, DoEnd;
    match e
    case Act(a) => ActUnfinished(k, a, t); ActWaiter(k, a, t);
    case End(o) => EndUnfinished(k, o, t); EndWaiter(k, o, t);
    case Begin =>
    case EndCallback =>
  }

  /** From `m` to `n` task `t` is suspended: no resumption of it is popped. */
  ghost predicate Suspends(ks: seq<Kernel>, es: seq<Event>, t: nat, m: nat, n: nat)
    requires IsRun(ks, es) && m <= n <= |es|
  {
    && Unfinished(ks[m], t) && !Running(ks[m], t)
    && forall i :: m <= i < n && es[i].Begin? ==> Resumes(ks[i]) != Some(t)
  }

  lemma SuspendsBefore(ks: seq<Kernel>, es: seq<Event>, t: nat, m: nat, n: nat)
    requires IsRun(ks, es) && m <= n <= |es| && Suspends(ks, es, t, m, n)
    ensures Unfinished(ks[m], t) && !Running(ks[m], t)
    ensures m < n ==> Suspends(ks, es, t, m, n - 1) && (es[n - 1].Begin? ==> Resumes(ks[n - 1]) != Some(t))
  {
    hide IsRun, Resumes;
  }

  lemma {:induction false} StillWaits(ks: seq<Kernel>, es: seq<Event>, t: nat, m: nat, n: nat)
    requires IsRun(ks, es) && Inv(ks[0]) && m <= n <= |es| && Suspends(ks, es, t, m, n)
    ensures Unfinished(ks[n], t) && !Running(ks[n], t) && ks[n].futs[t].waiter == ks[m].futs[t].waiter
  {
    hide *;
    SuspendsBefore(ks, es, t, m, n);
    if m < n {
      StillWaits(ks, es, t, m, n - 1);
      StepAt(ks, es, n - 1);
      WaiterStays(ks[n - 1], es[n - 1], t);
    }
  }

  // ---------------------------------------------------------------- what a resumed coroutine receives

  /** Resuming an unmarked task that awaited `f`: the exception `f` holds is thrown into its
      coroutine, CancelledError if `f` was cancelled, and nothing if `f` holds a result. */
  lemma WakeupDelivers(k: Kernel, t: nat, f: nat)
    requires Inv(k) && Enabled(k, Begin) && !WakesOnBaseExc(k) && Resumes(k) == Some(t)
    requires t < |k.futs| && k.futs[t].waiter == Some(f) && !k.futs[t].mustCancel
    ensures f < |k.futs| && k.futs[f].state != Pending && k.ready[0] == Call(Wakeup(t), f)
    ensures k.futs[f].state.Raised? ==> Next(k, Begin).mode == InTask(t, Some(k.futs[f].state.exc))
    ensures k.futs[f].state.Result? ==> Next(k, Begin).mode == InTask(t, None)
    ensures k.futs[f].state == Cancelled ==> Next(k, Begin).mode == InTask(t, Some(CancelledError))
  {
    HeadUnfinished(k);
    assert HandleOk(k, k.ready[0]);
  }

  /** The same over runs, by the handle that is popped. */
  lemma PoppedDelivers(ks: seq<Kernel>, es: seq<Event>, n: nat, t: nat)
    requires IsRun(ks, es) && Inv(ks[0]) && n < |es| && es[n] == Begin && ks[n].ready != []
    requires if ks[n].ready[0].Step? then ks[n].ready[0].task == t else ks[n].ready[0].cb == Wakeup(t)
    ensures Unfinished(ks[n], t) && Running(ks[n + 1], t)
    ensures ks[n + 1].futs == ks[n].futs[t := ks[n].futs[t].(mustCancel := false, waiter := None)]
    ensures var thrown := ks[n + 1].mode.thrown;
            if ks[n].futs[t].mustCancel then thrown == Some(CancelledError)
            else match ks[n].ready[0] {
              case Step(_, x) => thrown == x
              case Call(_, f) =>
                && f < |ks[n].futs|
                && match ks[n].futs[f].state {
                     case Result(_) => thrown == None
                     case Raised(x) => thrown == Some(x)
                     case Cancelled => thrown == Some(CancelledError)
                     case Pending => false
                   }
            }
  {
    StepAt(ks, es, n);
    HeadUnfinished(ks[n]);
    assert HandleOk(ks[n], ks[n].ready[0]);
  }

  /** What an awaited future holds reaches the awaiting task: if `f` is done at `m` while `u` waits
      for it, then the next resumption of `u`, at `n`, throws the exception `f` holds, or returns
      from the await if it holds a result, unless `u` was cancelled meanwhile. */
  lemma AwaitedIsDelivered(ks: seq<Kernel>, es: seq<Event>, u: nat, f: nat, m: nat, n: nat)
    requires IsRun(ks, es) && Inv(ks[0]) && m <= n < |es| && Suspends(ks, es, u, m, n)
    requires ks[m].futs[u].waiter == Some(f) && f < |ks[m].futs| && ks[m].futs[f].state != Pending
    requires es[n].Begin? && Resumes(ks[n]) == Some(u) && u < |ks[n].futs| && !ks[n].futs[u].mustCancel
    ensures ks[m].futs[f].state.Raised? ==> ks[n + 1].mode == InTask(u, Some(ks[m].futs[f].state.exc))
    ensures ks[m].futs[f].state.Result? ==> ks[n + 1].mode == InTask(u, None)
    ensures ks[m].futs[f].state == Cancelled ==> ks[n + 1].mode == InTask(u, Some(CancelledError))
  {
    StillWaits(ks, es, u, m, n);
    DoneForever(ks, es, m, n, f);
    RunInv(ks, es, n);
    assert StepOk(ks[n], es[n], ks[n + 1]);
    hide Next;
    WakeupDelivers(ks[n], u, f);
  }

  /** End to end: `t` raises `x` at `m` while `u` awaits it; the next resumption of `u` throws `x`. */
  lemma RaisedReachesAwaiter(ks: seq<Kernel>, es: seq<Event>, t: nat, u: nat, x: Exc, m: nat, n: nat)
    requires IsRun(ks, es) && Inv(ks[0]) && m < n < |es| && es[m] == End(Raise(x)) && Running(ks[m], t)
    requires x != CancelledError && Suspends(ks, es, u, m + 1, n) && ks[m + 1].futs[u].waiter == Some(t)
    requires es[n].Begin? && Resumes(ks[n]) == Some(u) && u < |ks[n].futs| && !ks[n].futs[u].mustCancel
    ensures ks[n + 1].mode == InTask(u, Some(x))
  {
    RaiseEndsTask(ks, es, m, t, x);
    AwaitedIsDelivered(ks, es, u, t, m + 1, n);
  }

  /** And a value: `t` returns `v` at `m` while `u` awaits it; `u` goes on, and `t` holds `v`. */
  lemma ReturnedReachesAwaiter(ks: seq<Kernel>, es: seq<Event>, t: nat, u: nat, v: int, m: nat, n: nat)
    requires IsRun(ks, es) && Inv(ks[0]) && m < n < |es| && es[m] == End(Return(v)) && Running(ks[m], t)
    requires t < |ks[m].futs| && !ks[m].futs[t].mustCancel
    requires Suspends(ks, es, u, m + 1, n) && ks[m + 1].futs[u].waiter == Some(t)
    requires es[n].Begin? && Resumes(ks[n]) == Some(u) && u < |ks[n].futs| && !ks[n].futs[u].mustCancel
    ensures ks[n + 1].mode == InTask(u, None)
    ensures t < |ks[n].futs| && ks[n].futs[t].state == Result(v)
  {
    ReturnEndsTask(ks, es, m, t, v);
    AwaitedIsDelivered(ks, es, u, t, m + 1, n);
    DoneForever(ks, es, m + 1, n, t);
  }

  // ---------------------------------------------------------------- yields that await nothing

  /** What `__step` passes to the coroutine after an outcome that awaits no other future. */
  predicate ComesBack(t: nat, o: Outcome, x: Option<Exc>) {
    || (o == BareYield && x == None)
    || (o == BadYield && x == Some(RuntimeError))
    || (o == Await(t) && x == Some(RuntimeError))
  }

  lemma QueuesStep(k: Kernel, o: Outcome, x: Option<Exc>)
    requires Inv(k) && Enabled(k, End(o)) && ComesBack(k.mode.task, o, x)
    ensures var t, k' := k.mode.task, Next(k, End(o));
            Unfinished(k', t) && !Running(k', t) && k'.ready == k.ready + [Step(t, x)]
  {
  }

  /** One resumption means one place in the ready queue. */
  lemma {:induction false} OnlyPlace(hs: seq<Handle>, c: Callback, i: nat)
    requires InReady(hs, c) <= 1 && 0 < i < |hs| && Fires(hs[i], c)
    ensures !Fires(hs[0], c)
  {
    InReadyPositive(hs[1..], c);
    assert Fires(hs[1..][i - 1], c);
  }

  /** A queued step stays queued, and moves up, until it is popped. */
  lemma StepStays(k: Kernel, e: Event, t: nat, x: Option<Exc>)
    requires Inv(k) && Enabled(k, e) && Unfinished(k, t) && !Running(k, t) && Step(t, x) in k.ready
    requires e.Begin? ==> Resumes(k) != Some(t)
    ensures Step(t, x) in Next(k, e).ready
  {
    ReadyIsFifo(k, e);
    hide Inv, Next, Enabled;
    var kept := if e.Begin? then k.ready[1..] else k.ready;
    var i :| 0 <= i < |k.ready| && k.ready[i] == Step(t, x);
    var j := if e.Begin? then i - 1 else i;
    assert kept[j] == Step(t, x);
    assert Next(k, e).ready[j] == Step(t, x);
  }

  lemma {:induction false} StepWaits(ks: seq<Kernel>, es: seq<Event>, t: nat, x: Option<Exc>, m: nat, n: nat)
    requires IsRun(ks, es) && Inv(ks[0]) && m <= n <= |es| && Suspends(ks, es, t, m, n) && Step(t, x) in ks[m].ready
    ensures Step(t, x) in ks[n].ready
  {
    hide *;
    SuspendsBefore(ks, es, t, m, n);
    if m < n {
      StepWaits(ks, es, t, x, m, n - 1);
      StillWaits(ks, es, t, m, n - 1);
      StepAt(ks, es, n - 1);
      StepStays(ks[n - 1], es[n - 1], t, x);
    }
  }

  lemma StepDelivers(k: Kernel, t: nat, x: Option<Exc>)
    requires Inv(k) && Enabled(k, Begin) && Resumes(k) == Some(t) && Step(t, x) in k.ready
    requires t < |k.futs| && !k.futs[t].mustCancel
    ensures Next(k, Begin).mode == InTask(t, x)
  {
    HeadUnfinished(k);
    var i :| 0 <= i < |k.ready| && k.ready[i] == Step(t, x);
    assert Fires(k.ready[i], Wakeup(t));
    assert Total(k, Wakeup(t)) == Owed(k, t);
    if i > 0 { OnlyPlace(k.ready, Wakeup(t), i); }
  }

  /** A bare yield comes back without an exception; a yield of anything that cannot be awaited, and
      of the task itself, comes back as RuntimeError. */
  lemma YieldComesBack(ks: seq<Kernel>, es: seq<Event>, t: nat, o: Outcome, x: Option<Exc>, m: nat, n: nat)
    requires IsRun(ks, es) && Inv(ks[0]) && m < n < |es| && es[m] == End(o) && Running(ks[m], t) && ComesBack(t, o, x)
    requires forall i :: m < i < n && es[i].Begin? ==> Resumes(ks[i]) != Some(t)
    requires es[n].Begin? && Resumes(ks[n]) == Some(t) && t < |ks[n].futs| && !ks[n].futs[t].mustCancel
    ensures ks[n + 1].mode == InTask(t, x)
  {
    RunInv(ks, es, m);
    assert StepOk(ks[m], es[m], ks[m + 1]);
    QueuesStep(ks[m], o, x);
    hide Next, Inv;
    StepWaits(ks, es, t, x, m + 1, n);
    RunInv(ks, es, n);
    assert StepOk(ks[n], es[n], ks[n + 1]);
    StepDelivers(ks[n], t, x);
  }

  /** A created task is entered without an exception. */
  lemma CreatedTaskStarts(ks: seq<Kernel>, es: seq<Event>, m: nat, n: nat)
    requires IsRun(ks, es) && Inv(ks[0]) && m < n < |es| && es[m] == Act(CreateTask)
    requires var t := |ks[m].futs|;
             && (forall i :: m < i < n && es[i].Begin? ==> Resumes(ks[i]) != Some(t))
             && es[n].Begin? && Resumes(ks[n]) == Some(t) && t < |ks[n].futs| && !ks[n].futs[t].mustCancel
    ensures ks[n + 1].mode == InTask(|ks[m].futs|, None)
  {
    StepAt(ks, es, m);
    var t := |ks[m].futs|;
    assert Unfinished(ks[m + 1], t) && !Running(ks[m + 1], t) && ks[m + 1].ready[|ks[m].ready|] == Step(t, None);
    hide Next, Inv;
    StepWaits(ks, es, t, None, m + 1, n);
    StepAt(ks, es, n);
    StepDelivers(ks[n], t, None);
  }

  /** Awaiting another future records it as the waiter, with the wakeup registered or, if it is done,
      already queued. */
  lemma AwaitRecords(ks: seq<Kernel>, es: seq<Event>, n: nat, t: nat, f: nat)
    requires IsRun(ks, es) && Inv(ks[0]) && n < |es| && es[n] == End(Await(f)) && Running(ks[n], t) && f != t
    ensures Unfinished(ks[n + 1], t) && ks[n + 1].futs[t].waiter == Some(f) && !Running(ks[n + 1], t)
    ensures ResumptionAtWaiter(ks[n + 1], t)
  {
    RunInv(ks, es, n);
    assert StepOk(ks[n], es[n], ks[n + 1]);
    var k1 := AwaitFuture(ks[n].(mode := Idle), t, f);
    CancelKeepsTasks(k1, f, t);
    EndUnfinished(ks[n], Await(f), t);
    RunInv(ks, es, n + 1);
    Places(ks[n + 1], t);
  }
}

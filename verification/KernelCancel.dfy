/** Cancellation is never lost: a request that reached a task waiting on plain futures is
    thrown into its coroutine at the task's next resumption, which FIFO order bounds. */
module KernelCancel {
  import opened Common
  import opened Kernel
  import opened KernelCounts
  import opened KernelInvariant

  /** A cancel request has reached the task itself: it is flagged, or what it awaits is cancelled. */
  predicate Doomed(k: Kernel, t: nat) {
    && Unfinished(k, t)
    && (k.futs[t].mustCancel
        || (k.futs[t].waiter.Some? && k.futs[t].waiter.value < |k.futs|
            && k.futs[k.futs[t].waiter.value].state == Cancelled))
  }

  /** The task is not waiting for another unfinished task. */
  predicate OnPlainFuture(k: Kernel, t: nat)
    requires IsTask(k, t)
  {
    var w := k.futs[t].waiter;
    w.Some? ==> w.value < |k.futs| && (k.futs[w.value].Done() || !k.futs[w.value].isTask)
  }

  /** Cancelling such a task returns True, dooms it, and leaves its resumption in the ready
      queue unless it is the running task itself. */
  lemma CancelDooms(k: Kernel, t: nat)
    requires Inv(k) && Unfinished(k, t) && OnPlainFuture(k, t)
    ensures Cancel(k, t).1 == Returned(true)
    ensures Doomed(Cancel(k, t).0, t)
    ensures !Running(k, t) ==> InReady(Cancel(k, t).0.ready, Wakeup(t)) == 1
  {
    var k' := Cancel(k, t).0;
    var w := k.futs[t].waiter;
    if w.Some? && !k.futs[w.value].Done() {
      assert Target(k, t, Below(|k.futs|)) == Some(w.value);
    } else {
      assert Target(k, t, Below(|k.futs|)) == Some(t);
    }
    if !Running(k, t) {
      NextInv(k, Act(CancelFuture(t)));
      CancelKeepsTasks(k, t, t);
      Places(k', t);
    }
  }

  lemma CancelKeepsDoomed(k: Kernel, f: nat, t: nat)
    requires f < |k.futs| && Doomed(k, t)
    ensures Doomed(Cancel(k, f).0, t)
  {
    CancelKeepsTasks(k, f, t);
  }

  lemma ActKeepsDoomed(k: Kernel, a: Action, t: nat)
    requires ActionOk(k, a) && Doomed(k, t)
    ensures Doomed(DoAct(k, a), t)
  {
    if a.CancelFuture? { CancelKeepsDoomed(k, a.f, t); }
    hide Cancel;
  }

  lemma EndKeepsDoomed(k: Kernel, o: Outcome, t: nat)
    requires Enabled(k, End(o)) && Unfinished(k, k.mode.task) && Doomed(k, t) && !Running(k, t)
    ensures Doomed(DoEnd(k, o), t)
  {
    if o.Await? && o.f != k.mode.task {
      var k1 := AwaitFuture(k.(mode := Idle), k.mode.task, o.f);
      CancelKeepsDoomed(k1, o.f, t);
      CancelKeepsLength(k1, o.f);
    }
    hide Cancel;
  }

  /** A doomed task stays doomed through every event but its own resumption or the end of its
      own step. */
  lemma DoomedStays(k: Kernel, e: Event, t: nat)
    requires Located(k) && Enabled(k, e) && Doomed(k, t)
    requires e.Begin? ==> Resumes(k) != Some(t)
    requires e.End? ==> !Running(k, t)
    ensures Doomed(Next(k, e), t)
  {
    hide DoAct, DoEnd;
    match e
    case Begin =>
    case EndCallback =>
    case Act(a) => ActKeepsDoomed(k, a, t);
    case End(o) => EndKeepsDoomed(k, o, t);
  }

  /** Resuming a doomed task throws CancelledError into its coroutine. */
  lemma DoomedIsThrown(k: Kernel, t: nat)
    requires Inv(k) && Enabled(k, Begin) && Doomed(k, t) && Resumes(k) == Some(t) && !WakesOnBaseExc(k)
    ensures DoBegin(k).mode == InTask(t, Some(CancelledError))
  {
    HeadUnfinished(k);
    assert HandleOk(k, k.ready[0]);
  }

  /** The loop pops from the front; every other event only appends to the ready queue. */
  lemma ReadyIsFifo(k: Kernel, e: Event)
    requires Enabled(k, e)
    ensures (if e.Begin? then k.ready[1..] else k.ready) <= Next(k, e).ready
  {
  }

  lemma NotEntered(k: Kernel, e: Event, t: nat)
    requires Enabled(k, e) && !Running(k, t) && (e.Begin? ==> Resumes(k) != Some(t))
    ensures !Running(Next(k, e), t)
  {
  }

  lemma DoomedMovesUp(k: Kernel, e: Event, t: nat, q: nat)
    requires Inv(k) && Enabled(k, e) && Doomed(k, t) && !Running(k, t)
    requires q < |k.ready| && Fires(k.ready[q], Wakeup(t)) && (e.Begin? ==> q > 0)
    ensures Doomed(Next(k, e), t) && !Running(Next(k, e), t)
    ensures var q' := if e.Begin? then q - 1 else q;
            q' < |Next(k, e).ready| && Fires(Next(k, e).ready[q'], Wakeup(t))
  {
    if e.Begin? {
      InReadyPositive(k.ready[1..], Wakeup(t));
      assert Fires(k.ready[1..][q - 1], Wakeup(t));
      if Resumes(k) == Some(t) { HeadUnfinished(k); }
    }
    DoomedStays(k, e, t);
    ReadyIsFifo(k, e);
    var old', new' := if e.Begin? then k.ready[1..] else k.ready, Next(k, e).ready;
    assert new'[..|old'|] == old';
    NotEntered(k, e, t);
  }

  // ---------------------------------------------------------------- delivery

  /** The number of pops among `es[m..n]`. */
  function Pops(es: seq<Event>, m: nat, n: nat): nat
    requires m <= n <= |es|
  {
    if n == m then 0 else Pops(es, m, n - 1) + (if es[n - 1].Begin? then 1 else 0)
  }

  /** From `ks[m]` on: the resumption of `t` stands at some place `p` of the ready queue, and
      whatever happens in between, the pop that reaches it throws CancelledError into `t`. */
  ghost predicate Delivered(ks: seq<Kernel>, es: seq<Event>, m: nat, t: nat)
    requires IsRun(ks, es) && m <= |es|
  {
    exists p :: 0 <= p < |ks[m].ready| && Fires(ks[m].ready[p], Wakeup(t))
      && forall n :: m <= n < |es| && es[n].Begin? && Pops(es, m, n) == p
                     ==> ks[n + 1].mode == InTask(t, Some(CancelledError))
  }

  lemma {:induction false} DoomedUntilPopped(ks: seq<Kernel>, es: seq<Event>, m: nat, p: nat, t: nat, n: nat)
    requires IsRun(ks, es) && Inv(ks[0]) && m <= n <= |es|
    requires Doomed(ks[m], t) && !Running(ks[m], t)
    requires p < |ks[m].ready| && Fires(ks[m].ready[p], Wakeup(t)) && Pops(es, m, n) <= p
    ensures Doomed(ks[n], t) && !Running(ks[n], t)
    ensures p - Pops(es, m, n) < |ks[n].ready| && Fires(ks[n].ready[p - Pops(es, m, n)], Wakeup(t))
  {
    hide Next, Doomed, Inv;
    if n > m {
      DoomedUntilPopped(ks, es, m, p, t, n - 1);
      var k, e := ks[n - 1], es[n - 1];
      assert StepOk(k, e, ks[n]);
      RunInv(ks, es, n - 1);
      DoomedMovesUp(k, e, t, p - Pops(es, m, n - 1));
    }
  }

  lemma PopThrows(k: Kernel, t: nat)
    requires Inv(k) && Enabled(k, Begin) && Doomed(k, t) && Fires(k.ready[0], Wakeup(t)) && !WakesOnBaseExc(k)
    ensures Next(k, Begin).mode == InTask(t, Some(CancelledError))
  {
    DoomedIsThrown(k, t);
  }

  lemma {:induction false} DoomedIsDelivered(ks: seq<Kernel>, es: seq<Event>, m: nat, t: nat)
    requires IsRun(ks, es) && Inv(ks[0]) && m <= |es|
    requires Doomed(ks[m], t) && !Running(ks[m], t) && InReady(ks[m].ready, Wakeup(t)) > 0
    ensures Delivered(ks, es, m, t)
  {
    InReadyPositive(ks[m].ready, Wakeup(t));
    var p :| 0 <= p < |ks[m].ready| && Fires(ks[m].ready[p], Wakeup(t));
    hide Next, Doomed, Inv;
    forall n | m <= n < |es| && es[n].Begin? && Pops(es, m, n) == p
      ensures ks[n + 1].mode == InTask(t, Some(CancelledError))
    {
      DoomedUntilPopped(ks, es, m, p, t, n);
      RunInv(ks, es, n);
      assert StepOk(ks[n], es[n], ks[n + 1]);
      PopThrows(ks[n], t);
    }
  }

  /** A cancel of a suspended task that is not waiting for another unfinished task is never lost. */
  lemma CancelIsDelivered(ks: seq<Kernel>, es: seq<Event>, t: nat)
    requires IsRun(ks, es) && Inv(ks[0]) && |es| > 0 && es[0] == Act(CancelFuture(t))
    requires Unfinished(ks[0], t) && OnPlainFuture(ks[0], t) && !Running(ks[0], t)
    ensures Cancel(ks[0], t).1 == Returned(true) && Delivered(ks, es, 1, t)
  {
    assert StepOk(ks[0], es[0], ks[1]);
    CancelDooms(ks[0], t);
    CancelKeepsTasks(ks[0], t, t);
    DoomedIsDelivered(ks, es, 1, t);
  }

  // ---------------------------------------------------------------- chains of awaiting tasks

  /** Unfinished tasks, each awaiting the next. */
  predicate AwaitChain(k: Kernel, path: seq<nat>) {
    && path != []
    && (forall i :: 0 <= i < |path| ==> Unfinished(k, path[i]))
    && (forall i :: 0 <= i < |path| - 1 ==> k.futs[path[i]].waiter == Some(path[i + 1]))
  }

  /** A request at `u` ends at `e`: the pending plain future `u` awaits, or `u` itself. */
  predicate EndsAt(k: Kernel, u: nat, e: nat)
    requires IsTask(k, u)
  {
    var w := k.futs[u].waiter;
    if w.Some? && w.value < |k.futs| && !k.futs[w.value].Done() then w.value == e else u == e
  }

  lemma {:induction false} ChainPath(k: Kernel, t: nat, todo: set<nat>) returns (path: seq<nat>)
    requires Inv(k) && Unfinished(k, t) && Target(k, t, todo).Some?
    ensures AwaitChain(k, path) && path[0] == t && OnPlainFuture(k, path[|path| - 1])
    ensures EndsAt(k, path[|path| - 1], Target(k, t, todo).value)
    decreases todo
  {
    assert FutureOk(k, t);
    var w := k.futs[t].waiter;
    if w.Some? && !k.futs[w.value].Done() && k.futs[w.value].isTask {
      path := ChainPath(k, w.value, todo - {t});
      path := [t] + path;
    } else {
      path := [t];
      if w.Some? && !k.futs[w.value].Done() {
        assert Target(k, t, todo) == Target(k, w.value, todo - {t}) == Some(w.value);
      }
    }
  }

  /** Through a chain of awaiting tasks a request does exactly what cancelling the last task of
      the chain does, and that task is then doomed. */
  lemma CancelReachesChainEnd(k: Kernel, t: nat) returns (path: seq<nat>)
    requires Inv(k) && Unfinished(k, t) && Cancel(k, t).1 == Returned(true)
    ensures AwaitChain(k, path) && path[0] == t
    ensures var u := path[|path| - 1];
            OnPlainFuture(k, u) && Cancel(k, t) == Cancel(k, u) && Doomed(Cancel(k, t).0, u)
  {
    path := ChainPath(k, t, Below(|k.futs|));
    var u := path[|path| - 1];
    CancelDooms(k, u);
    var w := k.futs[u].waiter;
    if w.Some? && !k.futs[w.value].Done() {
      assert Target(k, u, Below(|k.futs|)) == Some(w.value);
    } else {
      assert Target(k, u, Below(|k.futs|)) == Some(u);
    }
  }

  /** Whatever an unfinished task awaits, a cancel that returns True is delivered: to the last
      task of its chain, or, if that is the task running just now, as its own cancel request. */
  lemma ChainCancelIsDelivered(ks: seq<Kernel>, es: seq<Event>, t: nat) returns (path: seq<nat>)
    requires IsRun(ks, es) && Inv(ks[0]) && |es| > 0 && es[0] == Act(CancelFuture(t))
    requires Unfinished(ks[0], t) && Cancel(ks[0], t).1 == Returned(true)
    ensures AwaitChain(ks[0], path) && path[0] == t
    ensures var u := path[|path| - 1];
            if Running(ks[0], u) then Running(ks[1], u) && Doomed(ks[1], u) else Delivered(ks, es, 1, u)
  {
    assert StepOk(ks[0], es[0], ks[1]);
    path := CancelReachesChainEnd(ks[0], t);
    var u := path[|path| - 1];
    CancelDooms(ks[0], u);
    CancelKeepsTasks(ks[0], t, u);
    hide Cancel, Doomed, Inv;
    if !Running(ks[0], u) { DoomedIsDelivered(ks, es, 1, u); }
  }

  /** Chains that do not loop never overflow the recursion: any ranking that decreases along
      `_fut_waiter` makes `cancel` of an unfinished future return True. */
  lemma {:induction false} AcyclicCancelReturns(k: Kernel, f: nat, rank: nat -> nat, todo: set<nat>)
    requires f < |k.futs| && !k.futs[f].Done()
    requires forall g: nat :: g < |k.futs| && k.futs[g].waiter.Some? ==> rank(k.futs[g].waiter.value) < rank(g)
    requires forall g: nat :: g < |k.futs| && rank(g) <= rank(f) ==> g in todo
    ensures Target(k, f, todo).Some?
    decreases rank(f)
  {
    var w := k.futs[f].waiter;
    if k.futs[f].isTask && w.Some? && w.value < |k.futs| && !k.futs[w.value].Done() {
      AcyclicCancelReturns(k, w.value, rank, todo - {f});
    }
  }

  // ---------------------------------------------------------------- cancelling oneself

  /** The coroutine awaits another unfinished task. */
  predicate AwaitsTask(k: Kernel, t: nat, o: Outcome)
    requires Enabled(k, End(o))
  {
    o.Await? && o.f != t && !k.futs[o.f].Done() && k.futs[o.f].isTask
  }

  /** It awaits another unfinished task whose await chain does not loop: its `cancel` takes the
      request. */
  predicate HandsOver(k: Kernel, t: nat, o: Outcome)
    requires t < |k.futs| && Enabled(k, End(o))
  {
    && AwaitsTask(k, t, o)
    && Target(AwaitFuture(k.(mode := Idle), t, o.f), o.f, Below(|k.futs|)).Some?
  }

  /** The step in which a task cancels itself: it ends as cancelled or with CancelledError, or
      suspends still doomed, exactly unless the coroutine itself raised another exception or
      suspended on another unfinished task, to which the request is then handed. */
  lemma SelfCancelOutcome(k: Kernel, t: nat, o: Outcome)
    requires Inv(k) && Running(k, t) && k.futs[t].mustCancel && Enabled(k, End(o))
    ensures (DoEnd(k, o).futs[t].state in {Cancelled, Raised(CancelledError)} || Doomed(DoEnd(k, o), t))
            <==> !(o.Raise? && o.exc != CancelledError) && !HandsOver(k, t, o)
  {
    var k0 := k.(mode := Idle);
    if o.Await? && o.f != t {
      var k1 := AwaitFuture(k0, t, o.f);
      CancelKeepsTasks(k1, o.f, t);
      if !k1.futs[o.f].Done() && !k1.futs[o.f].isTask {
        assert Target(k1, o.f, Below(|k1.futs|)) == Some(o.f);
      }
    }
  }

  /** Suspended after such a step, the task is on its way back. */
  lemma SelfCancelQueued(k: Kernel, t: nat, o: Outcome)
    requires Inv(k) && Running(k, t) && k.futs[t].mustCancel && Enabled(k, End(o)) && !AwaitsTask(k, t, o)
    requires Doomed(DoEnd(k, o), t)
    ensures InReady(DoEnd(k, o).ready, Wakeup(t)) > 0
  {
    var k' := DoEnd(k, o);
    NextInv(k, End(o));
    EndUnfinished(k, o, t);
    if o.Await? && o.f != t {
      var k1 := AwaitFuture(k.(mode := Idle), t, o.f);
      CancelKeepsTasks(k1, o.f, t);
      if !k1.futs[o.f].Done() { assert Target(k1, o.f, Below(|k1.futs|)) == Some(o.f); }
    }
    assert k'.futs[t].waiter.Some? && k'.futs[t].waiter.value < |k'.futs| ==> k'.futs[k'.futs[t].waiter.value].Done();
    hide DoEnd;
    Places(k', t);
  }

  lemma RunsOn(k: Kernel, e: Event, t: nat)
    requires Inv(k) && Enabled(k, e) && Running(k, t) && Doomed(k, t) && !e.End?
    ensures Running(Next(k, e), t) && Doomed(Next(k, e), t)
  {
    DoomedStays(k, e, t);
    if e.Act? { ActUnfinished(k, e.a, t); }
    hide DoAct;
  }

  lemma {:induction false} StillRunning(ks: seq<Kernel>, es: seq<Event>, t: nat, n: nat)
    requires IsRun(ks, es) && Inv(ks[0]) && 1 <= n <= |es| && Running(ks[1], t) && Doomed(ks[1], t)
    requires forall i :: 1 <= i < n ==> !es[i].End?
    ensures Running(ks[n], t) && Doomed(ks[n], t)
  {
    hide Doomed, Inv;
    if n > 1 {
      StillRunning(ks, es, t, n - 1);
      RunInv(ks, es, n - 1);
      assert StepOk(ks[n - 1], es[n - 1], ks[n]);
      RunsOn(ks[n - 1], es[n - 1], t);
    }
  }

  /** A task that cancels itself, over the whole run: `es[m]` ends the step in which it did.
      Unless its coroutine raises another exception or goes on to await an unfinished task, it
      ends as cancelled or with CancelledError, or its next resumption throws CancelledError. */
  lemma SelfCancelIsDelivered(ks: seq<Kernel>, es: seq<Event>, t: nat, m: nat)
    requires IsRun(ks, es) && Inv(ks[0]) && Running(ks[0], t) && 0 < m < |es| && es[0] == Act(CancelFuture(t))
    requires es[m].End? && forall i :: 1 <= i < m ==> !es[i].End?
    ensures Running(ks[m], t) && Enabled(ks[m], es[m])
    ensures var o := es[m].o;
            || (o.Raise? && o.exc != CancelledError) || AwaitsTask(ks[m], t, o)
            || (ks[m + 1].futs[t].state in {Cancelled, Raised(CancelledError)})
            || Delivered(ks, es, m + 1, t)
  {
    assert StepOk(ks[0], es[0], ks[1]);
    CancelDooms(ks[0], t);
    CancelKeepsTasks(ks[0], t, t);
    StillRunning(ks, es, t, m);
    RunInv(ks, es, m);
    assert StepOk(ks[m], es[m], ks[m + 1]);
    var k, o := ks[m], es[m].o;
    assert k.futs[t].mustCancel;
    SelfCancelOutcome(k, t, o);
    EndUnfinished(k, o, t);
    hide DoEnd, Delivered;
    if !(o.Raise? && o.exc != CancelledError) && !AwaitsTask(k, t, o) && Doomed(ks[m + 1], t) {
      SelfCancelQueued(k, t, o);
      DoomedIsDelivered(ks, es, m + 1, t);
    }
  }

  /** A run of five events: two tasks are created, the first one starts, cancels itself and awaits
      the second. */
  function HandsOverState(i: nat): Kernel {
    match i
    case 0 => INITIAL
    case 1 => Kernel([NEW_TASK], [Step(0, None)], Idle)
    case 2 => Kernel([NEW_TASK, NEW_TASK], [Step(0, None), Step(1, None)], Idle)
    case 3 => Kernel([NEW_TASK, NEW_TASK], [Step(1, None)], InTask(0, None))
    case 4 => Kernel([NEW_TASK.(mustCancel := true), NEW_TASK], [Step(1, None)], InTask(0, None))
    case _ => Kernel([NEW_TASK.(waiter := Some(1)), NEW_TASK.(mustCancel := true, callbacks := [Wakeup(0)])],
                     [Step(1, None)], Idle)
  }

  lemma TwoTasksStart()
    ensures StepOk(HandsOverState(0), Act(CreateTask), HandsOverState(1))
    ensures StepOk(HandsOverState(1), Act(CreateTask), HandsOverState(2))
    ensures StepOk(HandsOverState(2), Begin, HandsOverState(3))
  {
  }

  lemma SelfCancelStep()
    ensures StepOk(HandsOverState(3), Act(CancelFuture(0)), HandsOverState(4))
    ensures Running(HandsOverState(3), 0) && Running(HandsOverState(4), 0)
  {
    assert Target(HandsOverState(3), 0, Below(2)) == Some(0);
  }

  lemma HandsOverStep()
    ensures var k, k' := HandsOverState(4), HandsOverState(5);
            && StepOk(k, End(Await(1)), k') && Enabled(k, End(Await(1))) && 0 < |k.futs| && HandsOver(k, 0, Await(1))
            && Unfinished(k', 0) && !Doomed(k', 0) && Doomed(k', 1)
  {
    var k := HandsOverState(4);
    assert NEW_TASK.callbacks + [Wakeup(0)] == [Wakeup(0)];
    assert Target(AwaitFuture(k.(mode := Idle), 0, 1), 1, Below(2)) == Some(1);
  }

  /** The last two steps of a run: task 0 cancelled itself, awaits task 1, and is left waiting,
      neither cancelled nor doomed, while task 1 has the request. */
  ghost predicate EndsHandedOver(ks: seq<Kernel>, es: seq<Event>)
    requires |ks| == |es| + 1
  {
    && |es| >= 2 && es[|es| - 2] == Act(CancelFuture(0)) && es[|es| - 1] == End(Await(1))
    && Running(ks[|es| - 2], 0) && Running(ks[|es| - 1], 0)
    && Enabled(ks[|es| - 1], End(Await(1))) && 0 < |ks[|es| - 1].futs| && HandsOver(ks[|es| - 1], 0, Await(1))
    && Unfinished(ks[|es|], 0) && !Doomed(ks[|es|], 0) && Doomed(ks[|es|], 1)
  }

  lemma HandsOverIsRun(ks: seq<Kernel>, es: seq<Event>)
    requires |ks| == 6 && |es| == 5 && forall i :: 0 <= i < 6 ==> ks[i] == HandsOverState(i)
    requires es[0] == es[1] == Act(CreateTask) && es[2] == Begin
    requires es[3] == Act(CancelFuture(0)) && es[4] == End(Await(1))
    ensures IsRun(ks, es)
  {
    hide StepOk, HandsOverState, HandsOver, Doomed, Unfinished, Enabled, Running;
    TwoTasksStart();
    SelfCancelStep();
    HandsOverStep();
  }

  lemma HandsOverEnds(ks: seq<Kernel>, es: seq<Event>)
    requires |ks| == 6 && |es| == 5 && ks[3] == HandsOverState(3) && ks[4] == HandsOverState(4)
    requires ks[5] == HandsOverState(5) && es[3] == Act(CancelFuture(0)) && es[4] == End(Await(1))
    ensures EndsHandedOver(ks, es)
  {
    hide StepOk, HandsOverState, HandsOver, Doomed, Unfinished, Enabled, Running;
    SelfCancelStep();
    HandsOverStep();
  }

  /** The excluded family is reached from the empty kernel. */
  lemma HandsOverExample()
    ensures exists ks: seq<Kernel>, es: seq<Event> :: IsRun(ks, es) && ks[0] == INITIAL && EndsHandedOver(ks, es)
  {
    assert HandsOverState(0) == INITIAL;
    hide HandsOverState;
    var ks := seq(6, i requires 0 <= i < 6 => HandsOverState(i));
    var es := [Act(CreateTask), Act(CreateTask), Begin, Act(CancelFuture(0)), End(Await(1))];
    HandsOverIsRun(ks, es);
    HandsOverEnds(ks, es);
    hide IsRun, EndsHandedOver;
  }
}

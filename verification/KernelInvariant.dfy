/** The invariant of the kernel over every run: one pending resumption per unfinished task. */
module KernelInvariant {
  import opened Common
  import opened Kernel
  import opened KernelCounts

  /** Where a ready entry may stand relative to its task's `_fut_waiter`. */
  predicate HandleOk(k: Kernel, h: Handle) {
    match h
    case Step(t, _) => IsTask(k, t) && k.futs[t].waiter == None
    case Call(User(_), f) => f < |k.futs| && k.futs[f].Done()
    case Call(Wakeup(t), f) =>
      IsTask(k, t) && k.futs[t].waiter == Some(f) && f < |k.futs| && k.futs[f].Done()
  }

  predicate CallbackOk(k: Kernel, f: nat, cb: Callback) {
    cb.Wakeup? ==> IsTask(k, cb.task) && k.futs[cb.task].waiter == Some(f)
  }

  predicate FutureOk(k: Kernel, f: nat)
    requires f < |k.futs|
  {
    && (k.futs[f].Done() ==> k.futs[f].callbacks == [])
    && (k.futs[f].waiter.Some? ==> k.futs[f].waiter.value < |k.futs|)
    && forall i :: 0 <= i < |k.futs[f].callbacks| ==> CallbackOk(k, f, k.futs[f].callbacks[i])
  }

  predicate Located(k: Kernel) {
    && (forall i :: 0 <= i < |k.ready| ==> HandleOk(k, k.ready[i]))
    && (forall f :: 0 <= f < |k.futs| ==> FutureOk(k, f))
    && (k.mode.InTask? ==> Unfinished(k, k.mode.task) && k.futs[k.mode.task].waiter == None)
  }

  /** The resumptions a task is owed: one while it is unfinished and suspended, else none. */
  function Owed(k: Kernel, t: nat): nat {
    if Unfinished(k, t) && !Running(k, t) then 1 else 0
  }

  ghost predicate OneResumption(k: Kernel) {
    forall t: nat :: Total(k, Wakeup(t)) == Owed(k, t)
  }

  ghost predicate Inv(k: Kernel) { Located(k) && OneResumption(k) }

  lemma CompleteLocated(k: Kernel, f: nat, st: State)
    requires Located(k) && f < |k.futs| && st != Pending && !Running(k, f)
    ensures Located(Complete(k, f, st))
  {
    var k' := Complete(k, f, st);
    forall i | 0 <= i < |k'.ready| ensures HandleOk(k', k'.ready[i]) {
      if i < |k.ready| {
        assert HandleOk(k, k.ready[i]);
      } else {
        assert FutureOk(k, f);
        assert CallbackOk(k, f, k.futs[f].callbacks[i - |k.ready|]);
      }
    }
    forall g | 0 <= g < |k'.futs| ensures FutureOk(k', g) {
      assert FutureOk(k, g);
    }
  }

  lemma EnqueueLocated(k: Kernel, h: Handle)
    requires Located(k) && HandleOk(k, h)
    ensures Located(Enqueue(k, h))
  {
    var k' := Enqueue(k, h);
    forall i | 0 <= i < |k'.ready| ensures HandleOk(k', k'.ready[i]) {
      if i < |k.ready| { assert HandleOk(k, k.ready[i]); }
    }
    forall g | 0 <= g < |k'.futs| ensures FutureOk(k', g) { assert FutureOk(k, g); }
  }

  lemma AddUserCallbackLocated(k: Kernel, f: nat, id: nat)
    requires Located(k) && f < |k.futs|
    ensures Located(AddDoneCallback(k, f, User(id)))
  {
    if k.futs[f].Done() {
      EnqueueLocated(k, Call(User(id), f));
    } else {
      var k' := AddDoneCallback(k, f, User(id));
      forall i | 0 <= i < |k'.ready| ensures HandleOk(k', k'.ready[i]) { assert HandleOk(k, k.ready[i]); }
      forall g | 0 <= g < |k'.futs| ensures FutureOk(k', g) { assert FutureOk(k, g); }
    }
  }

  lemma MustCancelLocated(k: Kernel, t: nat, m: bool)
    requires Located(k) && t < |k.futs|
    ensures Located(SetTask(k, t, m, k.futs[t].waiter))
  {
    var k' := SetTask(k, t, m, k.futs[t].waiter);
    forall i | 0 <= i < |k'.ready| ensures HandleOk(k', k'.ready[i]) { assert HandleOk(k, k.ready[i]); }
    forall g | 0 <= g < |k'.futs| ensures FutureOk(k', g) { assert FutureOk(k, g); }
  }

  lemma CancelLocated(k: Kernel, f: nat)
    requires Located(k) && f < |k.futs|
    ensures Located(Cancel(k, f).0)
  {
    if !k.futs[f].Done() {
      var e := Target(k, f, Below(|k.futs|));
      if e.Some? {
        if k.futs[e.value].isTask { MustCancelLocated(k, e.value, true); }
        else { CompleteLocated(k, e.value, Cancelled); }
      }
    }
  }

  /** Nothing but completing a task changes which tasks are unfinished. */
  lemma CancelKeepsTasks(k: Kernel, f: nat, t: nat)
    requires f < |k.futs|
    ensures IsTask(Cancel(k, f).0, t) == IsTask(k, t)
    ensures Unfinished(Cancel(k, f).0, t) == Unfinished(k, t)
    ensures IsTask(k, t) ==> Cancel(k, f).0.futs[t].waiter == k.futs[t].waiter
    ensures |Cancel(k, f).0.futs| == |k.futs| && Cancel(k, f).0.mode == k.mode
  {
  }

  lemma AppendLocated(k: Kernel, x: Future)
    requires Located(k) && x.callbacks == [] && x.waiter == None
    ensures Located(k.(futs := k.futs + [x]))
  {
    var k' := k.(futs := k.futs + [x]);
    forall i | 0 <= i < |k'.ready| ensures HandleOk(k', k'.ready[i]) { assert HandleOk(k, k.ready[i]); }
    forall g | 0 <= g < |k'.futs| ensures FutureOk(k', g) { if g < |k.futs| { assert FutureOk(k, g); } }
  }

  lemma OthersSubset(cbs: seq<Callback>, cb: Callback)
    ensures forall i :: 0 <= i < |Others(cbs, cb)| ==> Others(cbs, cb)[i] in cbs
  {
  }

  lemma RemoveLocated(k: Kernel, f: nat, id: nat)
    requires Located(k) && f < |k.futs|
    ensures Located(DoAct(k, RemoveCallback(f, id)))
  {
    var k' := DoAct(k, RemoveCallback(f, id));
    OthersSubset(k.futs[f].callbacks, User(id));
    forall i | 0 <= i < |k'.ready| ensures HandleOk(k', k'.ready[i]) { assert HandleOk(k, k.ready[i]); }
    forall g | 0 <= g < |k'.futs| ensures FutureOk(k', g) { assert FutureOk(k, g); }
  }

  lemma ActLocated(k: Kernel, a: Action)
    requires Located(k) && ActionOk(k, a)
    ensures Located(DoAct(k, a))
  {
    match a
    case CreateFuture => AppendLocated(k, PLAIN_FUTURE);
    case CreateTask =>
      AppendLocated(k, NEW_TASK);
      EnqueueLocated(k.(futs := k.futs + [NEW_TASK]), Step(|k.futs|, None));
    case SetResult(f, v) => if !k.futs[f].isTask { CompleteLocated(k, f, Result(v)); }
    case SetException(f, x) => if !k.futs[f].isTask { CompleteLocated(k, f, Raised(x)); }
    case CancelFuture(f) => CancelLocated(k, f);
    case AddCallback(f, id) => AddUserCallbackLocated(k, f, id);
    case RemoveCallback(f, id) => RemoveLocated(k, f, id);
  }

  lemma HeadUnfinished(k: Kernel)
    requires Inv(k) && Resumes(k).Some?
    ensures Unfinished(k, Resumes(k).value) && !Running(k, Resumes(k).value)
    ensures InReady(k.ready[1..], Wakeup(Resumes(k).value)) == 0
    ensures InFutures(k.futs, Wakeup(Resumes(k).value)) == 0
  {
    assert Fires(k.ready[0], Wakeup(Resumes(k).value));
    assert Total(k, Wakeup(Resumes(k).value)) == Owed(k, Resumes(k).value);
  }

  lemma StepInLocated(k: Kernel, t: nat, thrown: Option<Exc>)
    requires Inv(k) && k.mode.Idle? && Resumes(k) == Some(t)
    ensures t < |k.futs|
    ensures Located(SetTask(k.(ready := k.ready[1..]), t, false, None).(mode := InTask(t, thrown)))
  {
    HeadUnfinished(k);
    var k1 := k.(ready := k.ready[1..]);
    var k' := SetTask(k1, t, false, None).(mode := InTask(t, thrown));
    InReadyPositive(k1.ready, Wakeup(t));
    InFuturesPositive(k.futs, Wakeup(t));
    forall i | 0 <= i < |k'.ready| ensures HandleOk(k', k'.ready[i]) {
      assert HandleOk(k, k.ready[i + 1]);
      assert k1.ready[i] == k.ready[i + 1];
      assert !Fires(k1.ready[i], Wakeup(t));
    }
    forall g | 0 <= g < |k'.futs| ensures FutureOk(k', g) {
      assert FutureOk(k, g);
      assert Wakeup(t) !in k.futs[g].callbacks;
    }
  }

  lemma BeginLocated(k: Kernel)
    requires Inv(k) && Enabled(k, Begin)
    ensures Located(DoBegin(k))
    ensures Resumes(k).Some? && !WakesOnBaseExc(k) ==> Running(DoBegin(k), Resumes(k).value)
  {
    assert HandleOk(k, k.ready[0]);
    if Resumes(k).Some? { HeadUnfinished(k); }
    if Resumes(k).Some? && !WakesOnBaseExc(k) {
      StepInLocated(k, Resumes(k).value, DoBegin(k).mode.thrown);
    } else {
      var k' := DoBegin(k);
      forall i | 0 <= i < |k'.ready| ensures HandleOk(k', k'.ready[i]) { assert HandleOk(k, k.ready[i + 1]); }
      forall g | 0 <= g < |k'.futs| ensures FutureOk(k', g) { assert FutureOk(k, g); }
    }
  }

  lemma IdleLocated(k: Kernel)
    requires Located(k)
    ensures Located(k.(mode := Idle))
  {
    var k' := k.(mode := Idle);
    forall i | 0 <= i < |k'.ready| ensures HandleOk(k', k'.ready[i]) { assert HandleOk(k, k.ready[i]); }
    forall g | 0 <= g < |k'.futs| ensures FutureOk(k', g) { assert FutureOk(k, g); }
  }

  lemma AwaitLocated(k: Kernel, t: nat, f: nat)
    requires Located(k) && k.mode.Idle? && Unfinished(k, t) && f < |k.futs| && f != t
    requires Total(k, Wakeup(t)) == 0
    ensures Located(AwaitFuture(k, t, f))
  {
    var k' := AwaitFuture(k, t, f);
    InReadyPositive(k.ready, Wakeup(t));
    InFuturesPositive(k.futs, Wakeup(t));
    hide InReady, InFutures;
    forall i | 0 <= i < |k'.ready| ensures HandleOk(k', k'.ready[i]) {
      if i < |k.ready| {
        assert HandleOk(k, k.ready[i]);
        assert !Fires(k.ready[i], Wakeup(t));
      }
    }
    forall g | 0 <= g < |k'.futs| ensures FutureOk(k', g) {
      assert FutureOk(k, g);
      assert Wakeup(t) !in k.futs[g].callbacks;
    }
  }

  lemma EndLocated(k: Kernel, o: Outcome)
    requires Inv(k) && Enabled(k, End(o))
    ensures Located(DoEnd(k, o))
  {
    var t := k.mode.task;
    var k0 := k.(mode := Idle);
    IdleLocated(k);
    match o
    case Return(v) =>
      MustCancelLocated(k0, t, false);
      CompleteLocated(SetTask(k0, t, false, k.futs[t].waiter), t, Raised(CancelledError));
      CompleteLocated(k0, t, Result(v));
    case Raise(x) => CompleteLocated(k0, t, if x.CancelledError? then Cancelled else Raised(x));
    case BareYield => EnqueueLocated(k0, Step(t, None));
    case BadYield => EnqueueLocated(k0, Step(t, Some(RuntimeError)));
    case Await(f) =>
      if f == t {
        EnqueueLocated(k0, Step(t, Some(RuntimeError)));
      } else {
        assert Total(k0, Wakeup(t)) == Total(k, Wakeup(t)) == Owed(k, t);
        AwaitLocated(k0, t, f);
        var k1 := AwaitFuture(k0, t, f);
        CancelLocated(k1, f);
        CancelKeepsTasks(k1, f, t);
        MustCancelLocated(Cancel(k1, f).0, t, false);
      }
  }

  /** What an action does to the tasks: it creates at most one and completes none. */
  lemma ActUnfinished(k: Kernel, a: Action, t: nat)
    requires ActionOk(k, a)
    ensures Unfinished(DoAct(k, a), t) <==> Unfinished(k, t) || (a.CreateTask? && t == |k.futs|)
    ensures DoAct(k, a).mode == k.mode
  {
    if a.CancelFuture? { CancelKeepsTasks(k, a.f, t); }
    hide Cancel;
  }

  /** Ending a step completes the running task or suspends it, and touches no other task. */
  lemma EndUnfinished(k: Kernel, o: Outcome, t: nat)
    requires Enabled(k, End(o))
    ensures Unfinished(DoEnd(k, o), t) <==> Unfinished(k, t) && !((o.Return? || o.Raise?) && t == k.mode.task)
    ensures DoEnd(k, o).mode == Idle
  {
    if o.Await? && o.f != k.mode.task {
      CancelKeepsTasks(AwaitFuture(k.(mode := Idle), k.mode.task, o.f), o.f, t);
    }
    hide Cancel;
  }

  /** What a task is owed moves with what the event registers and uses up. */
  lemma NextOwed(k: Kernel, e: Event, t: nat)
    requires Inv(k) && Enabled(k, e)
    requires e.Begin? ==> !WakesOnBaseExc(k)
    ensures Owed(Next(k, e), t) + Loses(k, e, Wakeup(t)) == Owed(k, t) + Gains(k, e, Wakeup(t))
  {
    hide DoAct, DoEnd;
    match e
    case Begin =>
      BeginLocated(k);
      assert HandleOk(k, k.ready[0]);
      if Resumes(k).Some? { HeadUnfinished(k); }
    case EndCallback =>
    case Act(a) => ActUnfinished(k, a, t);
    case End(o) => EndUnfinished(k, o, t);
  }

  lemma NextInv(k: Kernel, e: Event)
    requires Inv(k) && Enabled(k, e)
    requires e.Begin? ==> !WakesOnBaseExc(k)
    ensures Inv(Next(k, e))
  {
    match e {
      case Begin => BeginLocated(k);
      case Act(a) => ActLocated(k, a);
      case End(o) => EndLocated(k, o);
      case EndCallback => IdleLocated(k);
    }
    forall t: nat ensures Total(Next(k, e), Wakeup(t)) == Owed(Next(k, e), t) {
      assert Total(k, Wakeup(t)) == Owed(k, t);
      NextCounts(k, e, Wakeup(t));
      NextOwed(k, e, t);
    }
  }

  lemma {:induction false} RunInv(ks: seq<Kernel>, es: seq<Event>, i: nat)
    requires IsRun(ks, es) && Inv(ks[0]) && i <= |es|
    ensures Inv(ks[i])
  {
    if i > 0 {
      RunInv(ks, es, i - 1);
      assert StepOk(ks[i - 1], es[i - 1], ks[i]);
      NextInv(ks[i - 1], es[i - 1]);
    }
  }

  lemma InitialInv()
    ensures Inv(INITIAL)
  {
  }

  /** `_fut_waiter` says where the one pending resumption of `t` is: a scheduled `__step`
      without a waiter, a callback of a pending waiter, a ready wakeup of a done waiter. */
  ghost predicate ResumptionAtWaiter(k: Kernel, t: nat)
    requires IsTask(k, t)
  {
    var inReady, inFutures := InReady(k.ready, Wakeup(t)), InFutures(k.futs, Wakeup(t));
    var w := k.futs[t].waiter;
    if w.None? then
      (exists x :: Step(t, x) in k.ready) && inReady == 1 && inFutures == 0
    else
      && w.value < |k.futs|
      && (k.futs[w.value].Done() ==>
            Call(Wakeup(t), w.value) in k.ready && inReady == 1 && inFutures == 0)
      && (!k.futs[w.value].Done() ==>
            Wakeup(t) in k.futs[w.value].callbacks && inReady == 0 && inFutures == 1)
  }

  lemma Places(k: Kernel, t: nat)
    requires Inv(k) && Unfinished(k, t) && !Running(k, t)
    ensures ResumptionAtWaiter(k, t)
  {
    assert Total(k, Wakeup(t)) == Owed(k, t);
    assert FutureOk(k, t);
    InReadyPositive(k.ready, Wakeup(t));
    InFuturesPositive(k.futs, Wakeup(t));
    if j :| 0 <= j < |k.ready| && Fires(k.ready[j], Wakeup(t)) {
      assert HandleOk(k, k.ready[j]);
      if k.ready[j].Step? { assert Step(t, k.ready[j].exc) in k.ready; }
    }
    if g :| 0 <= g < |k.futs| && Wakeup(t) in k.futs[g].callbacks {
      assert FutureOk(k, g);
      var m :| 0 <= m < |k.futs[g].callbacks| && k.futs[g].callbacks[m] == Wakeup(t);
      assert CallbackOk(k, g, k.futs[g].callbacks[m]);
    }
  }

  /** Every task of every reachable state: a finished task has no pending resumption, an
      unfinished suspended one has exactly one, where `_fut_waiter` says. */
  lemma {:induction false} ExactlyOneResumption(ks: seq<Kernel>, es: seq<Event>, i: nat, t: nat)
    requires IsRun(ks, es) && ks[0] == INITIAL && i <= |es| && IsTask(ks[i], t)
    ensures Total(ks[i], Wakeup(t)) == if Unfinished(ks[i], t) && !Running(ks[i], t) then 1 else 0
    ensures Unfinished(ks[i], t) && !Running(ks[i], t) ==> ResumptionAtWaiter(ks[i], t)
  {
    InitialInv();
    RunInv(ks, es, i);
    assert Total(ks[i], Wakeup(t)) == Owed(ks[i], t);
    if Unfinished(ks[i], t) && !Running(ks[i], t) { Places(ks[i], t); }
  }

  /** The "already done" error of `__step` cannot occur: whatever the loop resumes is unfinished. */
  lemma NeverResumesDone(ks: seq<Kernel>, es: seq<Event>, i: nat)
    requires IsRun(ks, es) && ks[0] == INITIAL && i < |es| && es[i].Begin?
    requires Resumes(ks[i]).Some?
    ensures Unfinished(ks[i], Resumes(ks[i]).value)
    ensures Running(ks[i + 1], Resumes(ks[i]).value)
  {
    InitialInv();
    RunInv(ks, es, i);
    HeadUnfinished(ks[i]);
    assert StepOk(ks[i], es[i], ks[i + 1]);
    BeginLocated(ks[i]);
  }

  /** The side condition on runs is exact: popping a handle keeps the invariant if and only if
      the handle is not a wakeup for a future holding an exception outside `Exception`. */
  lemma BeginKeepsInvariantIff(k: Kernel)
    requires Inv(k) && Enabled(k, Begin)
    ensures Inv(DoBegin(k)) <==> !WakesOnBaseExc(k)
  {
    if WakesOnBaseExc(k) {
      var t := Resumes(k).value;
      HeadUnfinished(k);
      assert HandleOk(k, k.ready[0]);
      assert Total(DoBegin(k), Wakeup(t)) == 0 && Owed(DoBegin(k), t) == 1;
    } else {
      NextInv(k, Begin);
    }
  }

  ghost predicate Stuck(k: Kernel, t: nat) {
    Unfinished(k, t) && !Running(k, t) && Total(k, Wakeup(t)) == 0
  }

  /** A task without a pending resumption never gets one again: no event of any kind,
      cancellation included, brings it back. */
  lemma StuckStays(k: Kernel, e: Event, t: nat)
    requires Enabled(k, e) && Stuck(k, t)
    ensures Stuck(Next(k, e), t)
  {
    NextCounts(k, e, Wakeup(t));
    hide DoAct, DoEnd, InFutures;
    match e
    case Begin => assert !Fires(k.ready[0], Wakeup(t));
    case EndCallback =>
    case Act(a) => ActUnfinished(k, a, t);
    case End(o) => EndUnfinished(k, o, t);
  }

  /** The failing family of `BeginKeepsInvariantIff` loses its task for good: awaiting a future
      whose exception lies outside `Exception` leaves the task unfinished and unresumable. */
  lemma BaseExcStrandsTask(k: Kernel)
    requires Inv(k) && Enabled(k, Begin) && WakesOnBaseExc(k)
    ensures Stuck(DoBegin(k), Resumes(k).value)
  {
    HeadUnfinished(k);
    assert HandleOk(k, k.ready[0]);
  }

  /** A run of five events: a task awaits a future that is then given such an exception. */
  function BaseExcState(i: nat): Kernel {
    match i
    case 0 => INITIAL
    case 1 => Kernel([PLAIN_FUTURE], [], Idle)
    case 2 => Kernel([PLAIN_FUTURE, NEW_TASK], [Step(1, None)], Idle)
    case 3 => Kernel([PLAIN_FUTURE, NEW_TASK], [], InTask(1, None))
    case 4 => Kernel([PLAIN_FUTURE.(callbacks := [Wakeup(1)]), NEW_TASK.(waiter := Some(0))], [], Idle)
    case _ => Kernel([PLAIN_FUTURE.(state := Raised(BaseExc(0))), NEW_TASK.(waiter := Some(0))],
                     [Call(Wakeup(1), 0)], Idle)
  }

  lemma BaseExcStart()
    ensures StepOk(BaseExcState(0), Act(CreateFuture), BaseExcState(1))
    ensures StepOk(BaseExcState(1), Act(CreateTask), BaseExcState(2))
    ensures StepOk(BaseExcState(2), Begin, BaseExcState(3))
  {
  }

  lemma BaseExcAwait()
    ensures StepOk(BaseExcState(3), End(Await(0)), BaseExcState(4))
    ensures StepOk(BaseExcState(4), Act(SetException(0, BaseExc(0))), BaseExcState(5))
    ensures Enabled(BaseExcState(5), Begin) && WakesOnBaseExc(BaseExcState(5))
  {
    assert PLAIN_FUTURE.callbacks + [Wakeup(1)] == [Wakeup(1)];
  }

  /** A run into that family, from the empty kernel. */
  lemma BaseExcExample()
    ensures exists ks: seq<Kernel>, es: seq<Event> ::
              IsRun(ks, es) && ks[0] == INITIAL && Enabled(ks[|es|], Begin) && WakesOnBaseExc(ks[|es|])
  {
    assert BaseExcState(0) == INITIAL;
    hide StepOk, Enabled, WakesOnBaseExc, BaseExcState;
    BaseExcStart();
    BaseExcAwait();
    var ks := seq(6, i requires 0 <= i < 6 => BaseExcState(i));
    var es := [Act(CreateFuture), Act(CreateTask), Begin, End(Await(0)), Act(SetException(0, BaseExc(0)))];
    assert IsRun(ks, es);
    assert WakesOnBaseExc(ks[|es|]);
  }
}

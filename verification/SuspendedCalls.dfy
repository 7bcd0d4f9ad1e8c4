/** Calls suspended on private futures, as `Lock`, `Semaphore` and `Queue` keep them, and what the
    kernel does to them: how their status follows from the kernel's state, and how each event moves
    it. */
module SuspendedCalls {
  import opened Common
  import opened Kernel
  import opened KernelCounts
  import opened KernelInvariant
  import opened KernelCancel
  import W = Waiters

  /** A suspended call: arrival number, task, and the future it created. */
  datatype Caller = Caller(id: nat, task: nat, fut: nat)

  function StatusOf(k: Kernel, c: Caller): W.Status {
    if c.fut >= |k.futs| || c.task >= |k.futs| || k.futs[c.fut].state == Pending then W.Waiting
    else if k.futs[c.fut].state == Cancelled then W.Cancelled
    else if k.futs[c.task].mustCancel then W.WokenCancelled
    else W.Woken
  }

  /** What holds of a suspended call: its task awaits its future, a plain one that only the code
      the call belongs to completes. */
  predicate Suspended(k: Kernel, c: Caller) {
    && Unfinished(k, c.task) && !Running(k, c.task) && k.futs[c.task].waiter == Some(c.fut)
    && c.fut < |k.futs| && !k.futs[c.fut].isTask && !k.futs[c.fut].state.Raised?
    && (k.futs[c.fut].state == Pending ==> !k.futs[c.task].mustCancel)
  }

  /** The kernel event `e` leaves the call to its owner: it does not resume it, and does not
      complete, cancel or await its private future.  Cancelling tasks is free. */
  predicate Foreign(k: Kernel, e: Event, c: Caller)
    requires Enabled(k, e)
  {
    match e
    case Begin => Resumes(k) != Some(c.task)
    case Act(SetResult(f, _)) => f != c.fut
    case Act(SetException(f, _)) => f != c.fut
    case Act(CancelFuture(f)) => f != c.fut
    case End(Await(f)) => f != c.fut
    case _ => true
  }

  /** Nothing that the call's status depends on has changed. */
  predicate SameCall(k: Kernel, k': Kernel, c: Caller)
    requires c.task < |k.futs| && c.fut < |k.futs|
  {
    && |k.futs| <= |k'.futs|
    && k'.futs[c.fut].state == k.futs[c.fut].state && k'.futs[c.fut].isTask == k.futs[c.fut].isTask
    && k'.futs[c.task].(callbacks := []) == k.futs[c.task].(callbacks := [])
  }

  /** The call was cancelled: its pending future, or, that being done, its task. */
  predicate CancelledCall(k: Kernel, k': Kernel, c: Caller)
    requires c.task < |k.futs| && c.fut < |k.futs|
  {
    && |k.futs| <= |k'.futs| && k'.futs[c.fut].isTask == k.futs[c.fut].isTask
    && (if k.futs[c.fut].state == Pending
        then k'.futs[c.fut].state == Cancelled
             && k'.futs[c.task].(callbacks := []) == k.futs[c.task].(callbacks := [])
        else k'.futs[c.fut].state == k.futs[c.fut].state
             && k'.futs[c.task].(callbacks := []) == k.futs[c.task].(callbacks := [], mustCancel := true))
  }

  /** Where a cancel request lands. */
  function Hit(k: Kernel, f: nat): Option<nat>
    requires f < |k.futs|
  {
    if k.futs[f].Done() then None else Target(k, f, Below(|k.futs|))
  }

  predicate Involves(c: Caller, x: Option<nat>) { x == Some(c.task) || x == Some(c.fut) }

  predicate Touches(k: Kernel, k': Kernel, c: Caller, x: Option<nat>)
    requires c.task < |k.futs| && c.fut < |k.futs|
  {
    if Involves(c, x) then CancelledCall(k, k', c) else SameCall(k, k', c)
  }

  lemma CancelTouches(k: Kernel, f: nat, c: Caller)
    requires f < |k.futs| && Suspended(k, c)
    ensures Touches(k, Cancel(k, f).0, c, Hit(k, f))
  {
  }

  /** Where the request that an event makes, if any, lands. */
  function HitBy(k: Kernel, e: Event): Option<nat>
    requires Enabled(k, e)
  {
    match e
    case Act(CancelFuture(f)) => Hit(k, f)
    case End(Await(f)) =>
      if f != k.mode.task && k.futs[k.mode.task].mustCancel
      then Hit(AwaitFuture(k.(mode := Idle), k.mode.task, f), f) else None
    case _ => None
  }

  lemma ActTouches(k: Kernel, a: Action, c: Caller)
    requires ActionOk(k, a) && Suspended(k, c) && Foreign(k, Act(a), c)
    ensures Touches(k, DoAct(k, a), c, HitBy(k, Act(a)))
  {
    if a.CancelFuture? { CancelTouches(k, a.f, c); }
    hide Cancel;
  }

  lemma AwaitTouches(k: Kernel, f: nat, c: Caller)
    requires Enabled(k, End(Await(f))) && Suspended(k, c) && f != c.fut && f != k.mode.task
    ensures Touches(k, DoEnd(k, Await(f)), c, HitBy(k, End(Await(f))))
  {
    var t := k.mode.task;
    var k1 := AwaitFuture(k.(mode := Idle), t, f);
    assert SameCall(k, k1, c) && Suspended(k1, c);
    if k.futs[t].mustCancel {
      CancelTouches(k1, f, c);
      CancelKeepsLength(k1, f);
      hide Cancel;
    }
  }

  lemma EndTouches(k: Kernel, o: Outcome, c: Caller)
    requires Enabled(k, End(o)) && IsTask(k, k.mode.task) && Suspended(k, c) && Foreign(k, End(o), c)
    ensures Touches(k, DoEnd(k, o), c, HitBy(k, End(o)))
  {
    if o.Await? && o.f != k.mode.task { AwaitTouches(k, o.f, c); }
    hide Cancel;
  }

  lemma BeginTouches(k: Kernel, c: Caller)
    requires Enabled(k, Begin) && Suspended(k, c) && Resumes(k) != Some(c.task)
    ensures SameCall(k, DoBegin(k), c) && Touches(k, DoBegin(k), c, None)
  {
  }

  lemma IdleTouches(k: Kernel, c: Caller)
    requires Suspended(k, c)
    ensures Touches(k, k.(mode := Idle), c, None)
  {
  }

  lemma EventTouches(k: Kernel, e: Event, c: Caller)
    requires Located(k) && Enabled(k, e) && Suspended(k, c) && Foreign(k, e, c)
    ensures Touches(k, Next(k, e), c, HitBy(k, e))
  {
    hide DoAct, DoEnd, Touches;
    match e
    case Act(a) => ActTouches(k, a, c);
    case End(o) => EndTouches(k, o, c);
    case Begin => BeginTouches(k, c);
    case EndCallback => IdleTouches(k, c);
  }

  /** A touched call stays suspended, and its status is the old one or that of a cancelled call. */
  lemma TouchedStatus(k: Kernel, k': Kernel, c: Caller, x: Option<nat>)
    requires Suspended(k, c) && Touches(k, k', c, x) && !Running(k', c.task)
    ensures Suspended(k', c)
    ensures StatusOf(k', c) == if Involves(c, x) then W.CancelStatus(StatusOf(k, c)) else StatusOf(k, c)
  {
  }

  /** Setting the result of another caller's future, or an event without a request. */
  lemma SameStatus(k: Kernel, k': Kernel, c: Caller)
    requires Suspended(k, c) && SameCall(k, k', c) && !Running(k', c.task)
    ensures Suspended(k', c) && StatusOf(k', c) == StatusOf(k, c)
  {
  }

  lemma WokenStatus(k: Kernel, c: Caller)
    requires Suspended(k, c) && !k.futs[c.fut].Done()
    ensures var k' := DoAct(k, SetResult(c.fut, 1));
            Suspended(k', c) && StatusOf(k, c) == W.Waiting && StatusOf(k', c) == W.Woken
  {
  }

  lemma WokenOther(k: Kernel, f: nat, c: Caller)
    requires Suspended(k, c) && f < |k.futs| && f != c.fut
    ensures var k' := DoAct(k, SetResult(f, 1)); Suspended(k', c) && StatusOf(k', c) == StatusOf(k, c)
  {
  }

  /** What resuming caller `c` throws into `acquire`. */
  lemma ResumedBy(k: Kernel, c: Caller)
    requires Inv(k) && Enabled(k, Begin) && Suspended(k, c) && Resumes(k) == Some(c.task)
    ensures StatusOf(k, c) != W.Waiting && !WakesOnBaseExc(k)
    ensures DoBegin(k).mode == InTask(c.task, if StatusOf(k, c) == W.Woken then None else Some(CancelledError))
  {
    assert HandleOk(k, k.ready[0]);
    HeadUnfinished(k);
  }

  /** The kernel after `acquire` in task `t` has created its future and awaits it. */
  lemma Suspends(k: Kernel, c: Caller)
    requires Inv(k) && Running(k, c.task) && c.fut == |k.futs|
    ensures var k' := DoEnd(DoAct(k, CreateFuture), Await(c.fut));
            && Suspended(k', c)
            && StatusOf(k', c) == if k.futs[c.task].mustCancel then W.Cancelled else W.Waiting
  {
    var k1 := DoAct(k, CreateFuture);
    var k2 := AwaitFuture(k1.(mode := Idle), c.task, c.fut);
    assert Target(k2, c.fut, Below(|k2.futs|)) == Some(c.fut);
  }

  lemma OthersStay(k: Kernel, t: nat, c: Caller)
    requires Inv(k) && Running(k, t) && Suspended(k, c)
    ensures var k' := DoEnd(DoAct(k, CreateFuture), Await(|k.futs|));
            Suspended(k', c) && StatusOf(k', c) == StatusOf(k, c)
  {
    var k1, f := DoAct(k, CreateFuture), |k.futs|;
    assert Suspended(k1, c) && StatusOf(k1, c) == StatusOf(k, c);
    EndTouches(k1, Await(f), c);
    EndUnfinished(k1, Await(f), c.task);
    var k2 := AwaitFuture(k1.(mode := Idle), t, f);
    assert Target(k2, f, Below(|k2.futs|)) == Some(f);
    var x := HitBy(k1, End(Await(f)));
    assert x == None || x == Some(f);
    hide DoEnd, DoAct, Inv;
    TouchedStatus(k1, DoEnd(k1, Await(f)), c, x);
  }

  lemma SuspendKeepsInv(k: Kernel, t: nat)
    requires Inv(k) && Running(k, t) && t < |k.futs|
    ensures var k1 := DoAct(k, CreateFuture);
            |k1.futs| == |k.futs| + 1 && Enabled(k1, End(Await(|k.futs|))) && Inv(DoEnd(k1, Await(|k.futs|)))
  {
    NextInv(k, Act(CreateFuture));
    NextInv(DoAct(k, CreateFuture), End(Await(|k.futs|)));
    hide Inv, DoEnd;
  }

  lemma NotRunning(k: Kernel, t: nat, c: Caller)
    requires Suspended(k, c) && Running(k, t)
    ensures c.task != t && c.fut != |k.futs|
  {
  }
}

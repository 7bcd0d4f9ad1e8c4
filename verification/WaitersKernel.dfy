/** A deque of waiting calls on the kernel: each operation of `Waiters` is what the kernel does when
    the code of `Semaphore` or `Queue` runs, and each event of the kernel that this code does not
    make is at most a cancelled call. */
module WaitersKernel {
  import opened Common
  import opened Kernel
  import opened KernelCounts
  import opened KernelInvariant
  import opened KernelCancel
  import opened SuspendedCalls
  import W = Waiters

  /** The deque of futures, with the calls that created them, and the calls still suspended. */
  datatype List = List(deque: seq<Caller>, calls: map<nat, Caller>, next: nat)

  const EMPTY_LIST := List([], map[], 0)

  function Ids(q: seq<Caller>): (r: seq<nat>)
    ensures |r| == |q|
  {
    seq(|q|, i requires 0 <= i < |q| => q[i].id)
  }

  function Statuses(k: Kernel, calls: map<nat, Caller>): map<nat, W.Status> {
    map id | id in calls :: StatusOf(k, calls[id])
  }

  function Abs(k: Kernel, l: List): W.WaitList { W.WaitList(Ids(l.deque), Statuses(k, l.calls), l.next) }

  /** The suspended calls of a list. */
  predicate AllSuspended(k: Kernel, l: List) {
    && (forall id :: id in l.calls ==> l.calls[id].id == id && id < l.next && Suspended(k, l.calls[id]))
    && (forall i, j :: i in l.calls && j in l.calls && i != j ==>
          l.calls[i].fut != l.calls[j].fut && l.calls[i].task != l.calls[j].task)
  }

  /** A future in the deque belongs to a suspended call or is done. */
  predicate InDeque(k: Kernel, calls: map<nat, Caller>, c: Caller) {
    c.fut < |k.futs| && (if c.id in calls then calls[c.id] == c else k.futs[c.fut].Done())
  }

  predicate DequeOk(k: Kernel, l: List) {
    forall i :: 0 <= i < |l.deque| ==> l.deque[i].id < l.next && InDeque(k, l.calls, l.deque[i])
  }

  predicate Coupled(k: Kernel, l: List) { AllSuspended(k, l) && DequeOk(k, l) }

  // ---------------------------------------------------------------- what others do

  /** Futures that are done stay done. */
  predicate KeepsDone(k: Kernel, k': Kernel) {
    |k.futs| <= |k'.futs| && forall f :: 0 <= f < |k.futs| && k.futs[f].Done() ==> k'.futs[f].Done()
  }

  lemma CancelKeepsDone(k: Kernel, f: nat)
    requires f < |k.futs|
    ensures KeepsDone(k, Cancel(k, f).0)
  {
  }

  lemma ActKeepsDone(k: Kernel, a: Action)
    requires ActionOk(k, a)
    ensures KeepsDone(k, DoAct(k, a))
  {
    if a.CancelFuture? { CancelKeepsDone(k, a.f); }
    hide Cancel;
  }

  lemma EndKeepsDone(k: Kernel, o: Outcome)
    requires Enabled(k, End(o))
    ensures KeepsDone(k, DoEnd(k, o))
  {
    if o.Await? && o.f != k.mode.task {
      CancelKeepsDone(AwaitFuture(k.(mode := Idle), k.mode.task, o.f), o.f);
      CancelKeepsLength(AwaitFuture(k.(mode := Idle), k.mode.task, o.f), o.f);
    }
    hide Cancel;
  }

  lemma NextKeepsDone(k: Kernel, e: Event)
    requires Enabled(k, e)
    ensures KeepsDone(k, Next(k, e))
  {
    match e
    case Act(a) => ActKeepsDone(k, a); hide DoAct;
    case End(o) => EndKeepsDone(k, o); hide DoEnd;
    case Begin =>
    case EndCallback =>
  }

  /** Every call of the list is as it was, or cancelled where the request `x` landed on it. */
  predicate AllTouched(k: Kernel, k': Kernel, l: List, x: Option<nat>)
    requires AllSuspended(k, l)
  {
    forall id :: id in l.calls ==> Touches(k, k', l.calls[id], x) && !Running(k', l.calls[id].task)
  }

  /** Done futures and suspended calls of the deque stay what they are. */
  lemma DequeLater(k: Kernel, k': Kernel, l: List)
    requires DequeOk(k, l) && KeepsDone(k, k')
    ensures DequeOk(k', l)
  {
  }

  /** A request lands on one call at most. */
  lemma OneHit(k: Kernel, l: List, i: nat, j: nat, x: Option<nat>)
    requires AllSuspended(k, l) && i in l.calls && j in l.calls && i != j && Involves(l.calls[i], x)
    ensures !Involves(l.calls[j], x)
  {
    assert Suspended(k, l.calls[i]) && Suspended(k, l.calls[j]);
  }

  lemma TouchedCalls(k: Kernel, k': Kernel, l: List, x: Option<nat>)
    requires AllSuspended(k, l) && AllTouched(k, k', l, x)
    ensures AllSuspended(k', l)
    ensures forall id :: id in l.calls ==>
              StatusOf(k', l.calls[id]) == if Involves(l.calls[id], x) then W.CancelStatus(StatusOf(k, l.calls[id]))
                                           else StatusOf(k, l.calls[id])
  {
    forall id | id in l.calls
      ensures Suspended(k', l.calls[id])
      ensures StatusOf(k', l.calls[id])
           == if Involves(l.calls[id], x) then W.CancelStatus(StatusOf(k, l.calls[id])) else StatusOf(k, l.calls[id])
    {
      TouchedStatus(k, k', l.calls[id], x);
    }
    hide Touches, StatusOf, Suspended, Involves;
  }

  /** The call the request landed on, if any. */
  lemma TouchedList(k: Kernel, k': Kernel, l: List, x: Option<nat>) returns (hit: Option<nat>)
    requires Coupled(k, l) && AllTouched(k, k', l, x) && KeepsDone(k, k')
    ensures Coupled(k', l) && (hit.Some? ==> hit.value in l.calls && Involves(l.calls[hit.value], x))
    ensures Abs(k', l) == if hit.None? then Abs(k, l) else W.CancelCall(Abs(k, l), hit.value)
  {
    TouchedCalls(k, k', l, x);
    DequeLater(k, k', l);
    hide Touches, StatusOf, AllSuspended, DequeOk, AllTouched, KeepsDone, Involves;
    if id :| id in l.calls && Involves(l.calls[id], x) {
      hit := Some(id);
      forall j | j in l.calls && j != id ensures !Involves(l.calls[j], x) { OneHit(k, l, id, j, x); }
      assert Statuses(k', l.calls) == Statuses(k, l.calls)[id := W.CancelStatus(StatusOf(k, l.calls[id]))];
    } else {
      hit := None;
      assert Statuses(k', l.calls) == Statuses(k, l.calls);
    }
  }

  /** A list none of whose calls is concerned. */
  lemma SameList(k: Kernel, k': Kernel, l: List)
    requires Coupled(k, l) && KeepsDone(k, k')
    requires forall id :: id in l.calls ==>
               Suspended(k', l.calls[id]) && StatusOf(k', l.calls[id]) == StatusOf(k, l.calls[id])
    ensures Coupled(k', l) && Abs(k', l) == Abs(k, l)
  {
    DequeLater(k, k', l);
    hide Suspended, StatusOf, DequeOk, KeepsDone;
    assert Statuses(k', l.calls) == Statuses(k, l.calls);
  }

  /** An event that leaves the calls of the list to their owner. */
  lemma EnvList(k: Kernel, e: Event, l: List)
    requires Inv(k) && Enabled(k, e) && Coupled(k, l)
    requires forall id :: id in l.calls ==> Foreign(k, e, l.calls[id])
    ensures AllTouched(k, Next(k, e), l, HitBy(k, e)) && KeepsDone(k, Next(k, e))
  {
    forall id | id in l.calls
      ensures Touches(k, Next(k, e), l.calls[id], HitBy(k, e)) && !Running(Next(k, e), l.calls[id].task)
    {
      EventTouches(k, e, l.calls[id]);
      NotEntered(k, e, l.calls[id].task);
    }
    NextKeepsDone(k, e);
  }

  // ---------------------------------------------------------------- waking

  /** `_wake_up_next` and `_wakeup_next`: pop futures from the left until one is not done. */
  function WakeUp(k: Kernel, l: List): (Kernel, List)
    decreases |l.deque|
  {
    if l.deque == [] then (k, l)
    else
      var c, rest := l.deque[0], l.(deque := l.deque[1..]);
      if c.fut < |k.futs| && !k.futs[c.fut].Done() then (DoAct(k, SetResult(c.fut, 1)), rest) else WakeUp(k, rest)
  }

  lemma PopDone(k: Kernel, l: List)
    requires Coupled(k, l) && l.deque != []
    ensures Coupled(k, l.(deque := l.deque[1..]))
    ensures Abs(k, l.(deque := l.deque[1..])) == Abs(k, l).(queue := Abs(k, l).queue[1..])
    ensures Abs(k, l).queue[0] == l.deque[0].id
    ensures l.deque[0].fut < |k.futs|
    ensures !k.futs[l.deque[0].fut].Done() <==> l.deque[0].id in W.WaitingCalls(Abs(k, l).calls)
    ensures !k.futs[l.deque[0].fut].Done() ==> l.deque[0].id in l.calls && l.calls[l.deque[0].id] == l.deque[0]
  {
    var c := l.deque[0];
    assert InDeque(k, l.calls, c);
    if c.id in l.calls { assert Suspended(k, l.calls[c.id]); }
    assert Ids(l.deque[1..]) == Ids(l.deque)[1..];
  }

  lemma WakesCall(k: Kernel, l: List, id: nat)
    requires Inv(k) && Coupled(k, l) && id in l.calls && !k.futs[l.calls[id].fut].Done()
    ensures var k' := DoAct(k, SetResult(l.calls[id].fut, 1));
            && Inv(k') && Coupled(k', l) && k'.mode == k.mode
            && Abs(k', l) == Abs(k, l).(calls := Abs(k, l).calls[id := W.Woken])
  {
    var f := l.calls[id].fut;
    var k' := DoAct(k, SetResult(f, 1));
    assert Suspended(k, l.calls[id]);
    NextInv(k, Act(SetResult(f, 1)));
    NextKeepsDone(k, Act(SetResult(f, 1)));
    ActUnfinished(k, SetResult(f, 1), l.calls[id].task);
    WokenStatus(k, l.calls[id]);
    forall j | j in l.calls && j != id
      ensures Suspended(k', l.calls[j]) && StatusOf(k', l.calls[j]) == StatusOf(k, l.calls[j])
    {
      WokenOther(k, f, l.calls[j]);
    }
    hide DoAct, StatusOf, Suspended, Inv;
    assert Statuses(k', l.calls) == Statuses(k, l.calls)[id := W.Woken];
  }

  lemma {:induction false} WakeUpSimulates(k: Kernel, l: List)
    requires Inv(k) && Coupled(k, l)
    ensures var (k', l') := WakeUp(k, l);
            && Inv(k') && Coupled(k', l') && k'.mode == k.mode && l'.calls == l.calls && l'.next == l.next
            && Abs(k', l') == W.WakeNext(Abs(k, l))
    decreases |l.deque|
  {
    if l.deque != [] {
      PopDone(k, l);
      var c, rest := l.deque[0], l.(deque := l.deque[1..]);
      hide Inv, Coupled, Abs;
      if !k.futs[c.fut].Done() {
        WakesCall(k, rest, c.id);
      } else {
        WakeUpSimulates(k, rest);
      }
    }
  }

  /** Waking in one list does nothing to a call of another. */
  lemma {:induction false} WakeUpOther(k: Kernel, l: List, c: Caller)
    requires Coupled(k, l) && Suspended(k, c) && forall id :: id in l.calls ==> l.calls[id].fut != c.fut
    ensures Suspended(WakeUp(k, l).0, c) && StatusOf(WakeUp(k, l).0, c) == StatusOf(k, c)
    decreases |l.deque|
  {
    if l.deque != [] {
      PopDone(k, l);
      var d := l.deque[0];
      hide Coupled, Suspended, StatusOf;
      if !k.futs[d.fut].Done() { WokenOther(k, d.fut, c); } else { WakeUpOther(k, l.(deque := l.deque[1..]), c); }
    }
  }

  lemma {:induction false} WakeUpKeepsDone(k: Kernel, l: List)
    requires Coupled(k, l)
    ensures KeepsDone(k, WakeUp(k, l).0)
    decreases |l.deque|
  {
    if l.deque != [] {
      PopDone(k, l);
      ActKeepsDone(k, SetResult(l.deque[0].fut, 1));
      hide Coupled, DoAct;
      if k.futs[l.deque[0].fut].Done() { WakeUpKeepsDone(k, l.(deque := l.deque[1..])); }
    }
  }

  // ---------------------------------------------------------------- waiting and resuming

  /** The running task creates a future, queues it and awaits it. */
  function WaitOn(k: Kernel, l: List): (Kernel, List)
    requires k.mode.InTask? && k.mode.task < |k.futs|
  {
    var c := Caller(l.next, k.mode.task, |k.futs|);
    (DoEnd(DoAct(k, CreateFuture), Await(|k.futs|)), List(l.deque + [c], l.calls[l.next := c], l.next + 1))
  }

  /** The suspended calls with `c` added, seen from a later kernel. */
  lemma AddCall(k: Kernel, k': Kernel, l: List, c: Caller)
    requires AllSuspended(k, l) && c.id == l.next && Suspended(k', c)
    requires forall id :: id in l.calls ==>
               && Suspended(k', l.calls[id]) && StatusOf(k', l.calls[id]) == StatusOf(k, l.calls[id])
               && l.calls[id].fut != c.fut && l.calls[id].task != c.task
    ensures AllSuspended(k', l.(calls := l.calls[l.next := c], next := l.next + 1))
    ensures Statuses(k', l.calls[l.next := c]) == Statuses(k, l.calls)[l.next := StatusOf(k', c)]
  {
    hide Suspended, StatusOf;
  }

  lemma WaitStatuses(k: Kernel, l: List)
    requires Inv(k) && AllSuspended(k, l) && k.mode.InTask? && k.mode.task < |k.futs|
    ensures var (k', l') := WaitOn(k, l);
            && AllSuspended(k', l')
            && Statuses(k', l'.calls)
               == Statuses(k, l.calls)[l.next := if k.futs[k.mode.task].mustCancel then W.Cancelled else W.Waiting]
  {
    var t := k.mode.task;
    var c := Caller(l.next, t, |k.futs|);
    hide DoEnd, DoAct, StatusOf, Suspended, Inv, Statuses;
    var k' := WaitOn(k, l).0;
    Suspends(k, c);
    forall id | id in l.calls
      ensures Suspended(k', l.calls[id]) && StatusOf(k', l.calls[id]) == StatusOf(k, l.calls[id])
      ensures l.calls[id].fut != c.fut && l.calls[id].task != t
    {
      OthersStay(k, t, l.calls[id]);
      NotRunning(k, t, l.calls[id]);
    }
    AddCall(k, k', l, c);
  }

  lemma WaitKernel(k: Kernel)
    requires Inv(k) && k.mode.InTask? && k.mode.task < |k.futs|
    ensures var k' := DoEnd(DoAct(k, CreateFuture), Await(|k.futs|));
            Inv(k') && KeepsDone(k, k') && |k'.futs| > |k.futs| && k'.mode == Idle
  {
    SuspendKeepsInv(k, k.mode.task);
    ActKeepsDone(k, CreateFuture);
    EndKeepsDone(DoAct(k, CreateFuture), Await(|k.futs|));
    EndUnfinished(DoAct(k, CreateFuture), Await(|k.futs|), k.mode.task);
    hide DoEnd, Inv;
  }

  lemma DequeWithCall(k: Kernel, l: List, c: Caller)
    requires DequeOk(k, l) && c.id == l.next && c.fut < |k.futs|
    ensures DequeOk(k, List(l.deque + [c], l.calls[l.next := c], l.next + 1))
  {
  }

  lemma WaitSimulates(k: Kernel, l: List)
    requires Inv(k) && Coupled(k, l) && k.mode.InTask? && k.mode.task < |k.futs|
    ensures var (k', l') := WaitOn(k, l);
            && Inv(k') && Coupled(k', l') && k'.mode == Idle
            && Abs(k', l') == if k.futs[k.mode.task].mustCancel then W.CancelCall(W.Wait(Abs(k, l)), l.next)
                              else W.Wait(Abs(k, l))
  {
    hide DoEnd, DoAct, Statuses, Inv, AllSuspended, DequeOk, KeepsDone;
    WaitStatuses(k, l);
    WaitKernel(k);
    var (k', l') := WaitOn(k, l);
    DequeLater(k, k', l);
    DequeWithCall(k', l, Caller(l.next, k.mode.task, |k.futs|));
    assert Ids(l'.deque) == Ids(l.deque) + [l.next];
  }

  /** The suspended calls without `id`, whose future is done, seen from a later kernel. */
  lemma DropCall(k: Kernel, k': Kernel, l: List, id: nat)
    requires Coupled(k, l) && id in l.calls && KeepsDone(k, k') && k.futs[l.calls[id].fut].Done()
    requires forall j :: j in l.calls && j != id ==>
               Suspended(k', l.calls[j]) && StatusOf(k', l.calls[j]) == StatusOf(k, l.calls[j])
    ensures Coupled(k', l.(calls := l.calls - {id}))
    ensures Abs(k', l.(calls := l.calls - {id})) == W.Forget(Abs(k, l), id)
  {
    hide Suspended, StatusOf;
    assert Statuses(k', l.calls - {id}) == Statuses(k, l.calls) - {id};
  }

  lemma BeginOf(k: Kernel, c: Caller)
    requires Inv(k) && Enabled(k, Begin) && Suspended(k, c) && Resumes(k) == Some(c.task)
    ensures Inv(DoBegin(k)) && KeepsDone(k, DoBegin(k)) && k.futs[c.fut].Done() && StatusOf(k, c) != W.Waiting
    ensures DoBegin(k).mode == InTask(c.task, if StatusOf(k, c) == W.Woken then None else Some(CancelledError))
    ensures c.task < |DoBegin(k).futs| && !DoBegin(k).futs[c.task].mustCancel
  {
    ResumedBy(k, c);
    NextInv(k, Begin);
    NextKeepsDone(k, Begin);
    hide Inv, KeepsDone;
  }

  lemma BeginOther(k: Kernel, c: Caller)
    requires Enabled(k, Begin) && Suspended(k, c) && Resumes(k) != Some(c.task)
    ensures Suspended(DoBegin(k), c) && StatusOf(DoBegin(k), c) == StatusOf(k, c)
  {
    BeginTouches(k, c);
    NotEntered(k, Begin, c.task);
    hide DoBegin;
    SameStatus(k, DoBegin(k), c);
  }

  /** The loop resumes call `id`. */
  lemma ResumeSimulates(k: Kernel, l: List, id: nat)
    requires Inv(k) && Coupled(k, l) && id in l.calls && Enabled(k, Begin) && Resumes(k) == Some(l.calls[id].task)
    ensures W.CanResume(Abs(k, l), id)
    ensures var k', l' := DoBegin(k), l.(calls := l.calls - {id});
            && Inv(k') && Coupled(k', l') && Abs(k', l') == W.Forget(Abs(k, l), id)
            && k'.mode == InTask(l.calls[id].task,
                                 if Abs(k, l).calls[id] == W.Woken then None else Some(CancelledError))
            && l.calls[id].task < |k'.futs| && !k'.futs[l.calls[id].task].mustCancel
  {
    var k', c := DoBegin(k), l.calls[id];
    BeginOf(k, c);
    hide DoBegin, StatusOf, Suspended, Inv;
    forall j | j in l.calls && j != id
      ensures Suspended(k', l.calls[j]) && StatusOf(k', l.calls[j]) == StatusOf(k, l.calls[j])
    {
      BeginOther(k, l.calls[j]);
    }
    DropCall(k, k', l, id);
  }
}

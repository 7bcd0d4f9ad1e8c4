/** `Queue` running on the kernel, with its two deques of waiting calls: every step is at most two
    events of `QueueModel`, so its laws hold of the queue on the kernel. */
module QueueKernel {
  import opened Common
  import opened Kernel
  import opened KernelInvariant
  import opened SuspendedCalls
  import opened WaitersKernel
  import W = Waiters
  import Q = QueueModel

  datatype System<T> = System(k: Kernel, maxsize: int, items: seq<T>, getters: List, putters: List,
                              carried: map<nat, T>, unfinished: int, finished: bool,
                              puts: seq<T>, gets: seq<T>, taskDones: nat)

  function View<T>(s: System<T>): Q.State<T> {
    Q.State(s.maxsize, s.items, Abs(s.k, s.getters), Abs(s.k, s.putters), s.carried, s.unfinished, s.finished,
            s.puts, s.gets, s.taskDones)
  }

  /** No task waits in both deques, and they share no future. */
  predicate Apart(a: List, b: List) {
    forall i, j :: i in a.calls && j in b.calls ==>
      a.calls[i].fut != b.calls[j].fut && a.calls[i].task != b.calls[j].task
  }

  ghost predicate Joined<T>(s: System<T>) {
    && Inv(s.k) && Coupled(s.k, s.getters) && Coupled(s.k, s.putters) && Apart(s.getters, s.putters)
    && s.carried.Keys == s.putters.calls.Keys
  }

  // ---------------------------------------------------------------- steps

  predicate InStep<T>(s: System<T>) { s.k.mode.InTask? && s.k.mode.task < |s.k.futs| }

  predicate Full<T>(s: System<T>) { s.maxsize > 0 && |s.items| >= s.maxsize }

  function WakeGetter<T>(s: System<T>): System<T> { var (k', l') := WakeUp(s.k, s.getters); s.(k := k', getters := l') }

  function WakePutter<T>(s: System<T>): System<T> { var (k', l') := WakeUp(s.k, s.putters); s.(k := k', putters := l') }

  /** `put_nowait`; a full queue refuses. */
  function PutNow<T>(s: System<T>, x: T): System<T> {
    if Full(s) then s
    else WakeGetter(s.(items := s.items + [x], puts := s.puts + [x], unfinished := s.unfinished + 1, finished := false))
  }

  /** `get_nowait`; an empty queue refuses. */
  function GetNow<T>(s: System<T>): System<T> {
    if s.items == [] then s
    else WakePutter(s.(items := s.items[1..], gets := s.gets + [s.items[0]]))
  }

  /** The wait loop of `put` in the running task. */
  function TryPut<T>(s: System<T>, x: T): System<T>
    requires InStep(s)
  {
    if Full(s) then
      var (k', l') := WaitOn(s.k, s.putters);
      s.(k := k', putters := l', carried := s.carried[s.putters.next := x])
    else PutNow(s, x)
  }

  /** The wait loop of `get` in the running task. */
  function TryGet<T>(s: System<T>): System<T>
    requires InStep(s)
  {
    if s.items == [] then var (k', l') := WaitOn(s.k, s.getters); s.(k := k', getters := l')
    else GetNow(s)
  }

  /** `deque.remove`, with its ValueError for an absent element ignored. */
  function RemoveCall(q: seq<Caller>, id: nat): seq<Caller> {
    if q == [] then [] else if q[0].id == id then q[1..] else [q[0]] + RemoveCall(q[1..], id)
  }

  /** The loop resumes a `put`: it tests again, or gives up and passes an unused wakeup on. */
  function ResumePut<T>(s: System<T>, id: nat): System<T>
    requires id in s.putters.calls && id in s.carried && s.putters.calls[id].fut < |s.k.futs| && Enabled(s.k, Begin)
  {
    var s1 := s.(k := DoBegin(s.k), putters := s.putters.(calls := s.putters.calls - {id}),
                 carried := s.carried - {id});
    if InStep(s1) && s1.k.mode.thrown == None then TryPut(s1, s.carried[id])
    else
      var s2 := s1.(putters := s1.putters.(deque := RemoveCall(s.putters.deque, id)));
      if !Full(s) && s.k.futs[s.putters.calls[id].fut].state != Cancelled then WakePutter(s2) else s2
  }

  /** The loop resumes a `get`. */
  function ResumeGet<T>(s: System<T>, id: nat): System<T>
    requires id in s.getters.calls && s.getters.calls[id].fut < |s.k.futs| && Enabled(s.k, Begin)
  {
    var s1 := s.(k := DoBegin(s.k), getters := s.getters.(calls := s.getters.calls - {id}));
    if InStep(s1) && s1.k.mode.thrown == None then TryGet(s1)
    else
      var s2 := s1.(getters := s1.getters.(deque := RemoveCall(s.getters.deque, id)));
      if s.items != [] && s.k.futs[s.getters.calls[id].fut].state != Cancelled then WakeGetter(s2) else s2
  }

  function TaskDone<T>(s: System<T>): System<T> {
    if s.unfinished <= 0 then s
    else s.(unfinished := s.unfinished - 1, taskDones := s.taskDones + 1, finished := s.finished || s.unfinished == 1)
  }

  datatype Step<T> =
    | Env(e: Event) | DoPut(x: T) | DoPutNowait(x: T) | DoGet | DoGetNowait
    | DoResumePut(id: nat) | DoResumeGet(id: nat) | DoTaskDone

  ghost predicate Resumable(k: Kernel, l: List, id: nat) {
    id in l.calls && l.calls[id].fut < |k.futs| && Enabled(k, Begin) && Resumes(k) == Some(l.calls[id].task)
  }

  ghost predicate Takes<T>(s: System<T>, a: Step<T>, s': System<T>) {
    match a
    case Env(e) => StepOk(s.k, e, s'.k) && s' == s.(k := s'.k)
                   && (forall id :: id in s.getters.calls ==> Foreign(s.k, e, s.getters.calls[id]))
                   && (forall id :: id in s.putters.calls ==> Foreign(s.k, e, s.putters.calls[id]))
    case DoPut(x) => InStep(s) && s' == TryPut(s, x)
    case DoPutNowait(x) => s' == PutNow(s, x)
    case DoGet => InStep(s) && s' == TryGet(s)
    case DoGetNowait => s' == GetNow(s)
    case DoResumePut(id) => Resumable(s.k, s.putters, id) && id in s.carried && s' == ResumePut(s, id)
    case DoResumeGet(id) => Resumable(s.k, s.getters, id) && s' == ResumeGet(s, id)
    case DoTaskDone => s' == TaskDone(s)
  }

  // ---------------------------------------------------------------- two deques on one kernel

  lemma ApartBoth(a: List, b: List)
    requires Apart(a, b)
    ensures Apart(b, a)
  {
  }

  lemma WakeApart(k: Kernel, l: List, other: List)
    requires Inv(k) && Coupled(k, l) && Coupled(k, other) && Apart(l, other)
    ensures var (k', l') := WakeUp(k, l);
            && Inv(k') && Coupled(k', l') && Coupled(k', other) && Apart(l', other)
            && k'.mode == k.mode && l'.calls == l.calls && l'.next == l.next
            && Abs(k', l') == W.WakeNext(Abs(k, l)) && Abs(k', other) == Abs(k, other)
  {
    WakeUpSimulates(k, l);
    WakeUpKeepsDone(k, l);
    forall id | id in other.calls
      ensures Suspended(WakeUp(k, l).0, other.calls[id])
           && StatusOf(WakeUp(k, l).0, other.calls[id]) == StatusOf(k, other.calls[id])
    {
      WakeUpOther(k, l, other.calls[id]);
    }
    hide WakeUp, Suspended, StatusOf, Inv, KeepsDone;
    SameList(k, WakeUp(k, l).0, other);
  }

  lemma ApartWithCall(k: Kernel, l: List, other: List, c: Caller)
    requires Apart(l, other) && AllSuspended(k, other) && Running(k, c.task) && c.fut == |k.futs|
    ensures Apart(l.(calls := l.calls[l.next := c]), other)
  {
    forall id | id in other.calls ensures other.calls[id].fut != c.fut && other.calls[id].task != c.task {
      NotRunning(k, c.task, other.calls[id]);
    }
    hide Suspended;
  }

  lemma WaitOther(k: Kernel, l: List, other: List)
    requires Inv(k) && Coupled(k, other) && k.mode.InTask? && k.mode.task < |k.futs|
    ensures Coupled(WaitOn(k, l).0, other) && Abs(WaitOn(k, l).0, other) == Abs(k, other)
  {
    hide DoEnd, DoAct, Suspended, StatusOf, Inv, KeepsDone;
    var k' := WaitOn(k, l).0;
    WaitKernel(k);
    forall id | id in other.calls
      ensures Suspended(k', other.calls[id]) && StatusOf(k', other.calls[id]) == StatusOf(k, other.calls[id])
    {
      OthersStay(k, k.mode.task, other.calls[id]);
    }
    SameList(k, k', other);
  }

  lemma WaitApart(k: Kernel, l: List, other: List)
    requires Inv(k) && Coupled(k, l) && Coupled(k, other) && Apart(l, other) && k.mode.InTask? && k.mode.task < |k.futs|
    ensures var (k', l') := WaitOn(k, l);
            && Inv(k') && Coupled(k', l') && Coupled(k', other) && Apart(l', other)
            && l'.calls.Keys == l.calls.Keys + {l.next}
            && Abs(k', other) == Abs(k, other)
            && Abs(k', l') == if k.futs[k.mode.task].mustCancel then W.CancelCall(W.Wait(Abs(k, l)), l.next)
                              else W.Wait(Abs(k, l))
  {
    ApartWithCall(k, l, other, Caller(l.next, k.mode.task, |k.futs|));
    assert Apart(WaitOn(k, l).1, other) by { hide DoEnd, DoAct, Coupled, Inv; }
    hide DoEnd, DoAct, Inv, Coupled, Apart, Abs;
    WaitSimulates(k, l);
    WaitOther(k, l, other);
  }

  lemma ResumeApart(k: Kernel, l: List, other: List, id: nat)
    requires Inv(k) && Coupled(k, l) && Coupled(k, other) && Apart(l, other) && Resumable(k, l, id)
    ensures W.CanResume(Abs(k, l), id)
    ensures var k', l' := DoBegin(k), l.(calls := l.calls - {id});
            && Inv(k') && Coupled(k', l') && Coupled(k', other) && Apart(l', other)
            && Abs(k', l') == W.Forget(Abs(k, l), id) && Abs(k', other) == Abs(k, other)
            && k'.mode == InTask(l.calls[id].task,
                                 if Abs(k, l).calls[id] == W.Woken then None else Some(CancelledError))
            && l.calls[id].task < |k'.futs| && !k'.futs[l.calls[id].task].mustCancel
  {
    ResumeSimulates(k, l, id);
    BeginOf(k, l.calls[id]);
    hide DoBegin, Suspended, StatusOf, Inv, KeepsDone;
    forall j | j in other.calls
      ensures Suspended(DoBegin(k), other.calls[j])
      ensures StatusOf(DoBegin(k), other.calls[j]) == StatusOf(k, other.calls[j])
    {
      BeginOther(k, other.calls[j]);
    }
    SameList(k, DoBegin(k), other);
  }

  /** A request lands on a call of one deque at most. */
  lemma HitsOne(k: Kernel, a: List, b: List, i: nat, j: nat, x: Option<nat>)
    requires Coupled(k, a) && Coupled(k, b) && Apart(a, b) && i in a.calls && j in b.calls
    ensures !(Involves(a.calls[i], x) && Involves(b.calls[j], x))
  {
    assert Suspended(k, a.calls[i]) && Suspended(k, b.calls[j]);
  }

  // ---------------------------------------------------------------- simulation

  /** The events of `QueueModel` that lead from `a` to `b`. */
  ghost predicate Leads<T>(a: Q.State<T>, es: seq<Q.Event<T>>, b: Q.State<T>)
    decreases |es|
  {
    if es == [] then a == b else Q.Enabled(a, es[0]) && Leads(Q.Next(a, es[0]), es[1..], b)
  }

  lemma LeadsOne<T>(a: Q.State<T>, e: Q.Event<T>)
    requires Q.Enabled(a, e)
    ensures Leads(a, [e], Q.Next(a, e))
  {
    assert [e][1..] == [];
  }

  lemma LeadsTwo<T>(a: Q.State<T>, e: Q.Event<T>, e': Q.Event<T>)
    requires Q.Enabled(a, e) && Q.Enabled(Q.Next(a, e), e')
    ensures Leads(a, [e, e'], Q.Next(Q.Next(a, e), e'))
  {
    LeadsOne(Q.Next(a, e), e');
    assert [e, e'][1..] == [e'];
  }

  lemma EnvSimulates<T>(s: System<T>, e: Event, s': System<T>) returns (es: seq<Q.Event<T>>)
    requires Joined(s) && Takes(s, Env(e), s')
    ensures Joined(s') && Leads(View(s), es, View(s'))
  {
    NextInv(s.k, e);
    EnvList(s.k, e, s.getters);
    EnvList(s.k, e, s.putters);
    hide Next, HitBy, Inv, AllTouched, KeepsDone, Coupled, Apart, Involves;
    var x := HitBy(s.k, e);
    var g := TouchedList(s.k, s'.k, s.getters, x);
    var p := TouchedList(s.k, s'.k, s.putters, x);
    if g.Some? && p.Some? { HitsOne(s.k, s.getters, s.putters, g.value, p.value, x); }
    es := [];
    if g.Some? {
      es := [Q.CancelGet(g.value)];
      LeadsOne(View(s), es[0]);
    } else if p.Some? {
      es := [Q.CancelPut(p.value)];
      LeadsOne(View(s), es[0]);
    }
  }

  lemma PutNowSimulates<T>(s: System<T>, x: T)
    requires Joined(s)
    ensures Joined(PutNow(s, x)) && View(PutNow(s, x)) == Q.PutNow(View(s), x) && PutNow(s, x).k.mode == s.k.mode
  {
    hide WakeUp, Inv, Coupled, Abs, Apart;
    WakeApart(s.k, s.getters, s.putters);
  }

  lemma GetNowSimulates<T>(s: System<T>)
    requires Joined(s)
    ensures Joined(GetNow(s)) && View(GetNow(s)) == Q.GetNow(View(s))
  {
    hide WakeUp, Inv, Coupled, Abs, Apart;
    ApartBoth(s.getters, s.putters);
    WakeApart(s.k, s.putters, s.getters);
    ApartBoth(WakeUp(s.k, s.putters).1, s.getters);
  }

  lemma WaitToPut<T>(s: System<T>, x: T)
    requires Joined(s) && InStep(s) && Full(s)
    ensures Joined(TryPut(s, x))
    ensures View(TryPut(s, x)).putters
         == if s.k.futs[s.k.mode.task].mustCancel then W.CancelCall(W.Wait(Abs(s.k, s.putters)), s.putters.next)
            else W.Wait(Abs(s.k, s.putters))
    ensures View(TryPut(s, x))
         == View(s).(putters := View(TryPut(s, x)).putters, carried := s.carried[s.putters.next := x])
  {
    hide WaitOn, Inv, Coupled, Abs, Apart;
    ApartBoth(s.getters, s.putters);
    WaitApart(s.k, s.putters, s.getters);
    ApartBoth(WaitOn(s.k, s.putters).1, s.getters);
  }

  lemma TryPutSimulates<T>(s: System<T>, x: T)
    requires Joined(s) && InStep(s)
    ensures Joined(TryPut(s, x))
    ensures var a := Q.TryPut(View(s), x);
            View(TryPut(s, x)) == if Full(s) && s.k.futs[s.k.mode.task].mustCancel
                                  then a.(putters := W.CancelCall(a.putters, s.putters.next)) else a
  {
    assert Abs(s.k, s.putters).next == s.putters.next;
    hide Joined, Abs, PutNow;
    if Full(s) {
      WaitToPut(s, x);
      hide TryPut;
    } else {
      PutNowSimulates(s, x);
    }
  }

  lemma TryGetSimulates<T>(s: System<T>)
    requires Joined(s) && InStep(s)
    ensures Joined(TryGet(s))
    ensures var a := Q.TryGet(View(s));
            View(TryGet(s)) == if s.items == [] && s.k.futs[s.k.mode.task].mustCancel
                               then a.(getters := W.CancelCall(a.getters, s.getters.next)) else a
  {
    hide WaitOn, Inv, Coupled, Abs, GetNow, Apart;
    if s.items == [] { WaitApart(s.k, s.getters, s.putters); } else { GetNowSimulates(s); }
  }

  lemma PutSimulates<T>(s: System<T>, x: T) returns (es: seq<Q.Event<T>>)
    requires Joined(s) && InStep(s)
    ensures Joined(TryPut(s, x)) && Leads(View(s), es, View(TryPut(s, x)))
  {
    TryPutSimulates(s, x);
    hide Joined, TryPut;
    if Full(s) && s.k.futs[s.k.mode.task].mustCancel {
      es := [Q.Put(x), Q.CancelPut(s.putters.next)];
      LeadsTwo(View(s), es[0], es[1]);
    } else {
      es := [Q.Put(x)];
      LeadsOne(View(s), es[0]);
    }
  }

  lemma GetSimulates<T>(s: System<T>) returns (es: seq<Q.Event<T>>)
    requires Joined(s) && InStep(s)
    ensures Joined(TryGet(s)) && Leads(View(s), es, View(TryGet(s)))
  {
    TryGetSimulates(s);
    hide Joined, TryGet;
    if s.items == [] && s.k.futs[s.k.mode.task].mustCancel {
      es := [Q.Get, Q.CancelGet(s.getters.next)];
      LeadsTwo(View(s), es[0], es[1]);
    } else {
      es := [Q.Get];
      LeadsOne(View(s), es[0]);
    }
  }

  lemma {:induction false} RemoveIds(q: seq<Caller>, id: nat)
    ensures Ids(RemoveCall(q, id)) == W.Remove(Ids(q), id)
    ensures forall i :: 0 <= i < |RemoveCall(q, id)| ==> RemoveCall(q, id)[i] in q
  {
    if q != [] {
      assert Ids(q)[1..] == Ids(q[1..]);
      if q[0].id != id {
        RemoveIds(q[1..], id);
        assert Ids([q[0]] + RemoveCall(q[1..], id)) == [q[0].id] + Ids(RemoveCall(q[1..], id));
      }
    }
  }

  lemma RemoveSimulates(k: Kernel, l: List, id: nat)
    requires Coupled(k, l)
    ensures var l' := l.(deque := RemoveCall(l.deque, id));
            Coupled(k, l') && Abs(k, l') == Abs(k, l).(queue := W.Remove(Abs(k, l).queue, id))
  {
    RemoveIds(l.deque, id);
    hide Suspended, RemoveCall, Statuses, InDeque;
  }

  /** A cancelled call was cancelled before it was woken exactly if its future is cancelled. */
  lemma FutureOf(k: Kernel, l: List, id: nat)
    requires Coupled(k, l) && id in l.calls && Abs(k, l).calls[id] in {W.WokenCancelled, W.Cancelled}
    ensures l.calls[id].fut < |k.futs|
    ensures k.futs[l.calls[id].fut].state == Cancelled <==> Abs(k, l).calls[id] == W.Cancelled
  {
    assert Suspended(k, l.calls[id]);
  }

  /** A call that gives up leaves the deque and, if it has to, wakes the next one. */
  function LeaveDeque(k: Kernel, l: List, id: nat, pass: bool): (Kernel, List) {
    var l1 := l.(deque := RemoveCall(l.deque, id));
    if pass then WakeUp(k, l1) else (k, l1)
  }

  lemma LeaveSimulates(k: Kernel, l: List, other: List, id: nat, pass: bool)
    requires Inv(k) && Coupled(k, l) && Coupled(k, other) && Apart(l, other)
    ensures var (k', l') := LeaveDeque(k, l, id, pass);
            var w := Abs(k, l).(queue := W.Remove(Abs(k, l).queue, id));
            && Inv(k') && Coupled(k', l') && Coupled(k', other) && Apart(l', other) && l'.calls == l.calls
            && Abs(k', l') == (if pass then W.WakeNext(w) else w) && Abs(k', other) == Abs(k, other)
  {
    RemoveSimulates(k, l, id);
    var l1 := l.(deque := RemoveCall(l.deque, id));
    assert Apart(l1, other);
    hide Inv, Coupled, Abs, Apart, WakeUp;
    if pass { WakeApart(k, l1, other); }
  }

  lemma LeavePut<T>(s: System<T>, id: nat, pass: bool)
    requires id in s.putters.calls && id in s.carried && s.putters.calls[id].fut < |s.k.futs| && Enabled(s.k, Begin)
    requires DoBegin(s.k).mode.InTask? && DoBegin(s.k).mode.thrown != None
    requires pass == (!Full(s) && s.k.futs[s.putters.calls[id].fut].state != Cancelled)
    ensures var (k', l') := LeaveDeque(DoBegin(s.k), s.putters.(calls := s.putters.calls - {id}), id, pass);
            ResumePut(s, id) == s.(k := k', putters := l', carried := s.carried - {id})
  {
    hide DoBegin, WakeUp, RemoveCall;
  }

  lemma GivesUpPut<T>(s: System<T>, id: nat)
    requires Joined(s) && Resumable(s.k, s.putters, id) && id in s.carried && Abs(s.k, s.putters).calls[id] != W.Woken
    ensures Q.Enabled(View(s), Q.ResumePut(id))
    ensures Joined(ResumePut(s, id)) && View(ResumePut(s, id)) == Q.Next(View(s), Q.ResumePut(id))
  {
    hide DoBegin, Inv, Coupled, Abs, Apart, LeaveDeque, WakeUp, RemoveCall;
    ApartBoth(s.getters, s.putters);
    ResumeApart(s.k, s.putters, s.getters, id);
    FutureOf(s.k, s.putters, id);
    var k1, l1 := DoBegin(s.k), s.putters.(calls := s.putters.calls - {id});
    var pass := !Full(s) && s.k.futs[s.putters.calls[id].fut].state != Cancelled;
    LeaveSimulates(k1, l1, s.getters, id, pass);
    LeavePut(s, id, pass);
    ApartBoth(LeaveDeque(k1, l1, id, pass).1, s.getters);
  }

  lemma LeaveGet<T>(s: System<T>, id: nat, pass: bool)
    requires id in s.getters.calls && s.getters.calls[id].fut < |s.k.futs| && Enabled(s.k, Begin)
    requires DoBegin(s.k).mode.InTask? && DoBegin(s.k).mode.thrown != None
    requires pass == (s.items != [] && s.k.futs[s.getters.calls[id].fut].state != Cancelled)
    ensures var (k', l') := LeaveDeque(DoBegin(s.k), s.getters.(calls := s.getters.calls - {id}), id, pass);
            ResumeGet(s, id) == s.(k := k', getters := l')
  {
    hide DoBegin, WakeUp, RemoveCall;
  }

  lemma GivesUpGet<T>(s: System<T>, id: nat)
    requires Joined(s) && Resumable(s.k, s.getters, id) && Abs(s.k, s.getters).calls[id] != W.Woken
    ensures Q.Enabled(View(s), Q.ResumeGet(id))
    ensures Joined(ResumeGet(s, id)) && View(ResumeGet(s, id)) == Q.Next(View(s), Q.ResumeGet(id))
  {
    hide DoBegin, Inv, Coupled, Abs, Apart, LeaveDeque, WakeUp, RemoveCall;
    ResumeApart(s.k, s.getters, s.putters, id);
    FutureOf(s.k, s.getters, id);
    var k1, l1 := DoBegin(s.k), s.getters.(calls := s.getters.calls - {id});
    var pass := s.items != [] && s.k.futs[s.getters.calls[id].fut].state != Cancelled;
    LeaveSimulates(k1, l1, s.putters, id, pass);
    LeaveGet(s, id, pass);
  }

  lemma RetriesPut<T>(s: System<T>, id: nat)
    requires Joined(s) && Resumable(s.k, s.putters, id) && id in s.carried && Abs(s.k, s.putters).calls[id] == W.Woken
    ensures Q.Enabled(View(s), Q.ResumePut(id))
    ensures Joined(ResumePut(s, id)) && View(ResumePut(s, id)) == Q.Next(View(s), Q.ResumePut(id))
  {
    hide DoBegin, Inv, Coupled, Abs, Apart, TryPut;
    ApartBoth(s.getters, s.putters);
    ResumeApart(s.k, s.putters, s.getters, id);
    var s1 := s.(k := DoBegin(s.k), putters := s.putters.(calls := s.putters.calls - {id}),
                 carried := s.carried - {id});
    ApartBoth(s1.putters, s1.getters);
    TryPutSimulates(s1, s.carried[id]);
  }

  lemma RetriesGet<T>(s: System<T>, id: nat)
    requires Joined(s) && Resumable(s.k, s.getters, id) && Abs(s.k, s.getters).calls[id] == W.Woken
    ensures Q.Enabled(View(s), Q.ResumeGet(id))
    ensures Joined(ResumeGet(s, id)) && View(ResumeGet(s, id)) == Q.Next(View(s), Q.ResumeGet(id))
  {
    hide DoBegin, Inv, Coupled, Abs, Apart, TryGet;
    ResumeApart(s.k, s.getters, s.putters, id);
    TryGetSimulates(s.(k := DoBegin(s.k), getters := s.getters.(calls := s.getters.calls - {id})));
  }

  lemma ResumePutSimulates<T>(s: System<T>, id: nat) returns (es: seq<Q.Event<T>>)
    requires Joined(s) && Resumable(s.k, s.putters, id) && id in s.carried
    ensures Joined(ResumePut(s, id)) && Leads(View(s), es, View(ResumePut(s, id)))
  {
    hide Joined, ResumePut;
    if Abs(s.k, s.putters).calls[id] == W.Woken { RetriesPut(s, id); } else { GivesUpPut(s, id); }
    es := [Q.ResumePut(id)];
    LeadsOne(View(s), es[0]);
  }

  lemma ResumeGetSimulates<T>(s: System<T>, id: nat) returns (es: seq<Q.Event<T>>)
    requires Joined(s) && Resumable(s.k, s.getters, id)
    ensures Joined(ResumeGet(s, id)) && Leads(View(s), es, View(ResumeGet(s, id)))
  {
    hide Joined, ResumeGet;
    if Abs(s.k, s.getters).calls[id] == W.Woken { RetriesGet(s, id); } else { GivesUpGet(s, id); }
    es := [Q.ResumeGet(id)];
    LeadsOne(View(s), es[0]);
  }

  lemma AtOnceSimulates<T>(s: System<T>, a: Step<T>, s': System<T>) returns (es: seq<Q.Event<T>>)
    requires Joined(s) && Takes(s, a, s') && (a.DoPutNowait? || a.DoGetNowait? || a.DoTaskDone?)
    ensures Joined(s') && Leads(View(s), es, View(s'))
  {
    hide PutNow, GetNow, Abs, Coupled, Inv, Apart;
    match a
    case DoPutNowait(x) =>
      PutNowSimulates(s, x);
      es := [Q.PutNowait(x)];
      LeadsOne(View(s), es[0]);
    case DoGetNowait =>
      GetNowSimulates(s);
      es := [Q.GetNowait];
      LeadsOne(View(s), es[0]);
    case DoTaskDone =>
      es := [Q.TaskDone];
      LeadsOne(View(s), es[0]);
  }

  /** Every step of the queue on the kernel is a sequence of events of the queue model. */
  lemma StepSimulates<T>(s: System<T>, a: Step<T>, s': System<T>) returns (es: seq<Q.Event<T>>)
    requires Joined(s) && Takes(s, a, s')
    ensures Joined(s') && Leads(View(s), es, View(s'))
  {
    hide Joined, TryPut, TryGet, PutNow, GetNow, ResumePut, ResumeGet, TaskDone, Leads, View;
    match a
    case Env(e) => es := EnvSimulates(s, e, s');
    case DoPut(x) => es := PutSimulates(s, x);
    case DoGet => es := GetSimulates(s);
    case DoResumePut(id) => es := ResumePutSimulates(s, id);
    case DoResumeGet(id) => es := ResumeGetSimulates(s, id);
    case _ => es := AtOnceSimulates(s, a, s');
  }

  // ---------------------------------------------------------------- runs

  ghost predicate IsSystemRun<T>(ss: seq<System<T>>, steps: seq<Step<T>>) {
    && |ss| == |steps| + 1 && Inv(ss[0].k)
    && ss[0] == System(ss[0].k, ss[0].maxsize, [], EMPTY_LIST, EMPTY_LIST, map[], 0, true, [], [], 0)
    && forall i :: 0 <= i < |steps| ==> Takes(ss[i], steps[i], ss[i + 1])
  }

  lemma {:induction false} ExtendRun<T>(ls: seq<Q.State<T>>, les: seq<Q.Event<T>>, es: seq<Q.Event<T>>, b: Q.State<T>)
    returns (ls': seq<Q.State<T>>, les': seq<Q.Event<T>>)
    requires Q.IsRun(ls, les) && Leads(ls[|les|], es, b)
    ensures Q.IsRun(ls', les') && ls'[|les'|] == b
    decreases |es|
  {
    ls', les' := ls, les;
    if es != [] {
      var n := Q.Next(ls[|les|], es[0]);
      ls', les' := ExtendRun(ls + [n], les + [es[0]], es[1..], b);
    }
  }

  /** The queue on the kernel simulates the queue model. */
  lemma {:induction false} SystemSimulates<T>(ss: seq<System<T>>, steps: seq<Step<T>>, n: nat)
    returns (ls: seq<Q.State<T>>, les: seq<Q.Event<T>>)
    requires IsSystemRun(ss, steps) && n <= |steps|
    ensures Joined(ss[n]) && Q.IsRun(ls, les) && ls[|les|] == View(ss[n])
  {
    if n == 0 {
      ls, les := [View(ss[0])], [];
      assert Abs(ss[0].k, EMPTY_LIST) == W.EMPTY;
    } else {
      hide Joined, Takes, View;
      ls, les := SystemSimulates(ss, steps, n - 1);
      var es := StepSimulates(ss[n - 1], steps[n - 1], ss[n]);
      ls, les := ExtendRun(ls, les, es, View(ss[n]));
    }
  }

  /** The calls of a deque whose wakeup is in the ready queue. */
  ghost function Due(k: Kernel, l: List): set<nat> {
    set id | id in l.calls && Call(Wakeup(l.calls[id].task), l.calls[id].fut) in k.ready
  }

  lemma CoverIsDue(k: Kernel, l: List, n: int)
    requires Inv(k) && Coupled(k, l) && W.Covers(Abs(k, l), n)
    ensures (exists id :: id in l.calls && StatusOf(k, l.calls[id]) == W.Waiting) ==> |Due(k, l)| >= n
  {
    if id :| id in l.calls && StatusOf(k, l.calls[id]) == W.Waiting {
      assert id in W.WaitingCalls(Abs(k, l).calls);
      var woken := W.WokenCalls(Abs(k, l).calls);
      forall j | j in woken ensures j in Due(k, l) {
        assert Suspended(k, l.calls[j]);
        Places(k, l.calls[j].task);
      }
      SubsetSize(woken, Due(k, l));
    }
  }

  /** The laws of the queue on the kernel: order, bound and `join`, and while getters (putters) wait
      at least as many of their wakeups are in the ready queue as there are items (free slots). */
  lemma QueueOnKernel<T>(ss: seq<System<T>>, steps: seq<Step<T>>, n: nat)
    requires IsSystemRun(ss, steps) && n <= |steps|
    ensures var s := ss[n];
            && s.puts == s.gets + s.items && (s.maxsize > 0 ==> |s.items| <= s.maxsize)
            && (s.finished <==> |s.puts| == s.taskDones)
            && ((exists id :: id in s.getters.calls && StatusOf(s.k, s.getters.calls[id]) == W.Waiting) ==>
                  |Due(s.k, s.getters)| >= |s.items|)
            && ((exists id :: id in s.putters.calls && StatusOf(s.k, s.putters.calls[id]) == W.Waiting) ==>
                  |Due(s.k, s.putters)| >= s.maxsize - |s.items|)
  {
    var ls, les := SystemSimulates(ss, steps, n);
    Q.RunInv(ls, les, |les|);
    var s := ss[n];
    hide Due;
    CoverIsDue(s.k, s.getters, |s.items|);
    CoverIsDue(s.k, s.putters, s.maxsize - |s.items|);
  }

  // ---------------------------------------------------------------- history

  function AskOf<T>(a: Step<T>): Q.Ask<T> {
    match a
    case DoPut(x) => Q.AsksPut(x)
    case DoPutNowait(x) => Q.AsksPut(x)
    case DoResumePut(id) => Q.RetriesPut(id)
    case DoGet => Q.AsksGet
    case DoGetNowait => Q.AsksGet
    case DoResumeGet(id) => Q.RetriesGet(id)
    case DoTaskDone => Q.AsksDone
    case Env(_) => Q.AsksNothing
  }

  function Views<T>(ss: seq<System<T>>): (r: seq<Q.State<T>>)
    ensures |r| == |ss| && forall i :: 0 <= i < |ss| ==> r[i] == View(ss[i])
  {
    seq(|ss|, i requires 0 <= i < |ss| => View(ss[i]))
  }

  function Asks<T>(steps: seq<Step<T>>): (r: seq<Q.Ask<T>>)
    ensures |r| == |steps| && forall i :: 0 <= i < |steps| ==> r[i] == AskOf(steps[i])
  {
    seq(|steps|, i requires 0 <= i < |steps| => AskOf(steps[i]))
  }

  /** The record does not see which waiting calls are cancelled. */
  lemma RecordedUpTo<T>(s: Q.State<T>, a: Q.Ask<T>, s1: Q.State<T>, s2: Q.State<T>)
    requires Q.Recorded(s, a, s1) && s2 == s1.(getters := s2.getters, putters := s2.putters)
    requires s2.putters.next == s1.putters.next
    ensures Q.Recorded(s, a, s2)
  {
    hide Q.Stores, Q.TakesItem;
  }

  lemma NothingRecorded<T>(s: Q.State<T>)
    requires Q.Inv(s)
    ensures Q.Recorded(s, Q.AsksNothing, s)
  {
  }

  lemma EnvRecorded<T>(s: System<T>, s': System<T>)
    requires Q.Inv(View(s)) && s' == s.(k := s'.k)
    ensures Q.Recorded(View(s), Q.AsksNothing, View(s'))
  {
    NothingRecorded(View(s));
    hide Q.Recorded, Q.Inv, Ids, Statuses;
    RecordedUpTo(View(s), Q.AsksNothing, View(s), View(s'));
  }

  lemma ResumptionRecorded<T>(s: System<T>, a: Step<T>, s': System<T>)
    requires Joined(s) && Q.Inv(View(s)) && Takes(s, a, s') && (a.DoResumePut? || a.DoResumeGet?)
    ensures Q.Recorded(View(s), AskOf(a), View(s'))
  {
    hide Q.Recorded, Q.Inv, Joined, ResumePut, ResumeGet, Q.Next, Q.Enabled, Enabled, Resumes;
    match a
    case DoResumePut(id) =>
      if Abs(s.k, s.putters).calls[id] == W.Woken { RetriesPut(s, id); } else { GivesUpPut(s, id); }
      Q.NextRecorded(View(s), Q.ResumePut(id));
    case DoResumeGet(id) =>
      if Abs(s.k, s.getters).calls[id] == W.Woken { RetriesGet(s, id); } else { GivesUpGet(s, id); }
      Q.NextRecorded(View(s), Q.ResumeGet(id));
  }

  lemma CallRecorded<T>(s: System<T>, a: Step<T>, s': System<T>)
    requires Joined(s) && Q.Inv(View(s)) && Takes(s, a, s') && !a.Env? && !a.DoResumePut? && !a.DoResumeGet?
    ensures Q.Recorded(View(s), AskOf(a), View(s'))
  {
    hide Q.Recorded, Q.Inv, Joined, PutNow, GetNow, TryPut, TryGet, Abs;
    match a
    case DoPut(x) =>
      TryPutSimulates(s, x);
      Q.PutRecorded(View(s), x);
      RecordedUpTo(View(s), AskOf(a), Q.TryPut(View(s), x), View(s'));
    case DoGet =>
      TryGetSimulates(s);
      Q.GetRecorded(View(s));
      RecordedUpTo(View(s), AskOf(a), Q.TryGet(View(s)), View(s'));
    case DoPutNowait(x) =>
      PutNowSimulates(s, x);
      Q.PutRecorded(View(s), x);
    case DoGetNowait =>
      GetNowSimulates(s);
      Q.GetRecorded(View(s));
    case DoTaskDone =>
      Q.NextRecorded(View(s), Q.TaskDone);
  }

  lemma StepRecorded<T>(s: System<T>, a: Step<T>, s': System<T>)
    requires Joined(s) && Q.Inv(View(s)) && Takes(s, a, s')
    ensures Q.Recorded(View(s), AskOf(a), View(s'))
  {
    match a
    case Env(e) =>
      hide Q.Inv, Joined, Q.Recorded, View, StepOk, Foreign;
      EnvRecorded(s, s');
    case DoResumePut(_) => ResumptionRecorded(s, a, s');
    case DoResumeGet(_) => ResumptionRecorded(s, a, s');
    case _ => CallRecorded(s, a, s');
  }

  lemma SystemInv<T>(ss: seq<System<T>>, steps: seq<Step<T>>, n: nat)
    requires IsSystemRun(ss, steps) && n <= |steps|
    ensures Joined(ss[n]) && Q.Inv(View(ss[n]))
  {
    var ls, les := SystemSimulates(ss, steps, n);
    hide Joined, Takes, View;
    Q.RunInv(ls, les, |les|);
  }

  lemma SystemIsHistory<T>(ss: seq<System<T>>, steps: seq<Step<T>>)
    requires IsSystemRun(ss, steps)
    ensures Q.IsHistory(Views(ss), Asks(steps))
  {
    assert Abs(ss[0].k, EMPTY_LIST) == W.EMPTY;
    forall i | 0 <= i < |steps| ensures Q.Recorded(Views(ss)[i], Asks(steps)[i], Views(ss)[i + 1]) {
      hide Q.Recorded, Q.Inv, Joined, View, AskOf;
      SystemInv(ss, steps, i);
      StepRecorded(ss[i], steps[i], ss[i + 1]);
    }
  }

  /** First in, first out by the calls themselves, on the kernel: the queue holds what its callers
      passed to accepted puts, in that order, less the first items, one for each get that took one. */
  lemma FifoOnKernel<T>(ss: seq<System<T>>, steps: seq<Step<T>>, n: nat)
    requires IsSystemRun(ss, steps) && n <= |steps|
    ensures var vs, asks := Views(ss), Asks(steps);
            var stored, taken := Q.Stored(vs, asks, n), Q.Taken(vs, asks, n);
            && taken <= |stored| && ss[n].items == stored[taken..] && ss[n].gets == stored[..taken]
            && (ss[n].finished <==> |stored| == Q.Reported(vs, asks, n))
  {
    SystemIsHistory(ss, steps);
    SystemInv(ss, steps, n);
    hide Joined, Q.IsHistory, Q.Inv;
    Q.ItemsByCalls(View(ss[n]), Views(ss), Asks(steps), n);
  }
}

/** `Semaphore` and `BoundedSemaphore` running on the kernel: every step is at most two events of
    `SemaphoreModel`, so its laws hold of the semaphore on the kernel. */
module SemaphoreKernel {
  import opened Common
  import opened Kernel
  import opened KernelInvariant
  import opened SuspendedCalls
  import opened WaitersKernel
  import W = Waiters
  import S = SemaphoreModel

  datatype System = System(k: Kernel, value: int, list: List, initial: nat, bound: Option<nat>,
                           acquired: nat, released: nat)

  function View(s: System): S.State {
    S.State(s.value, Abs(s.k, s.list), s.initial, s.bound, s.acquired, s.released)
  }

  ghost predicate Joined(s: System) { Inv(s.k) && Coupled(s.k, s.list) }

  // ---------------------------------------------------------------- steps

  predicate InStep(s: System) { s.k.mode.InTask? && s.k.mode.task < |s.k.futs| }

  /** The test of the wait loop in the running task: take a unit or wait. */
  function Attempt(s: System): System
    requires InStep(s)
  {
    if s.value > 0 then s.(value := s.value - 1, acquired := s.acquired + 1)
    else var (k', l') := WaitOn(s.k, s.list); s.(k := k', list := l')
  }

  function WakeUpNext(s: System): System { var (k', l') := WakeUp(s.k, s.list); s.(k := k', list := l') }

  function Release(s: System): System {
    if s.bound.Some? && s.value >= s.bound.value then s
    else WakeUpNext(s.(value := s.value + 1, released := s.released + 1))
  }

  /** The loop resumes call `id`: `acquire` tests again, or passes the exception on and, if it had
      been woken and units remain, wakes the next call. */
  function Resume(s: System, id: nat): System
    requires id in s.list.calls && s.list.calls[id].fut < |s.k.futs| && Enabled(s.k, Begin)
  {
    var s1 := s.(k := DoBegin(s.k), list := s.list.(calls := s.list.calls - {id}));
    if InStep(s1) && s1.k.mode.thrown == None then Attempt(s1)
    else if s.value > 0 && s.k.futs[s.list.calls[id].fut].state != Cancelled then WakeUpNext(s1)
    else s1
  }

  datatype Step = Env(e: Event) | DoAcquire | DoResume(id: nat) | DoRelease

  ghost predicate Takes(s: System, a: Step, s': System) {
    match a
    case Env(e) => StepOk(s.k, e, s'.k) && s' == s.(k := s'.k)
                   && forall id :: id in s.list.calls ==> Foreign(s.k, e, s.list.calls[id])
    case DoAcquire => InStep(s) && s' == Attempt(s)
    case DoResume(id) => id in s.list.calls && s.list.calls[id].fut < |s.k.futs| && Enabled(s.k, Begin)
                         && Resumes(s.k) == Some(s.list.calls[id].task) && s' == Resume(s, id)
    case DoRelease => s' == Release(s)
  }

  // ---------------------------------------------------------------- simulation

  /** The events of `SemaphoreModel` that lead from `a` to `b`. */
  ghost predicate Leads(a: S.State, es: seq<S.Event>, b: S.State)
    decreases |es|
  {
    if es == [] then a == b else S.Enabled(a, es[0]) && Leads(S.Next(a, es[0]), es[1..], b)
  }

  lemma LeadsOne(a: S.State, e: S.Event)
    requires S.Enabled(a, e)
    ensures Leads(a, [e], S.Next(a, e))
  {
    assert [e][1..] == [];
  }

  lemma LeadsTwo(a: S.State, e: S.Event, e': S.Event)
    requires S.Enabled(a, e) && S.Enabled(S.Next(a, e), e')
    ensures Leads(a, [e, e'], S.Next(S.Next(a, e), e'))
  {
    LeadsOne(S.Next(a, e), e');
    assert [e, e'][1..] == [e'];
  }

  lemma EnvSimulates(s: System, e: Event, s': System) returns (es: seq<S.Event>)
    requires Joined(s) && Takes(s, Env(e), s')
    ensures Joined(s') && Leads(View(s), es, View(s'))
  {
    NextInv(s.k, e);
    EnvList(s.k, e, s.list);
    hide Next, HitBy, Inv, AllTouched, KeepsDone, Coupled;
    var hit := TouchedList(s.k, s'.k, s.list, HitBy(s.k, e));
    if hit.None? {
      es := [];
    } else {
      es := [S.Cancel(hit.value)];
      LeadsOne(View(s), S.Cancel(hit.value));
    }
  }

  lemma AttemptSimulates(s: System)
    requires Joined(s) && InStep(s)
    ensures Joined(Attempt(s))
    ensures var a := S.Attempt(View(s));
            View(Attempt(s)) == if s.value <= 0 && s.k.futs[s.k.mode.task].mustCancel
                                then a.(waiters := W.CancelCall(a.waiters, s.list.next)) else a
  {
    hide Inv, Coupled, Abs, WaitOn;
    if s.value <= 0 { WaitSimulates(s.k, s.list); }
  }

  lemma AcquireSimulates(s: System) returns (es: seq<S.Event>)
    requires Joined(s) && InStep(s)
    ensures Joined(Attempt(s)) && Leads(View(s), es, View(Attempt(s)))
  {
    AttemptSimulates(s);
    hide Joined, Attempt;
    if s.value <= 0 && s.k.futs[s.k.mode.task].mustCancel {
      es := [S.Acquire, S.Cancel(s.list.next)];
      LeadsTwo(View(s), S.Acquire, S.Cancel(s.list.next));
    } else {
      es := [S.Acquire];
      LeadsOne(View(s), S.Acquire);
    }
  }

  lemma WakeSimulates(s: System)
    requires Joined(s)
    ensures Joined(WakeUpNext(s)) && View(WakeUpNext(s)) == View(s).(waiters := W.WakeNext(View(s).waiters))
  {
    hide Inv, Coupled, Abs, WakeUp;
    WakeUpSimulates(s.k, s.list);
  }

  lemma ReleaseSimulates(s: System) returns (es: seq<S.Event>)
    requires Joined(s)
    ensures Joined(Release(s)) && Leads(View(s), es, View(Release(s)))
  {
    es := [S.Release];
    if !(s.bound.Some? && s.value >= s.bound.value) {
      WakeSimulates(s.(value := s.value + 1, released := s.released + 1));
    }
    hide WakeUpNext;
    LeadsOne(View(s), S.Release);
  }

  lemma FutureOf(k: Kernel, l: List, id: nat)
    requires Coupled(k, l) && id in l.calls && Abs(k, l).calls[id] in {W.WokenCancelled, W.Cancelled}
    ensures l.calls[id].fut < |k.futs|
    ensures k.futs[l.calls[id].fut].state == Cancelled <==> Abs(k, l).calls[id] == W.Cancelled
  {
    assert Suspended(k, l.calls[id]);
  }

  lemma ResumeSimulates(s: System, id: nat) returns (es: seq<S.Event>)
    requires Joined(s) && Enabled(s.k, Begin) && id in s.list.calls && s.list.calls[id].fut < |s.k.futs|
    requires Resumes(s.k) == Some(s.list.calls[id].task)
    ensures Joined(Resume(s, id)) && Leads(View(s), es, View(Resume(s, id)))
  {
    es := [S.Resume(id)];
    WaitersKernel.ResumeSimulates(s.k, s.list, id);
    var s1 := s.(k := DoBegin(s.k), list := s.list.(calls := s.list.calls - {id}));
    hide DoBegin, Inv, Coupled, Abs;
    if s1.k.mode.thrown == None {
      AttemptSimulates(s1);
    } else {
      FutureOf(s.k, s.list, id);
      WakeSimulates(s1);
    }
    hide Attempt, WakeUpNext;
    LeadsOne(View(s), S.Resume(id));
  }

  /** Every step of the semaphore on the kernel is a sequence of events of the semaphore model. */
  lemma StepSimulates(s: System, a: Step, s': System) returns (es: seq<S.Event>)
    requires Joined(s) && Takes(s, a, s')
    ensures Joined(s') && Leads(View(s), es, View(s'))
  {
    hide Joined, Attempt, Resume, Release, Leads;
    match a
    case Env(e) => es := EnvSimulates(s, e, s');
    case DoAcquire => es := AcquireSimulates(s);
    case DoResume(id) => es := ResumeSimulates(s, id);
    case DoRelease => es := ReleaseSimulates(s);
  }

  // ---------------------------------------------------------------- runs

  ghost predicate IsSystemRun(ss: seq<System>, steps: seq<Step>) {
    && |ss| == |steps| + 1 && Inv(ss[0].k) && ss[0].list == EMPTY_LIST && S.IsInitial(View(ss[0]))
    && forall i :: 0 <= i < |steps| ==> Takes(ss[i], steps[i], ss[i + 1])
  }

  lemma {:induction false} ExtendRun(ls: seq<S.State>, les: seq<S.Event>, es: seq<S.Event>, b: S.State)
    returns (ls': seq<S.State>, les': seq<S.Event>)
    requires S.IsRun(ls, les) && Leads(ls[|les|], es, b)
    ensures S.IsRun(ls', les') && ls'[|les'|] == b && ls'[0] == ls[0]
    decreases |es|
  {
    ls', les' := ls, les;
    if es != [] {
      var n := S.Next(ls[|les|], es[0]);
      ls', les' := ExtendRun(ls + [n], les + [es[0]], es[1..], b);
    }
  }

  /** The semaphore on the kernel simulates the semaphore model. */
  lemma {:induction false} SystemSimulates(ss: seq<System>, steps: seq<Step>, n: nat)
    returns (ls: seq<S.State>, les: seq<S.Event>)
    requires IsSystemRun(ss, steps) && n <= |steps|
    ensures Joined(ss[n]) && S.IsRun(ls, les) && ls[0] == View(ss[0]) && ls[|les|] == View(ss[n])
  {
    if n == 0 {
      ls, les := [View(ss[0])], [];
    } else {
      hide Joined, Takes, View;
      ls, les := SystemSimulates(ss, steps, n - 1);
      var es := StepSimulates(ss[n - 1], steps[n - 1], ss[n]);
      ls, les := ExtendRun(ls, les, es, View(ss[n]));
    }
  }

  /** The calls whose wakeup is in the ready queue. */
  ghost function Due(s: System): set<nat> {
    set id | id in s.list.calls && Call(Wakeup(s.list.calls[id].task), s.list.calls[id].fut) in s.k.ready
  }

  lemma WokenAreDue(s: System)
    requires Joined(s)
    ensures W.WokenCalls(View(s).waiters.calls) <= Due(s)
  {
    forall id | id in W.WokenCalls(View(s).waiters.calls) ensures id in Due(s) {
      assert Suspended(s.k, s.list.calls[id]);
      Places(s.k, s.list.calls[id].task);
    }
  }

  /** The laws of the semaphore on the kernel: units are conserved within their bounds, and while a
      call waits at least as many wakeups are in the ready queue as there are units to take. */
  lemma SemaphoreOnKernel(ss: seq<System>, steps: seq<Step>, n: nat)
    requires IsSystemRun(ss, steps) && n <= |steps|
    ensures var s := ss[n];
            && 0 <= s.value && s.value + s.acquired == ss[0].value + s.released
            && (ss[0].bound.Some? ==> s.value <= ss[0].bound.value)
            && ((exists id :: id in s.list.calls && StatusOf(s.k, s.list.calls[id]) == W.Waiting) ==>
                  |Due(s)| >= s.value)
  {
    var ls, les := SystemSimulates(ss, steps, n);
    S.RunInv(ls, les, |les|);
    var s := ss[n];
    WokenAreDue(s);
    if id :| id in s.list.calls && StatusOf(s.k, s.list.calls[id]) == W.Waiting {
      assert id in W.WaitingCalls(View(s).waiters.calls);
      SubsetSize(W.WokenCalls(View(s).waiters.calls), Due(s));
    }
  }
}

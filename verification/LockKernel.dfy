/** `Lock` running on the kernel: what `LockModel` takes as its events is shown to be what the
    kernel does.  A state joins the kernel with the lock's fields; a queued `acquire` call is the
    task that suspended in it and the private future it awaits.  Every step of such a system is at
    most two events of `LockModel`, so its laws hold of the lock on the kernel. */
module LockKernel {
  import opened Common
  import opened Kernel
  import opened KernelCounts
  import opened KernelInvariant
  import opened KernelCancel
  import opened SuspendedCalls
  import W = Waiters
  import L = LockModel

  datatype System = System(k: Kernel, locked: bool, queue: seq<Caller>, next: nat, grants: seq<nat>, releases: nat)

  // ---------------------------------------------------------------- abstraction

  function WaiterOf(k: Kernel, c: Caller): L.Waiter { L.Waiter(c.id, StatusOf(k, c)) }

  function WaitersOf(k: Kernel, queue: seq<Caller>): (ws: seq<L.Waiter>)
    ensures |ws| == |queue|
  {
    seq(|queue|, i requires 0 <= i < |queue| => WaiterOf(k, queue[i]))
  }

  function Abs(s: System): L.State {
    L.State(s.locked, WaitersOf(s.k, s.queue), s.next, s.grants, s.releases)
  }

  predicate AllSuspended(k: Kernel, queue: seq<Caller>) {
    && (forall i :: 0 <= i < |queue| ==> Suspended(k, queue[i]))
    && (forall i, j :: 0 <= i < j < |queue| ==> queue[i].fut != queue[j].fut && queue[i].task != queue[j].task)
  }

  ghost predicate Coupled(s: System) { Inv(s.k) && AllSuspended(s.k, s.queue) }

  // ---------------------------------------------------------------- steps

  /** `_wake_up_first`. */
  function WakeUpFirst(s: System): System {
    if s.queue != [] && s.queue[0].fut < |s.k.futs| && !s.k.futs[s.queue[0].fut].Done()
    then s.(k := DoAct(s.k, SetResult(s.queue[0].fut, 1)))
    else s
  }

  /** `acquire` up to its await, in the running task. */
  function Acquire(s: System): System
    requires s.k.mode.InTask? && s.k.mode.task < |s.k.futs|
  {
    if !s.locked && L.AllCancelled(WaitersOf(s.k, s.queue))
    then s.(locked := true, next := s.next + 1, grants := s.grants + [s.next])
    else
      var t, f := s.k.mode.task, |s.k.futs|;
      s.(k := DoEnd(DoAct(s.k, CreateFuture), Await(f)), queue := s.queue + [Caller(s.next, t, f)], next := s.next + 1)
  }

  function Without(q: seq<Caller>, j: nat): seq<Caller>
    requires j < |q|
  {
    q[..j] + q[j + 1..]
  }

  /** The loop resumes call `j`, and `acquire` runs on: the lock is taken, or CancelledError came
      out of the await and the next waiter of a free lock is woken. */
  function Resume(s: System, j: nat): System
    requires j < |s.queue| && Enabled(s.k, Begin)
  {
    var s1 := s.(k := DoBegin(s.k), queue := Without(s.queue, j));
    if s1.k.mode.InTask? && s1.k.mode.thrown == None
    then s1.(locked := true, grants := s.grants + [s.queue[j].id])
    else if s.locked then s1
    else WakeUpFirst(s1)
  }

  function Release(s: System): System {
    if s.locked then WakeUpFirst(s.(locked := false, releases := s.releases + 1)) else s
  }

  datatype Step = Env(e: Event) | DoAcquire | DoResume(j: nat) | DoRelease

  ghost predicate Takes(s: System, a: Step, s': System) {
    match a
    case Env(e) => StepOk(s.k, e, s'.k) && s' == s.(k := s'.k)
                   && forall i :: 0 <= i < |s.queue| ==> Foreign(s.k, e, s.queue[i])
    case DoAcquire => s.k.mode.InTask? && s.k.mode.task < |s.k.futs| && s' == Acquire(s)
    case DoResume(j) => j < |s.queue| && Enabled(s.k, Begin) && Resumes(s.k) == Some(s.queue[j].task)
                        && s' == Resume(s, j)
    case DoRelease => s' == Release(s)
  }

  // ---------------------------------------------------------------- what an event does to a call

  // ---------------------------------------------------------------- foreign events

  function CancelAt(ws: seq<L.Waiter>, j: nat): seq<L.Waiter>
    requires j < |ws|
  {
    ws[j := ws[j].(status := W.CancelStatus(ws[j].status))]
  }

  /** Cancelling entry `j` of the queue, or nothing when the request lands on no queued call. */
  lemma TouchedQueue(k: Kernel, k': Kernel, queue: seq<Caller>, x: Option<nat>) returns (j: nat)
    requires AllSuspended(k, queue)
    requires forall i :: 0 <= i < |queue| ==> Touches(k, k', queue[i], x) && !Running(k', queue[i].task)
    ensures AllSuspended(k', queue) && j <= |queue|
    ensures WaitersOf(k', queue) == if j == |queue| then WaitersOf(k, queue)
                                    else CancelAt(WaitersOf(k, queue), j)
  {
    forall i | 0 <= i < |queue|
      ensures Suspended(k', queue[i])
      ensures StatusOf(k', queue[i])
           == if Involves(queue[i], x) then W.CancelStatus(StatusOf(k, queue[i])) else StatusOf(k, queue[i])
    {
      TouchedStatus(k, k', queue[i], x);
    }
    hide Touches, StatusOf;
    if i :| 0 <= i < |queue| && Involves(queue[i], x) {
      j := i;
      forall i' | 0 <= i' < |queue| && i' != i ensures !Involves(queue[i'], x) {
        assert Suspended(k, queue[i]) && Suspended(k, queue[i']);
      }
      assert WaitersOf(k', queue) == CancelAt(WaitersOf(k, queue), j);
    } else {
      j := |queue|;
      assert WaitersOf(k', queue) == WaitersOf(k, queue);
    }
  }

  /** The events of `LockModel` that lead from `a` to `b`. */
  ghost predicate Leads(a: L.State, es: seq<L.Event>, b: L.State)
    decreases |es|
  {
    if es == [] then a == b else L.Enabled(a, es[0]) && Leads(L.Next(a, es[0]), es[1..], b)
  }

  lemma LeadsOne(a: L.State, e: L.Event)
    requires L.Enabled(a, e)
    ensures Leads(a, [e], L.Next(a, e))
  {
    assert [e][1..] == [];
  }

  lemma EnvSimulates(s: System, e: Event, s': System) returns (es: seq<L.Event>)
    requires Coupled(s) && Takes(s, Env(e), s')
    ensures Coupled(s') && Leads(Abs(s), es, Abs(s'))
  {
    NextInv(s.k, e);
    forall i | 0 <= i < |s.queue|
      ensures Touches(s.k, s'.k, s.queue[i], HitBy(s.k, e)) && !Running(s'.k, s.queue[i].task)
    {
      EventTouches(s.k, e, s.queue[i]);
      NotEntered(s.k, e, s.queue[i].task);
    }
    hide Next, HitBy, Touches, Foreign, Inv;
    var j := TouchedQueue(s.k, s'.k, s.queue, HitBy(s.k, e));
    if j == |s.queue| {
      es := [];
    } else {
      es := [L.Cancel(j)];
      LeadsOne(Abs(s), L.Cancel(j));
    }
  }

  // ---------------------------------------------------------------- the lock's own steps

  lemma WakeSimulates(s: System)
    requires Coupled(s)
    ensures Coupled(WakeUpFirst(s)) && Abs(WakeUpFirst(s)) == L.WakeHead(Abs(s))
    ensures WakeUpFirst(s).k.mode == s.k.mode
  {
    var k, q := s.k, s.queue;
    if q != [] {
      assert Suspended(k, q[0]);
      if !k.futs[q[0].fut].Done() {
        var e := SetResult(q[0].fut, 1);
        NextInv(k, Act(e));
        WokenStatus(k, q[0]);
        forall i | 0 < i < |q|
          ensures Suspended(DoAct(k, e), q[i]) && StatusOf(DoAct(k, e), q[i]) == StatusOf(k, q[i])
        {
          WokenOther(k, q[0].fut, q[i]);
        }
        ActUnfinished(k, e, q[0].task);
        hide DoAct, StatusOf, Suspended, Inv;
        assert Abs(WakeUpFirst(s)).waiters == L.WakeHead(Abs(s)).waiters;
      } else {
        assert StatusOf(k, q[0]) != W.Waiting;
      }
    }
  }

  lemma ReleaseSimulates(s: System) returns (es: seq<L.Event>)
    requires Coupled(s)
    ensures Coupled(Release(s)) && Leads(Abs(s), es, Abs(Release(s)))
  {
    es := [L.Release];
    if s.locked { WakeSimulates(s.(locked := false, releases := s.releases + 1)); }
    LeadsOne(Abs(s), L.Release);
  }

  lemma WithoutSame(k: Kernel, k': Kernel, q: seq<Caller>, j: nat)
    requires AllSuspended(k, q) && j < |q|
    requires forall i :: 0 <= i < |q| && i != j ==> Suspended(k', q[i]) && StatusOf(k', q[i]) == StatusOf(k, q[i])
    ensures AllSuspended(k', Without(q, j))
    ensures WaitersOf(k', Without(q, j)) == L.Without(WaitersOf(k, q), j)
  {
    var r := Without(q, j);
    assert forall i :: 0 <= i < |r| ==> r[i] == q[if i < j then i else i + 1];
    hide Suspended, StatusOf;
  }

  lemma ResumeSimulates(s: System, j: nat) returns (es: seq<L.Event>)
    requires Coupled(s) && j < |s.queue| && Enabled(s.k, Begin) && Resumes(s.k) == Some(s.queue[j].task)
    ensures Coupled(Resume(s, j)) && Leads(Abs(s), es, Abs(Resume(s, j)))
  {
    es := [L.Resume(j)];
    var k, k', q := s.k, DoBegin(s.k), s.queue;
    ResumedBy(k, q[j]);
    NextInv(k, Begin);
    forall i | 0 <= i < |q| && i != j ensures Suspended(k', q[i]) && StatusOf(k', q[i]) == StatusOf(k, q[i]) {
      assert Suspended(k, q[i]) && q[i].task != q[j].task;
      BeginTouches(k, q[i]);
      NotEntered(k, Begin, q[i].task);
      SameStatus(k, k', q[i]);
    }
    hide DoBegin, StatusOf, Suspended, Inv;
    WithoutSame(k, k', q, j);
    var s1 := s.(k := k', queue := Without(q, j));
    assert Abs(s).waiters[j] == WaiterOf(k, q[j]);
    if k'.mode.thrown != None && !s.locked { WakeSimulates(s1); }
    LeadsOne(Abs(s), L.Resume(j));
  }

  lemma AddCaller(k: Kernel, k': Kernel, q: seq<Caller>, c: Caller)
    requires AllSuspended(k, q) && Suspended(k', c)
    requires forall i :: 0 <= i < |q| ==>
               && Suspended(k', q[i]) && StatusOf(k', q[i]) == StatusOf(k, q[i])
               && q[i].fut != c.fut && q[i].task != c.task
    ensures AllSuspended(k', q + [c])
    ensures WaitersOf(k', q + [c]) == WaitersOf(k, q) + [WaiterOf(k', c)]
  {
    hide Suspended, StatusOf;
  }

  lemma SlowAcquire(s: System)
    requires Coupled(s) && s.k.mode.InTask? && s.k.mode.task < |s.k.futs|
    requires s.locked || !L.AllCancelled(WaitersOf(s.k, s.queue))
    ensures var s', a := Acquire(s), L.Next(Abs(s), L.Acquire);
            && Coupled(s')
            && Abs(s') == if s.k.futs[s.k.mode.task].mustCancel then L.Next(a, L.Cancel(|s.queue|)) else a
  {
    var t, f, q := s.k.mode.task, |s.k.futs|, s.queue;
    var c := Caller(s.next, t, f);
    SuspendKeepsInv(s.k, t);
    hide DoEnd, DoAct, StatusOf, Suspended, Inv, WaitersOf;
    var k' := DoEnd(DoAct(s.k, CreateFuture), Await(f));
    Suspends(s.k, c);
    forall i | 0 <= i < |q| ensures Suspended(k', q[i]) && StatusOf(k', q[i]) == StatusOf(s.k, q[i]) {
      OthersStay(s.k, t, q[i]);
    }
    forall i | 0 <= i < |q| ensures q[i].fut != f && q[i].task != t { NotRunning(s.k, t, q[i]); }
    AddCaller(s.k, k', q, c);
  }

  lemma AcquireSimulates(s: System) returns (es: seq<L.Event>)
    requires Coupled(s) && s.k.mode.InTask? && s.k.mode.task < |s.k.futs|
    ensures Coupled(Acquire(s)) && Leads(Abs(s), es, Abs(Acquire(s)))
  {
    es := [L.Acquire];
    if !s.locked && L.AllCancelled(WaitersOf(s.k, s.queue)) {
      LeadsOne(Abs(s), L.Acquire);
    } else {
      SlowAcquire(s);
      hide Coupled, Acquire;
      var a := L.Next(Abs(s), L.Acquire);
      LeadsOne(Abs(s), L.Acquire);
      if s.k.futs[s.k.mode.task].mustCancel {
        es := [L.Acquire, L.Cancel(|s.queue|)];
        LeadsOne(a, L.Cancel(|s.queue|));
        assert es[1..] == [L.Cancel(|s.queue|)];
      }
    }
  }

  // ---------------------------------------------------------------- runs

  /** Every step of the lock on the kernel is a sequence of events of the lock model. */
  lemma StepSimulates(s: System, a: Step, s': System) returns (es: seq<L.Event>)
    requires Coupled(s) && Takes(s, a, s')
    ensures Coupled(s') && Leads(Abs(s), es, Abs(s'))
  {
    hide Coupled, Acquire, Resume, Release, Leads;
    match a
    case Env(e) => es := EnvSimulates(s, e, s');
    case DoAcquire => es := AcquireSimulates(s);
    case DoResume(j) => es := ResumeSimulates(s, j);
    case DoRelease => es := ReleaseSimulates(s);
  }

  ghost predicate IsSystemRun(ss: seq<System>, steps: seq<Step>) {
    && |ss| == |steps| + 1 && Inv(ss[0].k) && ss[0] == System(ss[0].k, false, [], 0, [], 0)
    && forall i :: 0 <= i < |steps| ==> Takes(ss[i], steps[i], ss[i + 1])
  }

  lemma {:induction false} ExtendRun(ls: seq<L.State>, les: seq<L.Event>, es: seq<L.Event>, b: L.State)
    returns (ls': seq<L.State>, les': seq<L.Event>)
    requires L.IsRun(ls, les) && Leads(ls[|les|], es, b)
    ensures L.IsRun(ls', les') && ls'[|les'|] == b
    decreases |es|
  {
    ls', les' := ls, les;
    if es != [] {
      var n := L.Next(ls[|les|], es[0]);
      ls', les' := ExtendRun(ls + [n], les + [es[0]], es[1..], b);
    }
  }

  /** The lock on the kernel simulates the lock model: each of its states is, seen as a lock, the
      end of a run of `LockModel`. */
  lemma {:induction false} SystemSimulates(ss: seq<System>, steps: seq<Step>, n: nat)
    returns (ls: seq<L.State>, les: seq<L.Event>)
    requires IsSystemRun(ss, steps) && n <= |steps|
    ensures Coupled(ss[n]) && L.IsRun(ls, les) && ls[|les|] == Abs(ss[n])
  {
    if n == 0 {
      ls, les := [L.INITIAL], [];
      assert Abs(ss[0]) == L.INITIAL;
    } else {
      hide Coupled, Takes, Abs;
      ls, les := SystemSimulates(ss, steps, n - 1);
      var es := StepSimulates(ss[n - 1], steps[n - 1], ss[n]);
      ls, les := ExtendRun(ls, les, es, Abs(ss[n]));
    }
  }

  lemma HeadReady(s: System)
    requires Coupled(s) && L.NoLostWakeup(Abs(s)) && !s.locked
    requires exists i :: 0 <= i < |s.queue| && StatusOf(s.k, s.queue[i]) == W.Waiting
    ensures Handle.Call(Wakeup(s.queue[0].task), s.queue[0].fut) in s.k.ready
  {
    var i :| 0 <= i < |s.queue| && StatusOf(s.k, s.queue[i]) == W.Waiting;
    assert Abs(s).waiters[i].status == W.Waiting;
    assert Abs(s).waiters[0] == WaiterOf(s.k, s.queue[0]);
    assert Suspended(s.k, s.queue[0]);
    Places(s.k, s.queue[0].task);
  }

  /** The laws of the lock, on the kernel: mutual exclusion and arrival order, and whenever the
      lock is free while a call waits, the wakeup of the head of the queue is in the ready queue. */
  lemma LockOnKernel(ss: seq<System>, steps: seq<Step>, n: nat)
    requires IsSystemRun(ss, steps) && n <= |steps|
    ensures var s := ss[n];
            && |s.grants| == s.releases + (if s.locked then 1 else 0)
            && L.Fifo(Abs(s)) && L.WokenAtHead(Abs(s))
            && (!s.locked && (exists i :: 0 <= i < |s.queue| && StatusOf(s.k, s.queue[i]) == W.Waiting) ==>
                  Handle.Call(Wakeup(s.queue[0].task), s.queue[0].fut) in s.k.ready)
  {
    var ls, les := SystemSimulates(ss, steps, n);
    L.RunInv(ls, les, |les|);
    var s := ss[n];
    if !s.locked && exists i :: 0 <= i < |s.queue| && StatusOf(s.k, s.queue[i]) == W.Waiting {
      HeadReady(s);
    }
  }
}

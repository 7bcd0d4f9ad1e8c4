/** The asyncio kernel as a transition system: futures, tasks and the ready queue.

    Futures and tasks live in an arena and are named by their index.  One micro-step of
    a run is the loop popping a handle (`Begin`), code performing one operation on the
    kernel (`Act`), or the running coroutine giving control back (`End`), so a cancel can
    fall between any two of them.  The class `EventLoop.Loop` performs the same operations
    in place and is proved against the functions here. */
module Kernel {
  import opened Common

  /** What can be thrown.  `BaseExc` stands for exceptions outside `Exception`. */
  datatype Exc = CancelledError | InvalidStateError | RuntimeError | Other(tag: int) | BaseExc(tag: int)

  datatype State = Pending | Cancelled | Result(v: int) | Raised(exc: Exc)

  datatype Callback = Wakeup(task: nat) | User(id: nat)

  /** A future; the last three fields are those `Task` adds. */
  datatype Future = Future(state: State, callbacks: seq<Callback>, isTask: bool,
                           mustCancel: bool, waiter: Option<nat>)
  {
    predicate Done() { state != Pending }
  }

  const PLAIN_FUTURE := Future(Pending, [], false, false, None)
  const NEW_TASK := Future(Pending, [], true, false, None)

  /** An entry of the ready queue: `__step(exc)` of a task, or a done callback of `fut`. */
  datatype Handle = Step(task: nat, exc: Option<Exc>) | Call(cb: Callback, fut: nat)

  /** What the loop is executing; `thrown` is what the resumed coroutine received. */
  datatype Mode = Idle | InTask(task: nat, thrown: Option<Exc>) | InCallback(id: nat)

  datatype Kernel = Kernel(futs: seq<Future>, ready: seq<Handle>, mode: Mode)

  const INITIAL := Kernel([], [], Idle)

  predicate IsTask(k: Kernel, t: nat) { t < |k.futs| && k.futs[t].isTask }

  predicate Unfinished(k: Kernel, t: nat) { IsTask(k, t) && !k.futs[t].Done() }

  predicate Running(k: Kernel, t: nat) { k.mode.InTask? && k.mode.task == t }

  // ---------------------------------------------------------------- operations

  function Scheduled(cbs: seq<Callback>, f: nat): seq<Handle> {
    seq(|cbs|, i requires 0 <= i < |cbs| => Call(cbs[i], f))
  }

  /** A future leaves `Pending`: its callbacks move, in order, to the end of the ready queue. */
  function Complete(k: Kernel, f: nat, st: State): Kernel
    requires f < |k.futs|
  {
    k.(futs := k.futs[f := k.futs[f].(state := st, callbacks := [])],
       ready := k.ready + Scheduled(k.futs[f].callbacks, f))
  }

  function Enqueue(k: Kernel, h: Handle): Kernel { k.(ready := k.ready + [h]) }

  function AddDoneCallback(k: Kernel, f: nat, cb: Callback): Kernel
    requires f < |k.futs|
  {
    if k.futs[f].Done() then Enqueue(k, Call(cb, f))
    else k.(futs := k.futs[f := k.futs[f].(callbacks := k.futs[f].callbacks + [cb])])
  }

  function SetTask(k: Kernel, t: nat, mustCancel: bool, waiter: Option<nat>): Kernel
    requires t < |k.futs|
  {
    k.(futs := k.futs[t := k.futs[t].(mustCancel := mustCancel, waiter := waiter)])
  }

  /** `__step` registers its wakeup with the yielded future and records it as the waiter. */
  function AwaitFuture(k: Kernel, t: nat, f: nat): Kernel
    requires t < |k.futs| && f < |k.futs|
  {
    SetTask(AddDoneCallback(k, f, Wakeup(t)), t, k.futs[t].mustCancel, Some(f))
  }

  function Others(cbs: seq<Callback>, cb: Callback): seq<Callback> {
    if cbs == [] then []
    else Others(cbs[..|cbs| - 1], cb) + (if cbs[|cbs| - 1] == cb then [] else [cbs[|cbs| - 1]])
  }

  /** The arena's indices below `n`: what a cancel request has not visited yet. */
  function Below(n: nat): (r: set<nat>)
    ensures forall i: nat :: i in r <==> i < n
  {
    if n == 0 then {} else Below(n - 1) + {n - 1}
  }

  /** The unfinished future at the end of the await chain that starts at `f`: a plain future,
      or a task whose waiter is absent or already done.  `None` when the chain loops. */
  function Target(k: Kernel, f: nat, todo: set<nat>): (r: Option<nat>)
    requires f < |k.futs| && !k.futs[f].Done()
    ensures r.Some? ==> r.value < |k.futs| && !k.futs[r.value].Done()
    ensures r.Some? && k.futs[r.value].isTask ==>
              var w := k.futs[r.value].waiter;
              w.None? || w.value >= |k.futs| || k.futs[w.value].Done()
    decreases todo
  {
    if f !in todo then None
    else
      var w := k.futs[f].waiter;
      if !k.futs[f].isTask || w.None? || w.value >= |k.futs| || k.futs[w.value].Done() then Some(f)
      else Target(k, w.value, todo - {f})
  }

  datatype CancelResult = Returned(b: bool) | RecursionError

  /** `Future.cancel` and `Task.cancel`: the request lands on the end of the await chain. */
  function CancelFrom(k: Kernel, f: nat, todo: set<nat>): (Kernel, CancelResult)
    requires f < |k.futs|
  {
    if k.futs[f].Done() then (k, Returned(false))
    else
      var e := Target(k, f, todo);
      if e.None? then (k, RecursionError)
      else if k.futs[e.value].isTask then (SetTask(k, e.value, true, k.futs[e.value].waiter), Returned(true))
      else (Complete(k, e.value, Cancelled), Returned(true))
  }

  function Cancel(k: Kernel, f: nat): (Kernel, CancelResult)
    requires f < |k.futs|
  {
    CancelFrom(k, f, Below(|k.futs|))
  }

  // ---------------------------------------------------------------- micro-steps

  datatype Action =
    | CreateFuture
    | CreateTask
    | SetResult(f: nat, v: int)
    | SetException(f: nat, exc: Exc)
    | CancelFuture(f: nat)
    | AddCallback(f: nat, id: nat)
    | RemoveCallback(f: nat, id: nat)

  /** How a coroutine hands control back to `Task.__step`.  `BadYield` covers every yielded
      value that makes `__step` schedule itself again with a RuntimeError. */
  datatype Outcome = Return(v: int) | Raise(exc: Exc) | Await(f: nat) | BareYield | BadYield

  datatype Event = Begin | Act(a: Action) | End(o: Outcome) | EndCallback

  predicate ActionOk(k: Kernel, a: Action) {
    match a
    case CreateFuture => true
    case CreateTask => true
    case _ => a.f < |k.futs|
  }

  predicate Enabled(k: Kernel, e: Event) {
    match e
    case Begin => k.mode.Idle? && k.ready != []
    case Act(a) => ActionOk(k, a)
    case End(o) => k.mode.InTask? && k.mode.task < |k.futs| && (o.Await? ==> o.f < |k.futs|)
    case EndCallback => k.mode.InCallback?
  }

  function DoAct(k: Kernel, a: Action): Kernel
    requires ActionOk(k, a)
  {
    match a
    case CreateFuture => k.(futs := k.futs + [PLAIN_FUTURE])
    case CreateTask => Enqueue(k.(futs := k.futs + [NEW_TASK]), Step(|k.futs|, None))
    case SetResult(f, v) =>
      if k.futs[f].Done() || k.futs[f].isTask then k else Complete(k, f, Result(v))
    case SetException(f, x) =>
      if k.futs[f].Done() || k.futs[f].isTask then k else Complete(k, f, Raised(x))
    case CancelFuture(f) => Cancel(k, f).0
    case AddCallback(f, id) => AddDoneCallback(k, f, User(id))
    case RemoveCallback(f, id) =>
      k.(futs := k.futs[f := k.futs[f].(callbacks := Others(k.futs[f].callbacks, User(id)))])
  }

  /** The prologue of `__step`: refuse a finished task, turn a pending cancel request into a
      CancelledError, forget the waiter, and enter the coroutine. */
  function StepIn(k: Kernel, t: nat, exc: Option<Exc>): Kernel
    requires t < |k.futs|
  {
    if k.futs[t].Done() then k
    else
      var thrown := if k.futs[t].mustCancel then Some(CancelledError) else exc;
      SetTask(k, t, false, None).(mode := InTask(t, thrown))
  }

  /** What `future.result()` raises when a wakeup looks at it. */
  function Outgoing(s: State): Option<Exc> {
    match s
    case Pending => Some(InvalidStateError)
    case Cancelled => Some(CancelledError)
    case Result(_) => None
    case Raised(x) => Some(x)
  }

  function DoBegin(k: Kernel): Kernel
    requires Enabled(k, Begin)
  {
    var k1 := k.(ready := k.ready[1..]);
    match k.ready[0]
    case Step(t, x) => if t < |k.futs| then StepIn(k1, t, x) else k1
    case Call(User(id), _) => k1.(mode := InCallback(id))
    case Call(Wakeup(t), f) =>
      if t >= |k.futs| || f >= |k.futs| then k1
      else
        var x := Outgoing(k.futs[f].state);
        // `__wakeup` catches only Exception: anything else leaves the task unresumed
        if x.Some? && x.value.BaseExc? then k1 else StepIn(k1, t, x)
  }

  function DoEnd(k: Kernel, o: Outcome): Kernel
    requires Enabled(k, End(o))
  {
    var t := k.mode.task;
    var k0 := k.(mode := Idle);
    match o
    case Return(v) =>
      if k.futs[t].mustCancel then Complete(SetTask(k0, t, false, k.futs[t].waiter), t, Raised(CancelledError))
      else Complete(k0, t, Result(v))
    case Raise(x) => Complete(k0, t, if x.CancelledError? then Cancelled else Raised(x))
    case BareYield => Enqueue(k0, Step(t, None))
    case BadYield => Enqueue(k0, Step(t, Some(RuntimeError)))
    case Await(f) =>
      if f == t then Enqueue(k0, Step(t, Some(RuntimeError)))
      else
        var k1 := AwaitFuture(k0, t, f);
        if !k.futs[t].mustCancel then k1
        else
          var (k2, r) := Cancel(k1, f);
          if r == Returned(true) then SetTask(k2, t, false, Some(f)) else k2
  }

  function Next(k: Kernel, e: Event): Kernel
    requires Enabled(k, e)
  {
    match e
    case Begin => DoBegin(k)
    case Act(a) => DoAct(k, a)
    case End(o) => DoEnd(k, o)
    case EndCallback => k.(mode := Idle)
  }

  // ---------------------------------------------------------------- runs

  /** The head of the ready queue is the wakeup of a task whose awaited future carries an
      exception that `__wakeup` does not catch. */
  predicate WakesOnBaseExc(k: Kernel) {
    && k.ready != [] && k.ready[0].Call? && k.ready[0].cb.Wakeup?
    && k.ready[0].fut < |k.futs|
    && k.futs[k.ready[0].fut].state.Raised? && k.futs[k.ready[0].fut].state.exc.BaseExc?
  }

  /** The task the head of the ready queue resumes. */
  function Resumes(k: Kernel): Option<nat> {
    if k.ready == [] then None
    else match k.ready[0]
      case Step(t, _) => Some(t)
      case Call(Wakeup(t), _) => Some(t)
      case Call(User(_), _) => None
  }

  ghost predicate StepOk(k: Kernel, e: Event, k': Kernel) {
    Enabled(k, e) && k' == Next(k, e) && (e.Begin? ==> !WakesOnBaseExc(k))
  }

  /** A run: `ks[i]` becomes `ks[i + 1]` by event `es[i]`.  No wakeup is run for a future whose
      exception lies outside `Exception`. */
  ghost predicate IsRun(ks: seq<Kernel>, es: seq<Event>) {
    && |ks| == |es| + 1
    && forall i :: 0 <= i < |es| ==> StepOk(ks[i], es[i], ks[i + 1])
  }
}

/** The kernel's operations as the source performs them, updating the futures and the ready
    queue in place.  Every method is proved against the function of `Kernel` it implements,
    so what the run theorems say of those functions holds of these bodies. */
module EventLoop {
  import opened Common
  import opened Kernel
  import Spec = Kernel
  import opened KernelInvariant

  class Loop {
    var futs: seq<Future>
    var ready: seq<Handle>
    var mode: Mode

    function View(): Kernel
      reads this
    {
      Kernel(futs, ready, mode)
    }

    constructor ()
      ensures View() == INITIAL
    {
      futs, ready, mode := [], [], Idle;
    }

    method CreateFuture() returns (f: nat)
      modifies this
      ensures View() == DoAct(old(View()), Action.CreateFuture) && f == old(|futs|)
    {
      f := |futs|;
      futs := futs + [PLAIN_FUTURE];
    }

    method CallSoon(h: Handle)
      modifies this`ready
      ensures ready == old(ready) + [h]
    {
      ready := ready + [h];
    }

    method CreateTask() returns (t: nat)
      modifies this
      ensures View() == DoAct(old(View()), Action.CreateTask) && t == old(|futs|)
    {
      t := |futs|;
      futs := futs + [NEW_TASK];
      CallSoon(Step(t, None));
    }

    /** `__schedule_callbacks`: empty the list, then one `call_soon` per callback. */
    method ScheduleCallbacks(f: nat)
      requires f < |futs|
      modifies this`futs, this`ready
      ensures View() == Complete(old(View()), f, old(futs[f].state))
    {
      var callbacks := futs[f].callbacks;
      futs := futs[f := futs[f].(callbacks := [])];
      for i := 0 to |callbacks|
        invariant futs == old(futs)[f := old(futs[f]).(callbacks := [])]
        invariant ready == old(ready) + Scheduled(callbacks, f)[..i]
      {
        CallSoon(Call(callbacks[i], f));
      }
      assert Scheduled(callbacks, f)[..|callbacks|] == Scheduled(callbacks, f);
    }

    /** Shared tail of `set_result`, `set_exception` and `Future.cancel`. */
    method Finish(f: nat, st: State) returns (ok: bool)
      requires f < |futs| && st != Pending
      modifies this`futs, this`ready
      ensures ok == !old(futs[f].Done())
      ensures View() == if ok then Complete(old(View()), f, st) else old(View())
    {
      if futs[f].state != Pending { return false; }
      futs := futs[f := futs[f].(state := st)];
      ScheduleCallbacks(f);
      return true;
    }

    method SetResult(f: nat, v: int) returns (ok: bool)
      requires f < |futs|
      modifies this`futs, this`ready
      ensures View() == DoAct(old(View()), Action.SetResult(f, v))
      ensures ok ==> futs == old(futs)[f := old(futs[f]).(state := Result(v), callbacks := [])]
      ensures ok <==> !old(futs[f].isTask) && !old(futs[f].Done())
    {
      if futs[f].isTask { return false; }
      ok := Finish(f, Result(v));
    }

    method SetException(f: nat, exc: Exc) returns (ok: bool)
      requires f < |futs|
      modifies this`futs, this`ready
      ensures View() == DoAct(old(View()), Action.SetException(f, exc))
      ensures ok ==> futs == old(futs)[f := old(futs[f]).(state := Raised(exc), callbacks := [])]
      ensures ok <==> !old(futs[f].isTask) && !old(futs[f].Done())
    {
      if futs[f].isTask { return false; }
      ok := Finish(f, Raised(exc));
    }

    method AddDoneCallback(f: nat, cb: Callback)
      requires f < |futs|
      modifies this`futs, this`ready
      ensures View() == Spec.AddDoneCallback(old(View()), f, cb)
    {
      if futs[f].state != Pending {
        CallSoon(Call(cb, f));
      } else {
        futs := futs[f := futs[f].(callbacks := futs[f].callbacks + [cb])];
      }
    }

    /** `remove_done_callback`: keep the other callbacks, report how many went. */
    method RemoveDoneCallback(f: nat, id: nat) returns (removed: nat)
      requires f < |futs|
      modifies this`futs
      ensures View() == DoAct(old(View()), RemoveCallback(f, id))
      ensures removed == multiset(old(futs[f].callbacks))[User(id)]
    {
      var callbacks := futs[f].callbacks;
      var kept: seq<Callback> := [];
      for i := 0 to |callbacks|
        invariant kept == Others(callbacks[..i], User(id))
        invariant |kept| + multiset(callbacks[..i])[User(id)] == i
      {
        assert callbacks[..i + 1][..i] == callbacks[..i];
        assert callbacks[..i + 1] == callbacks[..i] + [callbacks[i]];
        if callbacks[i] != User(id) { kept := kept + [callbacks[i]]; }
      }
      assert callbacks[..|callbacks|] == callbacks;
      removed := |callbacks| - |kept|;
      futs := futs[f := futs[f].(callbacks := kept)];
    }

    /** `Future.cancel` and `Task.cancel`, recursive along `_fut_waiter`.  `todo` holds the
        futures the recursion has not entered; entering one twice is unbounded recursion. */
    method Cancel(f: nat, todo: set<nat>) returns (r: CancelResult)
      requires f < |futs|
      modifies this`futs, this`ready
      ensures (View(), r) == CancelFrom(old(View()), f, todo)
      decreases todo
    {
      if futs[f].Done() { return Returned(false); }
      if f !in todo { return RecursionError; }
      if !futs[f].isTask {
        var ok := Finish(f, Cancelled);
        return Returned(ok);
      }
      var w := futs[f].waiter;
      if w.Some? && w.value < |futs| {
        r := Cancel(w.value, todo - {f});
        if r != Returned(false) { return; }
      }
      futs := futs[f := futs[f].(mustCancel := true)];
      r := Returned(true);
    }

    /** `__step` up to entering the coroutine; false is the "already done" error. */
    method StepIn(t: nat, exc: Option<Exc>) returns (entered: bool)
      requires t < |futs|
      modifies this`futs, this`mode
      ensures View() == Spec.StepIn(old(View()), t, exc)
      ensures entered == !old(futs[t].Done())
    {
      if futs[t].Done() { return false; }
      var thrown := exc;
      if futs[t].mustCancel {
        if exc != Some(CancelledError) { thrown := Some(CancelledError); }
        futs := futs[t := futs[t].(mustCancel := false)];
      }
      futs := futs[t := futs[t].(waiter := None)];
      mode := InTask(t, thrown);
      return true;
    }

    /** `__wakeup`: pass on what the awaited future raised, if `except Exception` catches it. */
    method Wakeup(t: nat, f: nat) returns (entered: bool)
      requires t < |futs| && f < |futs|
      modifies this`futs, this`mode
      ensures var x := Outgoing(old(futs[f].state));
              if x.Some? && x.value.BaseExc? then View() == old(View()) && !entered
              else View() == Spec.StepIn(old(View()), t, x) && entered == !old(futs[t].Done())
      ensures entered && !old(futs[t].mustCancel) ==>
                mode == InTask(t, match old(futs[f].state)
                                  case Result(_) => None
                                  case Raised(x) => Some(x)
                                  case Cancelled => Some(CancelledError)
                                  case Pending => Some(InvalidStateError))
      ensures entered && old(futs[t].mustCancel) ==> mode == InTask(t, Some(CancelledError))
    {
      match futs[f].state {
        case Cancelled => entered := StepIn(t, Some(CancelledError));
        case Pending => entered := StepIn(t, Some(InvalidStateError));
        case Raised(x) => if x.BaseExc? { return false; } entered := StepIn(t, Some(x));
        case Result(_) => entered := StepIn(t, None);
      }
    }

    /** One turn of the callback loop of `_run_once`. */
    method RunHandle() returns (ok: bool)
      requires Inv(View()) && mode.Idle? && ready != []
      modifies this
      ensures View() == DoBegin(old(View()))
      ensures ok <==> !WakesOnBaseExc(old(View()))
      ensures ok ==> Inv(View())
    {
      BeginKeepsInvariantIff(View());
      if Resumes(View()).Some? { HeadUnfinished(View()); }
      assert HandleOk(View(), ready[0]);
      var h := ready[0];
      ready := ready[1..];
      match h {
        case Step(t, x) => ok := StepIn(t, x);
        case Call(User(id), _) => mode := InCallback(id); ok := true;
        case Call(Wakeup(t), f) => ok := Wakeup(t, f);
      }
    }

    /** `__step` from the coroutine's return, raise or yield to its end. */
    method StepOut(o: Outcome)
      requires Inv(View()) && mode.InTask? && (o.Await? ==> o.f < |futs|)
      modifies this
      ensures View() == DoEnd(old(View()), o) && Inv(View())
      ensures var t := old(mode.task);
              && t < |futs| && mode == Idle
              && (o.Return? ==>
                    futs[t].state == if old(futs)[t].mustCancel then Raised(CancelledError) else Result(o.v))
              && (o.Raise? ==> futs[t].state == if o.exc == CancelledError then Cancelled else Raised(o.exc))
    {
      NextInv(View(), End(o));
      var t := mode.task;
      mode := Idle;
      var ok;
      match o {
        case Return(v) =>
          if futs[t].mustCancel {
            futs := futs[t := futs[t].(mustCancel := false)];
            ok := Finish(t, Raised(CancelledError));
          } else {
            ok := Finish(t, Result(v));
          }
        case Raise(x) =>
          ok := Finish(t, if x == CancelledError then Cancelled else Raised(x));
        case BareYield => CallSoon(Step(t, None));
        case BadYield => CallSoon(Step(t, Some(RuntimeError)));
        case Await(f) =>
          if f == t {
            CallSoon(Step(t, Some(RuntimeError)));
          } else {
            AddDoneCallback(f, Callback.Wakeup(t));
            futs := futs[t := futs[t].(waiter := Some(f))];
            if futs[t].mustCancel {
              CancelKeepsTasks(View(), f, t);
              var r := Cancel(f, Below(|futs|));
              if r == Returned(true) { futs := futs[t := futs[t].(mustCancel := false)]; }
            }
          }
      }
    }
  }
}

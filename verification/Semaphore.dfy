/** `asyncio.Semaphore` and `BoundedSemaphore` under every interleaving of acquire, release,
    cancel and resume.  `acquire` is cut at the `await` of its wait loop; a call that wakes to
    find the value taken queues again with a fresh future. */
module SemaphoreModel {
  import opened Common
  import opened Waiters

  /** `acquired` and `released` count successful calls. */
  datatype State = State(value: int, waiters: WaitList, initial: nat, bound: Option<nat>,
                         acquired: nat, released: nat)

  predicate IsInitial(s: State) {
    && s == State(s.initial, EMPTY, s.initial, s.bound, 0, 0)
    && (s.bound.Some? ==> s.bound.value == s.initial)
  }

  datatype Event = Acquire | Release | Cancel(id: nat) | Resume(id: nat)

  predicate Enabled(s: State, e: Event) {
    match e
    case Acquire => true
    case Release => true
    case Cancel(id) => id in s.waiters.calls
    case Resume(id) => CanResume(s.waiters, id)
  }

  /** The wait loop's test: take a unit or wait (again). */
  function Attempt(s: State): State {
    if s.value > 0 then s.(value := s.value - 1, acquired := s.acquired + 1)
    else s.(waiters := Wait(s.waiters))
  }

  /** `BoundedSemaphore.release` raises ValueError. */
  predicate Refused(s: State) { s.bound.Some? && s.value >= s.bound.value }

  function Next(s: State, e: Event): State
    requires Enabled(s, e)
  {
    match e
    case Acquire => Attempt(s)
    case Release =>
      if Refused(s) then s
      else s.(value := s.value + 1, released := s.released + 1, waiters := WakeNext(s.waiters))
    case Cancel(id) => s.(waiters := CancelCall(s.waiters, id))
    case Resume(id) =>
      var w := Forget(s.waiters, id);
      match s.waiters.calls[id]
      case Woken => Attempt(s.(waiters := w))
      case WokenCancelled => s.(waiters := if s.value > 0 then WakeNext(w) else w)
      case _ => s.(waiters := w)
  }

  /** Every unit released has been acquired or is still there. */
  predicate Conserved(s: State) {
    && s.value >= 0
    && s.value + s.acquired == s.initial + s.released
    && (s.bound.Some? ==> s.value <= s.bound.value)
  }

  /** While anyone waits, as many woken calls are about to look as there are units to take. */
  predicate NoLostWakeup(s: State) { Covers(s.waiters, s.value) }

  predicate Inv(s: State) { Queued(s.waiters) && Conserved(s) && NoLostWakeup(s) }

  lemma AttemptInv(s: State)
    requires Queued(s.waiters) && Conserved(s) && Covers(s.waiters, s.value - 1)
    ensures Inv(Attempt(s))
  {
    if s.value <= 0 { WaitCovers(s.waiters, 0); }
  }

  lemma NextInv(s: State, e: Event)
    requires Inv(s) && Enabled(s, e)
    ensures Inv(Next(s, e))
  {
    match e
    case Acquire => AttemptInv(s);
    case Release => WakeNextCovers(s.waiters, s.value);
    case Cancel(id) => CancelCovers(s.waiters, id, s.value);
    case Resume(id) =>
      ForgetCovers(s.waiters, id, s.value);
      var w := Forget(s.waiters, id);
      if s.waiters.calls[id] == Woken {
        AttemptInv(s.(waiters := w));
      } else if s.waiters.calls[id] == WokenCancelled {
        WakeNextCovers(w, s.value - 1);
      }
  }

  ghost predicate IsRun(ss: seq<State>, es: seq<Event>) {
    && |ss| == |es| + 1 && IsInitial(ss[0])
    && forall i :: 0 <= i < |es| ==> Enabled(ss[i], es[i]) && ss[i + 1] == Next(ss[i], es[i])
  }

  /** Units are conserved, the value stays within its bounds, no wakeup is lost and calls are woken
      in the order they began to wait, in every reachable state. */
  lemma {:induction false} RunInv(ss: seq<State>, es: seq<Event>, n: nat)
    requires IsRun(ss, es) && n <= |es|
    ensures Conserved(ss[n]) && NoLostWakeup(ss[n]) && InTurn(ss[n].waiters)
    ensures ss[n].initial == ss[0].initial && ss[n].bound == ss[0].bound
    ensures Inv(ss[n])
  {
    if n > 0 {
      RunInv(ss, es, n - 1);
      NextInv(ss[n - 1], es[n - 1]);
    }
  }

  // ---------------------------------------------------------------- history

  /** A unit is taken by an `acquire` that finds one, at once or when it was woken. */
  predicate Takes(s: State, e: Event) {
    && s.value > 0
    && (e.Acquire? || (e.Resume? && e.id in s.waiters.calls && s.waiters.calls[e.id] == Woken))
  }

  /** A unit is given back by a `release` that a bounded semaphore has room for. */
  predicate Gives(s: State, e: Event) {
    e.Release? && (s.bound.None? || s.value < s.bound.value)
  }

  function UnitsTaken(ss: seq<State>, es: seq<Event>, n: nat): nat
    requires |ss| == |es| + 1 && n <= |es|
  {
    if n == 0 then 0 else UnitsTaken(ss, es, n - 1) + if Takes(ss[n - 1], es[n - 1]) then 1 else 0
  }

  function UnitsGiven(ss: seq<State>, es: seq<Event>, n: nat): nat
    requires |ss| == |es| + 1 && n <= |es|
  {
    if n == 0 then 0 else UnitsGiven(ss, es, n - 1) + if Gives(ss[n - 1], es[n - 1]) then 1 else 0
  }

  /** The value is the initial one less the units taken and plus those given back, by the calls made. */
  lemma {:induction false} ValueByCalls(ss: seq<State>, es: seq<Event>, n: nat)
    requires IsRun(ss, es) && n <= |es|
    ensures ss[n].value == ss[0].initial - UnitsTaken(ss, es, n) + UnitsGiven(ss, es, n)
    ensures ss[n].acquired == UnitsTaken(ss, es, n) && ss[n].released == UnitsGiven(ss, es, n)
  {
    if n > 0 {
      ValueByCalls(ss, es, n - 1);
      assert Enabled(ss[n - 1], es[n - 1]) && ss[n] == Next(ss[n - 1], es[n - 1]);
      RunInv(ss, es, n - 1);
    }
  }

  /** A call waits exactly if it finds no unit, under the next number; a resumed call leaves, and no
      other event adds or removes one. */
  lemma WaitsWithoutUnit(s: State, e: Event)
    requires Inv(s) && Enabled(s, e)
    ensures var w, w' := s.waiters, Next(s, e).waiters;
            var waits := s.value == 0 && (e.Acquire? || (e.Resume? && w.calls[e.id] == Woken));
            && w'.next == w.next + (if waits then 1 else 0)
            && w'.calls.Keys == w.calls.Keys - (if e.Resume? then {e.id} else {}) + (if waits then {w.next} else {})
            && (waits ==> w'.calls[w.next] == Waiting)
  {
    WakeNextKeys(s.waiters);
    if e.Resume? { WakeNextKeys(Forget(s.waiters, e.id)); }
    hide WakeNext, Covers;
  }

  class Semaphore {
    var value: int
    var waiters: WaitList
    const bound: Option<nat>
    ghost const initial: nat
    ghost var acquired: nat
    ghost var released: nat

    ghost function View(): State
      reads this
    {
      State(value, waiters, initial, bound, acquired, released)
    }

    constructor (v: nat, bounded: bool)
      ensures IsInitial(View()) && value == v && bound == (if bounded then Some(v) else None)
    {
      value, waiters := v, EMPTY;
      bound := if bounded then Some(v) else None;
      initial, acquired, released := v, 0, 0;
    }

    /** The test of the wait loop, then either the decrement or a new future to wait on. */
    method Try() returns (taken: bool)
      modifies this
      ensures View() == Attempt(old(View())) && taken == (old(value) > 0)
      ensures value == old(value) - (if taken then 1 else 0) && acquired == old(acquired) + (if taken then 1 else 0)
    {
      if value <= 0 {
        waiters := Wait(waiters);
        return false;
      }
      value := value - 1;
      acquired := acquired + 1;
      return true;
    }

    method Acquire() returns (taken: bool)
      requires Inv(View())
      modifies this
      ensures View() == Next(old(View()), Event.Acquire) && Inv(View()) && taken == (old(value) > 0)
      ensures value == old(value) - (if taken then 1 else 0) && acquired == old(acquired) + (if taken then 1 else 0)
    {
      NextInv(View(), Event.Acquire);
      taken := Try();
    }

    /** `acquire` after its await: retry, or clean up and pass the exception on. */
    method Resume(id: nat) returns (taken: bool)
      requires Inv(View()) && CanResume(waiters, id)
      modifies this
      ensures View() == Next(old(View()), Event.Resume(id)) && Inv(View())
      ensures taken <==> old(waiters.calls[id]) == Woken && old(value) > 0
      ensures value == old(value) - (if taken then 1 else 0) && acquired == old(acquired) + (if taken then 1 else 0)
    {
      NextInv(View(), Event.Resume(id));
      var status := waiters.calls[id];
      waiters := Forget(waiters, id);
      if status == Woken {
        taken := Try();
      } else {
        if value > 0 && status != Cancelled { waiters := WakeUpNext(waiters); }
        taken := false;
      }
    }

    /** False is the ValueError of a bounded semaphore released too often. */
    method Release() returns (ok: bool)
      requires Inv(View())
      modifies this
      ensures View() == Next(old(View()), Event.Release) && Inv(View())
      ensures !ok <==> bound.Some? && old(value) >= bound.value
      ensures value == old(value) + (if ok then 1 else 0) && released == old(released) + (if ok then 1 else 0)
    {
      NextInv(View(), Event.Release);
      if bound.Some? && value >= bound.value { return false; }
      value := value + 1;
      released := released + 1;
      waiters := WakeUpNext(waiters);
      return true;
    }
  }
}

/** A deque of futures that calls wait on, as `Semaphore` and `Queue` keep them.

    Waking pops futures from the left until one is not done; cancelled futures may stay in
    the deque until then.  A call leaves `calls` when its task resumes. */
module Waiters {
  /** The state of a queued future together with its task's pending cancel request. */
  datatype Status =
    | Waiting         // future pending
    | Woken           // result set, task not resumed yet
    | WokenCancelled  // as Woken, and the task was cancelled before it resumed
    | Cancelled       // future cancelled, task not resumed yet

  datatype WaitList = WaitList(queue: seq<nat>, calls: map<nat, Status>, next: nat)

  const EMPTY := WaitList([], map[], 0)

  predicate CanResume(w: WaitList, id: nat) { id in w.calls && w.calls[id] != Waiting }

  function WaitingCalls(calls: map<nat, Status>): set<nat> {
    set id | id in calls && calls[id] == Waiting
  }

  /** Woken, cancelled since or not, and not resumed yet. */
  function WokenCalls(calls: map<nat, Status>): set<nat> {
    set id | id in calls && calls[id] in {Woken, WokenCancelled}
  }

  /** Drop done futures from the left until one can be woken. */
  function WakeNext(w: WaitList): WaitList
    decreases |w.queue|
  {
    if w.queue == [] then w
    else
      var id, rest := w.queue[0], w.(queue := w.queue[1..]);
      if id in WaitingCalls(w.calls) then rest.(calls := w.calls[id := Woken]) else WakeNext(rest)
  }

  /** A call creates a future and waits on it. */
  function Wait(w: WaitList): WaitList {
    WaitList(w.queue + [w.next], w.calls[w.next := Waiting], w.next + 1)
  }

  function Forget(w: WaitList, id: nat): WaitList { w.(calls := w.calls - {id}) }

  /** What `Task.cancel` does to the future a call is suspended on. */
  function CancelStatus(st: Status): Status {
    match st
    case Waiting => Cancelled
    case Woken => WokenCancelled
    case _ => st
  }

  function CancelCall(w: WaitList, id: nat): WaitList
    requires id in w.calls
  {
    w.(calls := w.calls[id := CancelStatus(w.calls[id])])
  }

  /** `deque.remove`, with its ValueError for an absent element ignored. */
  function Remove(q: seq<nat>, id: nat): (r: seq<nat>)
    ensures forall x :: x in r ==> x in q
    ensures forall x :: x in q && x != id ==> x in r
  {
    if q == [] then [] else if q[0] == id then q[1..] else [q[0]] + Remove(q[1..], id)
  }

  /** Calls are woken in the order they began to wait: the deque is in that order, and whoever
      still waits came after everyone woken. */
  predicate InTurn(w: WaitList) {
    && (forall i, j :: 0 <= i < j < |w.queue| ==> w.queue[i] < w.queue[j])
    && (forall i, j :: i in WokenCalls(w.calls) && j in WaitingCalls(w.calls) ==> i < j)
  }

  /** The deque holds every waiting future, in turn, and no woken one. */
  predicate Queued(w: WaitList) {
    && InTurn(w)
    && (forall i :: 0 <= i < |w.queue| ==> w.queue[i] < w.next && w.queue[i] !in WokenCalls(w.calls))
    && (forall id :: id in w.calls ==> id < w.next)
    && (forall id :: id in WaitingCalls(w.calls) ==> id in w.queue)
  }

  /** While anyone waits, at least `n` woken calls are still going to look for themselves. */
  predicate Covers(w: WaitList, n: int) {
    WaitingCalls(w.calls) != {} ==> |WokenCalls(w.calls)| >= n
  }

  /** Waking wakes exactly one call if any is waiting, so the cover grows by one. */
  lemma WakeNextCovers(w: WaitList, n: int)
    requires Queued(w) && Covers(w, n)
    ensures Queued(WakeNext(w)) && Covers(WakeNext(w), n + 1)
    ensures WakeNext(w).calls.Keys == w.calls.Keys
    decreases |w.queue|
  {
    if w.queue != [] {
      var id, rest := w.queue[0], w.(queue := w.queue[1..]);
      if id in WaitingCalls(w.calls) {
        var calls' := w.calls[id := Woken];
        assert WokenCalls(calls') == WokenCalls(w.calls) + {id};
        assert WaitingCalls(calls') == WaitingCalls(w.calls) - {id};
      } else {
        WakeNextCovers(rest, n);
      }
    }
  }

  /** Waking wakes the call that has waited longest, and changes no other. */
  lemma {:induction false} WakesEarliest(w: WaitList)
    requires Queued(w)
    ensures WaitingCalls(w.calls) == {} ==> WakeNext(w) == w.(queue := [])
    ensures WaitingCalls(w.calls) != {} ==>
              exists id :: id in WaitingCalls(w.calls) && (forall j :: j in WaitingCalls(w.calls) ==> id <= j)
                           && WakeNext(w).calls == w.calls[id := Woken]
    ensures WakeNext(w).next == w.next
    decreases |w.queue|
  {
    if w.queue != [] {
      var id, rest := w.queue[0], w.(queue := w.queue[1..]);
      if id in WaitingCalls(w.calls) {
        forall j | j in WaitingCalls(w.calls) ensures id <= j {
          var i :| 0 <= i < |w.queue| && w.queue[i] == j;
        }
      } else {
        assert Queued(rest);
        WakesEarliest(rest);
      }
    }
  }

  lemma WakeNextKeys(w: WaitList)
    ensures WakeNext(w).calls.Keys == w.calls.Keys && WakeNext(w).next == w.next
    decreases |w.queue|
  {
  }

  lemma WaitCovers(w: WaitList, n: int)
    requires Queued(w) && |WokenCalls(w.calls)| >= n
    ensures Queued(Wait(w)) && Covers(Wait(w), n)
  {
    assert WokenCalls(Wait(w).calls) == WokenCalls(w.calls);
    assert WaitingCalls(Wait(w).calls) == WaitingCalls(w.calls) + {w.next};
  }

  /** A resumed call no longer counts; resuming a cancelled wait costs no cover. */
  lemma ForgetCovers(w: WaitList, id: nat, n: int)
    requires Queued(w) && Covers(w, n) && CanResume(w, id)
    ensures Queued(Forget(w, id))
    ensures Covers(Forget(w, id), if w.calls[id] == Cancelled then n else n - 1)
  {
    assert WokenCalls(w.calls - {id}) == WokenCalls(w.calls) - {id};
    assert WaitingCalls(w.calls - {id}) == WaitingCalls(w.calls);
  }

  lemma CancelSets(w: WaitList, id: nat)
    requires id in w.calls
    ensures WokenCalls(CancelCall(w, id).calls) == WokenCalls(w.calls)
    ensures WaitingCalls(CancelCall(w, id).calls) == WaitingCalls(w.calls) - {id}
  {
  }

  lemma CancelCovers(w: WaitList, id: nat, n: int)
    requires Queued(w) && Covers(w, n) && id in w.calls
    ensures Queued(CancelCall(w, id)) && Covers(CancelCall(w, id), n)
  {
    CancelSets(w, id);
    hide WokenCalls, WaitingCalls;
  }

  lemma {:induction false} RemoveOrdered(q: seq<nat>, id: nat)
    requires forall i, j :: 0 <= i < j < |q| ==> q[i] < q[j]
    ensures forall i, j :: 0 <= i < j < |Remove(q, id)| ==> Remove(q, id)[i] < Remove(q, id)[j]
  {
    if q != [] && q[0] != id {
      RemoveOrdered(q[1..], id);
      var r := Remove(q[1..], id);
      forall j | 0 <= j < |r| ensures q[0] < r[j] {
        assert r[j] in q[1..];
      }
      assert Remove(q, id) == [q[0]] + r;
    } else if q != [] {
      assert Remove(q, id) == q[1..];
    }
  }

  lemma RemoveCovers(w: WaitList, id: nat, n: int)
    requires Queued(w) && Covers(w, n) && id !in w.calls
    ensures Queued(w.(queue := Remove(w.queue, id))) && Covers(w.(queue := Remove(w.queue, id)), n)
  {
    RemoveOrdered(w.queue, id);
    var q := Remove(w.queue, id);
    forall i | 0 <= i < |q| ensures q[i] < w.next && q[i] !in WokenCalls(w.calls) { assert q[i] in w.queue; }
  }

  /** `_wake_up_next` and `_wakeup_next`: the loop that pops and wakes. */
  method WakeUpNext(w: WaitList) returns (r: WaitList)
    ensures r == WakeNext(w)
  {
    r := w;
    while r.queue != []
      invariant WakeNext(r) == WakeNext(w)
      decreases |r.queue|
    {
      var waiter := r.queue[0];
      r := r.(queue := r.queue[1..]);
      if waiter in r.calls && r.calls[waiter] == Waiting {
        r := r.(calls := r.calls[waiter := Woken]);
        return;
      }
    }
  }
}

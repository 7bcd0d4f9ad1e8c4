/** Timers of the event loop: `call_at`, `TimerHandle.cancel`, and the part of `_run_once` that
    drops cancelled timers lazily, moves due ones to the ready queue and runs them.

    `Step` relates the states before and after one operation; the class performs the operations
    on a heap and is proved to take only such steps. */
module Timers {
  import opened Common
  import opened Heapq

  datatype Timer = Timer(id: nat, when: real)

  const MIN_SCHEDULED := 100

  /** `heap` is `_scheduled` as a set, `count` is `_timer_cancelled_count`, `cancelled` the ids of
      cancelled handles.  `created`, `dropped`, `moved`, `ran` and `skipped` record the history:
      all timers, those lazily deleted, those moved to `_ready` in order, those called in order,
      and those popped from `_ready` after being cancelled. */
  datatype State = State(heap: set<Timer>, count: int, cancelled: set<nat>, ready: seq<Timer>, next: nat,
                         created: set<Timer>, dropped: set<Timer>, moved: seq<Timer>,
                         ran: seq<Timer>, skipped: set<Timer>)

  const INITIAL := State({}, 0, {}, [], 0, {}, {}, [], [], {})

  datatype Event = CallAt(when: real) | Cancel(id: nat) | DropCancelled | MoveDue(end: real) | RunNext

  function CancelledIn(heap: set<Timer>, cancelled: set<nat>): set<Timer> {
    set t | t in heap && t.id in cancelled
  }

  function Elems(ts: seq<Timer>): set<Timer> { set t | t in ts }

  predicate Distinct(ts: seq<Timer>) { forall i, j :: 0 <= i < j < |ts| ==> ts[i] != ts[j] }

  predicate InOrder(ts: seq<Timer>) { forall i, j :: 0 <= i < j < |ts| ==> ts[i].when <= ts[j].when }

  /** `out` is what lazy deletion took out: only cancelled timers, each counted off, or all of
      them with the count reset. */
  predicate Drops(s: State, s': State, out: set<Timer>) {
    && out <= CancelledIn(s.heap, s.cancelled)
    && s' == s.(heap := s.heap - out, dropped := s.dropped + out, count := s'.count)
    && (s'.count == s.count - |out| || (s'.count == 0 && out == CancelledIn(s.heap, s.cancelled)))
  }

  /** `due` is what `_run_once` moved: exactly the timers before `end`, by `_when`. */
  predicate Moves(s: State, s': State, end: real, due: seq<Timer>) {
    && Elems(due) == (set t | t in s.heap && t.when < end) && Distinct(due) && InOrder(due)
    && s' == s.(heap := s.heap - Elems(due), ready := s.ready + due, moved := s.moved + due)
  }

  ghost predicate Step(s: State, e: Event, s': State) {
    match e
    case CallAt(when) =>
      var t := Timer(s.next, when);
      s' == s.(heap := s.heap + {t}, created := s.created + {t}, next := s.next + 1)
    case Cancel(id) =>
      id < s.next
      && s' == if id in s.cancelled then s
               else s.(cancelled := s.cancelled + {id},
                       count := if exists t :: t in s.heap && t.id == id then s.count + 1 else s.count)
    case DropCancelled => exists out :: Drops(s, s', out)
    case MoveDue(end) => exists due :: Moves(s, s', end, due)
    case RunNext =>
      s.ready != []
      && s' == var t := s.ready[0];
               if t.id in s.cancelled then s.(ready := s.ready[1..], skipped := s.skipped + {t})
               else s.(ready := s.ready[1..], ran := s.ran + [t])
  }

  // ---------------------------------------------------------------- invariant

  /** The timers ever created, each in one place only: heap, dropped, or moved once. */
  predicate Placed(created: set<Timer>, heap: set<Timer>, dropped: set<Timer>, moved: seq<Timer>) {
    && created == heap + dropped + Elems(moved)
    && heap !! dropped && heap !! Elems(moved) && dropped !! Elems(moved)
    && Distinct(moved)
  }

  /** The moved timers in order: first those called once or skipped, then those still ready. */
  predicate Processed(moved: seq<Timer>, ready: seq<Timer>, ran: seq<Timer>, skipped: set<Timer>) {
    && |ready| <= |moved| && ready == moved[|moved| - |ready|..]
    && Elems(moved[..|moved| - |ready|]) == Elems(ran) + skipped
    && Elems(ran) !! skipped && Distinct(ran)
  }

  predicate Accounted(s: State) {
    Placed(s.created, s.heap, s.dropped, s.moved) && Processed(s.moved, s.ready, s.ran, s.skipped)
  }

  /** Only cancelled timers are lost. */
  predicate OnlyCancelledLost(s: State) {
    && (forall t :: t in s.dropped ==> t.id in s.cancelled)
    && (forall t :: t in s.skipped ==> t.id in s.cancelled)
  }

  /** The counter that triggers compaction never undercounts. */
  predicate CountCovers(s: State) { s.count >= |CancelledIn(s.heap, s.cancelled)| }

  predicate Identified(s: State) {
    && (forall t :: t in s.created ==> t.id < s.next)
    && (forall t, u :: t in s.created && u in s.created && t.id == u.id ==> t == u)
    && (forall id :: id in s.cancelled ==> id < s.next)
  }

  predicate Inv(s: State) { Accounted(s) && OnlyCancelledLost(s) && CountCovers(s) && Identified(s) }

  lemma CallAtInv(s: State, when: real, s': State)
    requires Inv(s) && Step(s, CallAt(when), s')
    ensures Inv(s')
  {
    assert CancelledIn(s'.heap, s'.cancelled) == CancelledIn(s.heap, s.cancelled);
  }

  lemma CancelInv(s: State, id: nat, s': State)
    requires Inv(s) && Step(s, Cancel(id), s')
    ensures Inv(s')
  {
    var was, now := CancelledIn(s.heap, s.cancelled), CancelledIn(s'.heap, s'.cancelled);
    if t :| t in s.heap && t.id == id {
      assert now <= was + {t};
      assert |was + {t}| <= |was| + 1;
      SubsetSize(now, was + {t});
    } else {
      assert now == was;
    }
  }

  lemma DropCount(s: State, s': State, out: set<Timer>)
    requires CountCovers(s) && Drops(s, s', out)
    ensures CountCovers(s')
  {
    var was := CancelledIn(s.heap, s.cancelled);
    assert CancelledIn(s'.heap, s'.cancelled) == was - out;
    assert |was - out| == |was| - |out|;
  }

  lemma DropPlaced(created: set<Timer>, heap: set<Timer>, dropped: set<Timer>, moved: seq<Timer>, out: set<Timer>)
    requires Placed(created, heap, dropped, moved) && out <= heap
    ensures Placed(created, heap - out, dropped + out, moved)
  {
    assert (heap - out) + (dropped + out) == heap + dropped;
  }

  lemma DropLoses(s: State, s': State, out: set<Timer>)
    requires OnlyCancelledLost(s) && Drops(s, s', out)
    ensures OnlyCancelledLost(s')
  {
  }

  lemma CancelledSubset(heap: set<Timer>, cancelled: set<nat>)
    ensures CancelledIn(heap, cancelled) <= heap
  {
  }

  lemma DropInv(s: State, s': State, out: set<Timer>)
    requires Inv(s) && Drops(s, s', out)
    ensures Inv(s')
  {
    hide CountCovers, Processed, Placed, OnlyCancelledLost, CancelledIn;
    DropCount(s, s', out);
    CancelledSubset(s.heap, s.cancelled);
    DropPlaced(s.created, s.heap, s.dropped, s.moved, out);
    DropLoses(s, s', out);
  }

  lemma ElemsConcat(a: seq<Timer>, b: seq<Timer>)
    ensures Elems(a + b) == Elems(a) + Elems(b)
  {
  }

  lemma MoveInv(s: State, s': State, end: real, due: seq<Timer>)
    requires Inv(s) && Moves(s, s', end, due)
    ensures Inv(s')
  {
    ElemsConcat(s.moved, due);
    assert Distinct(s.moved + due) by {
      forall i, j | 0 <= i < j < |s.moved + due| ensures (s.moved + due)[i] != (s.moved + due)[j] {
        if i < |s.moved| <= j {
          assert s.moved[i] in Elems(s.moved) && due[j - |s.moved|] in Elems(due);
        }
      }
    }
    var p := |s.moved| - |s.ready|;
    assert s'.moved[..p] == s.moved[..p];
    assert s'.moved[p..] == s.moved[p..] + due;
    SubsetSize(CancelledIn(s'.heap, s'.cancelled), CancelledIn(s.heap, s.cancelled));
  }

  lemma RunInvStep(s: State, s': State)
    requires Inv(s) && Step(s, RunNext, s')
    ensures Inv(s')
  {
    var p := |s.moved| - |s.ready|;
    var t := s.ready[0];
    assert t == s.moved[p];
    assert s.moved[..p + 1] == s.moved[..p] + [t];
    ElemsConcat(s.moved[..p], [t]);
    ElemsConcat(s.ran, [t]);
    assert t !in Elems(s.moved[..p]);
    assert s.ready[1..] == s.moved[p + 1..];
    assert CancelledIn(s'.heap, s'.cancelled) == CancelledIn(s.heap, s.cancelled);
  }

  lemma StepInv(s: State, e: Event, s': State)
    requires Inv(s) && Step(s, e, s')
    ensures Inv(s')
  {
    match e
    case CallAt(when) => CallAtInv(s, when, s');
    case Cancel(id) => CancelInv(s, id, s');
    case DropCancelled => var out :| Drops(s, s', out); DropInv(s, s', out);
    case MoveDue(end) => var due :| Moves(s, s', end, due); MoveInv(s, s', end, due);
    case RunNext => RunInvStep(s, s');
  }

  lemma InitialInv()
    ensures Inv(INITIAL)
  {
    assert CancelledIn({}, {}) == {};
  }

  ghost predicate IsRun(ss: seq<State>, es: seq<Event>) {
    && |ss| == |es| + 1 && ss[0] == INITIAL
    && forall i :: 0 <= i < |es| ==> Step(ss[i], es[i], ss[i + 1])
  }

  /** In every reachable state each timer is accounted for, only cancelled ones are lost, and the
      cancellation count covers the cancelled timers in the heap. */
  lemma {:induction false} RunInv(ss: seq<State>, es: seq<Event>, n: nat)
    requires IsRun(ss, es) && n <= |es|
    ensures Accounted(ss[n]) && OnlyCancelledLost(ss[n]) && CountCovers(ss[n])
    ensures Inv(ss[n])
  {
    if n == 0 {
      InitialInv();
    } else {
      hide Step, Accounted, OnlyCancelledLost, CountCovers, Identified;
      RunInv(ss, es, n - 1);
      StepInv(ss[n - 1], es[n - 1], ss[n]);
    }
  }

  /** A timer that was not cancelled and whose time has come is moved by the next pass, and what
      that pass leaves behind is not due. */
  lemma DueTimersMove(ss: seq<State>, es: seq<Event>, n: nat, t: Timer)
    requires IsRun(ss, es) && n < |es| && es[n].MoveDue?
    requires t in ss[n].created && t.id !in ss[n].cancelled && t.when < es[n].end
    ensures t in Elems(ss[n + 1].moved)
    ensures forall u :: u in ss[n + 1].heap ==> u.when >= es[n].end
  {
    RunInv(ss, es, n);
    assert Step(ss[n], es[n], ss[n + 1]);
    var due :| Moves(ss[n], ss[n + 1], es[n].end, due);
    ElemsConcat(ss[n].moved, due);
  }

  // ---------------------------------------------------------------- history

  lemma HistoryStep(s: State, e: Event, s': State)
    requires Step(s, e, s')
    ensures s'.created == s.created + (if e.CallAt? then {Timer(s.next, e.when)} else {})
    ensures s'.next == s.next + (if e.CallAt? then 1 else 0)
    ensures s'.cancelled == s.cancelled + (if e.Cancel? then {e.id} else {})
    ensures e.RunNext? ==> s.ready != []
    ensures s'.ran == s.ran + (if e.RunNext? && s.ready[0].id !in s.cancelled then [s.ready[0]] else [])
    ensures forall t :: t in s'.moved && t !in s.moved ==> e.MoveDue? && t in s.heap && t.when < e.end
  {
    if e.MoveDue? {
      var due :| Moves(s, s', e.end, due);
      forall t | t in s'.moved && t !in s.moved ensures t in s.heap && t.when < e.end { assert t in Elems(due); }
    }
  }

  /** Timers are those scheduled, each under its own number. */
  lemma {:induction false} CreatedByEvents(ss: seq<State>, es: seq<Event>, n: nat, t: Timer)
    requires IsRun(ss, es) && n <= |es|
    ensures t in ss[n].created <==> exists i :: 0 <= i < n && es[i] == CallAt(t.when) && ss[i].next == t.id
  {
    hide Step;
    if n > 0 {
      CreatedByEvents(ss, es, n - 1, t);
      HistoryStep(ss[n - 1], es[n - 1], ss[n]);
    }
  }

  /** Cancelled are those that a `cancel` named. */
  lemma {:induction false} CancelledByEvents(ss: seq<State>, es: seq<Event>, n: nat, id: nat)
    requires IsRun(ss, es) && n <= |es|
    ensures id in ss[n].cancelled <==> Cancel(id) in es[..n]
  {
    hide Step;
    if n > 0 {
      CancelledByEvents(ss, es, n - 1, id);
      HistoryStep(ss[n - 1], es[n - 1], ss[n]);
      assert es[..n] == es[..n - 1] + [es[n - 1]];
    }
  }

  /** A timer reaches the ready queue only in a pass whose end time is past its own. */
  lemma {:induction false} MovedWasDue(ss: seq<State>, es: seq<Event>, n: nat, t: Timer) returns (j: nat)
    requires IsRun(ss, es) && n <= |es| && t in ss[n].moved
    ensures j < n && es[j].MoveDue? && t.when < es[j].end && t in ss[j].heap
  {
    hide Step;
    if n > 0 && t in ss[n - 1].moved {
      j := MovedWasDue(ss, es, n - 1, t);
    } else if n > 0 {
      HistoryStep(ss[n - 1], es[n - 1], ss[n]);
      j := n - 1;
    }
  }

  lemma {:induction false} RanAt(ss: seq<State>, es: seq<Event>, n: nat, t: Timer) returns (k: nat)
    requires IsRun(ss, es) && n <= |es| && t in ss[n].ran
    ensures k < n && es[k] == RunNext && ss[k].ready != [] && ss[k].ready[0] == t && t.id !in ss[k].cancelled
  {
    hide Step;
    if n > 0 && t in ss[n - 1].ran {
      k := RanAt(ss, es, n - 1, t);
    } else if n > 0 {
      HistoryStep(ss[n - 1], es[n - 1], ss[n]);
      k := n - 1;
    }
  }

  /** A timer that was called had been scheduled for its time, was then moved by a pass that ended
      after that time, and was called before any cancel of it. */
  lemma RanWasDue(ss: seq<State>, es: seq<Event>, n: nat, t: Timer) returns (i: nat, j: nat, k: nat)
    requires IsRun(ss, es) && n <= |es| && t in ss[n].ran
    ensures i < j < k < n && es[k] == RunNext && ss[k].ready != [] && ss[k].ready[0] == t
    ensures es[i] == CallAt(t.when) && ss[i].next == t.id && es[j].MoveDue? && t.when < es[j].end
    ensures Cancel(t.id) !in es[..k]
  {
    hide Step;
    k := RanAt(ss, es, n, t);
    CancelledByEvents(ss, es, k, t.id);
    RunInv(ss, es, k);
    j := MovedWasDue(ss, es, k, t);
    RunInv(ss, es, j);
    CreatedByEvents(ss, es, j, t);
    i :| 0 <= i < j && es[i] == CallAt(t.when) && ss[i].next == t.id;
  }

  // ---------------------------------------------------------------- order across passes

  /** No timer that came to be moved was scheduled for a time before one moved already. */
  ghost predicate NotBackdated(ss: seq<State>, es: seq<Event>, n: nat)
    requires IsRun(ss, es) && n <= |es|
  {
    forall j, u :: 0 <= j < n && es[j].CallAt? && Timer(ss[j].next, es[j].when) in ss[n].moved && u in ss[j].moved
                   ==> u.when <= es[j].when
  }

  lemma MovedStep(s: State, e: Event, s': State)
    requires Step(s, e, s')
    ensures s.moved <= s'.moved && (!e.MoveDue? ==> s'.moved == s.moved)
  {
  }

  lemma {:induction false} MovedGrows(ss: seq<State>, es: seq<Event>, m: nat, n: nat)
    requires IsRun(ss, es) && m <= n <= |es|
    ensures ss[m].moved <= ss[n].moved
  {
    if m < n {
      hide Step;
      MovedGrows(ss, es, m, n - 1);
      MovedStep(ss[n - 1], es[n - 1], ss[n]);
    }
  }

  /** A timer still in the heap is not earlier than a moved one, unless scheduled after it moved. */
  lemma {:induction false} WaitingIsLater(ss: seq<State>, es: seq<Event>, n: nat, t: Timer, u: Timer)
    requires IsRun(ss, es) && n <= |es| && t in ss[n].heap && u in ss[n].moved
    ensures u.when <= t.when
            || exists j :: 0 <= j < n && es[j].CallAt? && t == Timer(ss[j].next, es[j].when) && u in ss[j].moved
  {
    var s, e := ss[n - 1], es[n - 1];
    assert Step(s, e, ss[n]);
    if t in s.heap && u in s.moved {
      WaitingIsLater(ss, es, n - 1, t, u);
    } else if t in s.heap {
      var due :| Moves(s, ss[n], e.end, due);
      assert u in Elems(due) && t !in Elems(due);
    }
  }

  lemma DueAreLater(ss: seq<State>, es: seq<Event>, n: nat)
    requires IsRun(ss, es) && n < |es| && es[n].MoveDue?
    requires NotBackdated(ss, es, n + 1) && InOrder(ss[n].moved)
    ensures InOrder(ss[n + 1].moved)
  {
    assert Step(ss[n], es[n], ss[n + 1]);
    var due: seq<Timer> :| Moves(ss[n], ss[n + 1], es[n].end, due);
    forall i, j | 0 <= i < |ss[n].moved| && 0 <= j < |due| ensures ss[n].moved[i].when <= due[j].when {
      var u, t := ss[n].moved[i], due[j];
      assert t in Elems(due);
      WaitingIsLater(ss, es, n, t, u);
    }
  }

  lemma {:induction false} OrderedRun(ss: seq<State>, es: seq<Event>, n: nat)
    requires IsRun(ss, es) && n <= |es| && NotBackdated(ss, es, n)
    ensures InOrder(ss[n].moved)
  {
    if n > 0 {
      MovedStep(ss[n - 1], es[n - 1], ss[n]);
      assert NotBackdated(ss, es, n - 1);
      OrderedRun(ss, es, n - 1);
      hide Step, NotBackdated;
      if es[n - 1].MoveDue? { DueAreLater(ss, es, n - 1); }
    }
  }

  lemma LaterIndex(ss: seq<State>, es: seq<Event>, j: nat, n: nat, u: Timer)
    requires IsRun(ss, es) && j < n <= |es| && InOrder(ss[n].moved)
    requires es[j].CallAt? && Timer(ss[j].next, es[j].when) in ss[n].moved && u in ss[j].moved
    ensures u.when <= es[j].when
  {
    var t := Timer(ss[j].next, es[j].when);
    hide Step;
    MovedGrows(ss, es, j, n);
    RunInv(ss, es, j);
    var a :| 0 <= a < |ss[j].moved| && ss[j].moved[a] == u;
    var b :| 0 <= b < |ss[n].moved| && ss[n].moved[b] == t;
    assert t !in Elems(ss[j].moved);
    assert b >= |ss[j].moved|;
  }

  /** Across any number of passes the timers leave in nondecreasing order of `_when`, if and only
      if none of them was scheduled for a time before a timer that had left already. */
  lemma {:induction false} MovedInOrderIff(ss: seq<State>, es: seq<Event>, n: nat)
    requires IsRun(ss, es) && n <= |es|
    ensures InOrder(ss[n].moved) <==> NotBackdated(ss, es, n)
  {
    if NotBackdated(ss, es, n) { OrderedRun(ss, es, n); }
    if InOrder(ss[n].moved) {
      forall j, u | 0 <= j < n && es[j].CallAt? && Timer(ss[j].next, es[j].when) in ss[n].moved && u in ss[j].moved
        ensures u.when <= es[j].when
      {
        LaterIndex(ss, es, j, n, u);
      }
    }
  }

  lemma NotInOrder(ts: seq<Timer>)
    requires |ts| == 2 && ts[0].when > ts[1].when
    ensures !InOrder(ts)
  {
  }

  lemma OnlyOneMoves(s: State, s': State, t: Timer, end: real)
    requires s.heap == {t} && t.when < end
    requires s' == s.(heap := {}, ready := s.ready + [t], moved := s.moved + [t])
    ensures Moves(s, s', end, [t])
  {
    assert Elems([t]) == {t};
  }

  /** The condition can fail: a timer scheduled for the past leaves after a later one. */
  lemma BackdatedExample()
    ensures exists ss: seq<State>, es: seq<Event> :: IsRun(ss, es) && !InOrder(ss[|es|].moved)
  {
    var t, u := Timer(0, 5.0), Timer(1, 1.0);
    var s1 := INITIAL.(heap := {t}, created := {t}, next := 1);
    var s2 := s1.(heap := {}, ready := s1.ready + [t], moved := s1.moved + [t]);
    var s3 := s2.(heap := {u}, created := {t, u}, next := 2);
    var s4 := s3.(heap := {}, ready := s3.ready + [u], moved := s3.moved + [u]);
    OnlyOneMoves(s1, s2, t, 6.0);
    OnlyOneMoves(s3, s4, u, 6.0);
    assert s4.moved == [t, u];
    hide Moves, InOrder;
    var ss, es := [INITIAL, s1, s2, s3, s4], [CallAt(5.0), MoveDue(6.0), CallAt(1.0), MoveDue(6.0)];
    assert IsRun(ss, es);
    NotInOrder([t, u]);
  }

  // ---------------------------------------------------------------- the class

  /** `TimerHandle.__lt__`. */
  function Earlier(): (Timer, Timer) -> bool { (a: Timer, b: Timer) => a.when < b.when }

  lemma EarlierOrder()
    ensures WeakOrder(Earlier())
  {
  }

  function Keep(ts: seq<Timer>, cancelled: set<nat>): seq<Timer> {
    if ts == [] then []
    else
      var n := |ts| - 1;
      Keep(ts[..n], cancelled) + (if ts[n].id in cancelled then [] else [ts[n]])
  }

  lemma AppendedCount(ts: seq<Timer>, u: Timer, t: Timer)
    ensures multiset(ts + [u])[t] == multiset(ts)[t] + (if u == t then 1 else 0)
  {
  }

  lemma {:induction false} KeepCounts(ts: seq<Timer>, cancelled: set<nat>, t: Timer)
    ensures multiset(Keep(ts, cancelled))[t] == if t.id in cancelled then 0 else multiset(ts)[t]
  {
    if ts != [] {
      var n := |ts| - 1;
      var rest, u := ts[..n], ts[n];
      KeepCounts(rest, cancelled, t);
      assert ts == rest + [u];
      AppendedCount(rest, u, t);
      if u.id in cancelled {
        assert Keep(ts, cancelled) == Keep(rest, cancelled);
      } else {
        AppendedCount(Keep(rest, cancelled), u, t);
      }
    }
  }

  lemma KeepIsRest(ts: seq<Timer>, heap: set<Timer>, cancelled: set<nat>)
    requires multiset(ts) == multiset(heap)
    ensures multiset(Keep(ts, cancelled)) == multiset(heap - CancelledIn(heap, cancelled))
  {
    forall t ensures multiset(Keep(ts, cancelled))[t] == multiset(heap - CancelledIn(heap, cancelled))[t] {
      KeepCounts(ts, cancelled, t);
      assert multiset(ts)[t] == multiset(heap)[t];
    }
  }

  function Ids(heap: set<Timer>): set<nat> { set t | t in heap :: t.id }

  predicate UniqueIds(heap: set<Timer>) { forall t, u :: t in heap && u in heap && t.id == u.id ==> t == u }

  /** The list is a heap of exactly the timers in `heap`, whose ids are the flagged ones. */
  ghost predicate Mirrors(xs: seq<Timer>, heap: set<Timer>, flagged: set<nat>) {
    multiset(xs) == multiset(heap) && IsHeap(xs, Earlier()) && flagged == Ids(heap) && UniqueIds(heap)
  }

  lemma HeapIds(s: State)
    requires Inv(s)
    ensures UniqueIds(s.heap) && forall t :: t in s.heap ==> t.id < s.next
    ensures forall t :: t in s.created ==> t.id < s.next
  {
  }

  lemma IdsRemove(heap: set<Timer>, t: Timer)
    requires UniqueIds(heap) && t in heap
    ensures Ids(heap - {t}) == Ids(heap) - {t.id} && UniqueIds(heap - {t})
  {
    forall id | id in Ids(heap) && id != t.id ensures id in Ids(heap - {t}) {
      var u :| u in heap && u.id == id;
      assert u in heap - {t};
    }
  }

  lemma IdsAdd(heap: set<Timer>, t: Timer)
    requires UniqueIds(heap) && forall u :: u in heap ==> u.id < t.id
    ensures Ids(heap + {t}) == Ids(heap) + {t.id} && UniqueIds(heap + {t}) && t !in heap
  {
    forall id | id in Ids(heap) ensures id in Ids(heap + {t}) {
      var u :| u in heap && u.id == id;
      assert u in heap + {t};
    }
    assert t in heap + {t};
  }

  lemma NoneDue(xs: seq<Timer>, heap: set<Timer>, flagged: set<nat>, end: real)
    requires Mirrors(xs, heap, flagged) && (xs == [] || xs[0].when >= end)
    ensures forall t :: t in heap ==> t.when >= end
  {
    EarlierOrder();
    forall t | t in heap ensures t.when >= end {
      assert t in multiset(xs);
      var i :| 0 <= i < |xs| && xs[i] == t;
      RootIsLeast(xs, Earlier(), i);
    }
  }

  lemma RestNotCancelled(heap: set<Timer>, cancelled: set<nat>)
    ensures forall t :: t in heap - CancelledIn(heap, cancelled) ==> t.id !in cancelled
  {
  }

  lemma HeadInHeap(xs: seq<Timer>, heap: set<Timer>, flagged: set<nat>)
    requires Mirrors(xs, heap, flagged)
    ensures xs != [] ==> xs[0] in heap
  {
    if xs != [] { assert xs[0] in multiset(xs); }
  }

  lemma EmptyMirrors()
    ensures Mirrors([], {}, {})
  {
    assert Ids({}) == {};
  }

  lemma TrimStep(heap: set<Timer>, dropped: set<Timer>, cancelled: set<nat>, out: set<Timer>, t: Timer)
    requires out <= CancelledIn(heap, cancelled) && t in heap - out && t.id in cancelled
    ensures out + {t} <= CancelledIn(heap, cancelled) && |out + {t}| == |out| + 1
    ensures heap - out - {t} == heap - (out + {t}) && dropped + out + {t} == dropped + (out + {t})
  {
  }

  lemma KeptIds(kept: seq<Timer>, heap: set<Timer>)
    requires multiset(kept) == multiset(heap)
    ensures (set t | t in kept :: t.id) == Ids(heap)
  {
    forall t ensures t in kept <==> t in heap { assert t in kept <==> t in multiset(kept); }
  }

  /** One more timer, no earlier than those before it, taken out of the heap. */
  lemma DueNext(heap: set<Timer>, due: seq<Timer>, t: Timer, ready: seq<Timer>, moved: seq<Timer>)
    requires Elems(due) <= heap && Distinct(due) && InOrder(due) && t in heap - Elems(due)
    requires forall u :: u in due ==> u.when <= t.when
    ensures Elems(due + [t]) <= heap && Distinct(due + [t]) && InOrder(due + [t])
    ensures heap - Elems(due) - {t} == heap - Elems(due + [t])
    ensures ready + due + [t] == ready + (due + [t]) && moved + due + [t] == moved + (due + [t])
  {
    ElemsConcat(due, [t]);
    assert t !in Elems(due);
  }

  class TimerLoop {
    var scheduled: List<Timer>
    var count: int
    var cancelled: set<nat>
    var flagged: set<nat>  // ids of handles whose _scheduled is True
    var ready: seq<Timer>
    var next: nat
    ghost var heap: set<Timer>
    ghost var created: set<Timer>
    ghost var dropped: set<Timer>
    ghost var moved: seq<Timer>
    ghost var ran: seq<Timer>
    ghost var skipped: set<Timer>

    ghost function View(): State
      reads this
    {
      State(heap, count, cancelled, ready, next, created, dropped, moved, ran, skipped)
    }

    ghost predicate Valid()
      reads this, scheduled
    {
      Mirrors(scheduled.xs, heap, flagged) && Inv(View())
    }

    constructor ()
      ensures Valid() && View() == INITIAL && fresh(scheduled)
    {
      scheduled := new List([]);
      count, cancelled, flagged, ready, next := 0, {}, {}, [], 0;
      heap, created, dropped, moved, ran, skipped := {}, {}, {}, [], [], {};
      new;
      InitialInv();
      EmptyMirrors();
      hide Mirrors, Inv;
    }

    /** `heappush` of the schedule, with the handle's `_scheduled` flag set. */
    method PushTimer(t: Timer)
      requires Mirrors(scheduled.xs, heap, flagged) && forall u :: u in heap ==> u.id < t.id
      modifies this`flagged, this`heap, scheduled
      ensures Mirrors(scheduled.xs, heap, flagged) && heap == old(heap) + {t}
    {
      EarlierOrder();
      IdsAdd(heap, t);
      hide Ids, UniqueIds;
      Heappush(scheduled, Earlier(), t);
      flagged := flagged + {t.id};
      heap := heap + {t};
    }

    method NewTimer(when: real) returns (t: Timer)
      requires Valid()
      modifies this, scheduled
      ensures scheduled == old(scheduled) && Mirrors(scheduled.xs, heap, flagged)
      ensures t == Timer(old(next), when)
      ensures View() == old(View()).(heap := old(heap) + {t}, created := old(created) + {t}, next := old(next) + 1)
    {
      hide Mirrors, Inv, UniqueIds;
      HeapIds(View());
      t := Timer(next, when);
      PushTimer(t);
      next, created := next + 1, created + {t};
    }

    method CallAt(when: real) returns (t: Timer)
      requires Valid()
      modifies this, scheduled
      ensures Valid() && scheduled == old(scheduled)
      ensures Step(old(View()), Event.CallAt(when), View()) && t == Timer(old(next), when)
      ensures t in heap && t !in old(created) && created == old(created) + {t}
    {
      hide Mirrors, Accounted, OnlyCancelledLost, CountCovers, Identified;
      HeapIds(View());
      t := NewTimer(when);
      StepInv(old(View()), Event.CallAt(when), View());
    }

    /** `TimerHandle.cancel` with `_timer_handle_cancelled`. */
    method CancelTimer(id: nat)
      requires Valid() && id < next
      modifies this
      ensures Valid() && scheduled == old(scheduled)
      ensures Step(old(View()), Cancel(id), View())
    {
      hide Accounted, OnlyCancelledLost, CountCovers, Identified, IsHeap, UniqueIds;
      if id !in cancelled {
        assert id in flagged <==> exists t :: t in heap && t.id == id;
        if id in flagged { count := count + 1; }
        cancelled := cancelled + {id};
      }
      StepInv(old(View()), Cancel(id), View());
    }

    /** `heappop` of the schedule, with the handle's `_scheduled` flag cleared. */
    method PopTimer() returns (t: Timer)
      requires Mirrors(scheduled.xs, heap, flagged) && scheduled.xs != []
      modifies this`flagged, this`heap, scheduled
      ensures Mirrors(scheduled.xs, heap, flagged) && |scheduled.xs| < old(|scheduled.xs|)
      ensures t == old(scheduled.xs)[0] && t in old(heap) && heap == old(heap) - {t}
      ensures forall u :: u in heap ==> t.when <= u.when
    {
      EarlierOrder();
      ghost var was := scheduled.xs;
      var r := Heappop(scheduled, Earlier());
      t := r.value;
      assert t in multiset(was);
      forall u | u in heap ensures t.when <= u.when {
        assert u in multiset(was);
        var i :| 0 <= i < |was| && was[i] == u;
        assert !Earlier()(was[i], t);
      }
      IdsRemove(heap, t);
      flagged := flagged - {t.id};
      heap := heap - {t};
      assert multiset(scheduled.xs) == (multiset(scheduled.xs) + multiset{t}) - multiset{t};
      assert multiset(scheduled.xs) == multiset(heap);
    }

    method Filter() returns (kept: seq<Timer>, flags: set<nat>)
      ensures kept == Keep(scheduled.xs, cancelled) && flags == (set t | t in kept :: t.id)
    {
      kept, flags := [], {};
      for i := 0 to |scheduled.xs|
        invariant kept == Keep(scheduled.xs[..i], cancelled)
        invariant flags == set t | t in kept :: t.id
      {
        assert scheduled.xs[..i + 1][..i] == scheduled.xs[..i];
        if scheduled.xs[i].id !in cancelled {
          kept := kept + [scheduled.xs[i]];
          flags := flags + {scheduled.xs[i].id};
        }
      }
      assert scheduled.xs[..|scheduled.xs|] == scheduled.xs;
    }

    method HeapOfRest() returns (newScheduled: List<Timer>, flags: set<nat>)
      requires Mirrors(scheduled.xs, heap, flagged)
      ensures fresh(newScheduled) && Mirrors(newScheduled.xs, heap - CancelledIn(heap, cancelled), flags)
    {
      var kept;
      kept, flags := Filter();
      ghost var rest := heap - CancelledIn(heap, cancelled);
      KeepIsRest(scheduled.xs, heap, cancelled);
      KeptIds(kept, rest);
      assert UniqueIds(rest);
      EarlierOrder();
      hide UniqueIds, Keep, CancelledIn, WeakOrder, IsHeap, Earlier, Ids;
      newScheduled := new List(kept);
      Heapify(newScheduled, Earlier());
    }

    /** The compaction loop and `heapify`. */
    method Rebuild() returns (ghost out: set<Timer>)
      requires Mirrors(scheduled.xs, heap, flagged)
      modifies this
      ensures fresh(scheduled) && Mirrors(scheduled.xs, heap, flagged) && Drops(old(View()), View(), out)
      ensures count == 0 && (forall t :: t in heap ==> t.id !in cancelled)
      ensures scheduled.xs != [] ==> scheduled.xs[0].id !in cancelled
    {
      RestNotCancelled(heap, cancelled);
      out := CancelledIn(heap, cancelled);
      hide Mirrors, CancelledIn;
      var newScheduled, flags := HeapOfRest();
      scheduled, count, flagged := newScheduled, 0, flags;
      heap, dropped := heap - out, dropped + out;
      HeadInHeap(scheduled.xs, heap, flagged);
    }

    /** Pop one cancelled timer off the head; `out` went before it, from the state `was`. */
    method TrimOne(ghost was: State, ghost out: set<Timer>) returns (ghost out': set<Timer>)
      requires Mirrors(scheduled.xs, heap, flagged) && scheduled.xs != [] && scheduled.xs[0].id in cancelled
      requires cancelled == was.cancelled && out <= CancelledIn(was.heap, cancelled)
      requires View() == was.(heap := was.heap - out, dropped := was.dropped + out, count := was.count - |out|)
      modifies this`flagged, this`heap, this`count, this`dropped, scheduled
      ensures Mirrors(scheduled.xs, heap, flagged) && |scheduled.xs| < old(|scheduled.xs|)
      ensures out' <= CancelledIn(was.heap, cancelled)
      ensures View() == was.(heap := was.heap - out', dropped := was.dropped + out', count := was.count - |out'|)
    {
      hide Mirrors, CancelledIn;
      count := count - 1;
      var t := PopTimer();
      TrimStep(was.heap, was.dropped, cancelled, out, t);
      out' := out + {t};
      dropped := dropped + {t};
    }

    /** Pop cancelled timers off the head, counting each off. */
    method TrimHead() returns (ghost out: set<Timer>)
      requires Mirrors(scheduled.xs, heap, flagged)
      modifies this, scheduled
      ensures scheduled == old(scheduled) && Mirrors(scheduled.xs, heap, flagged)
      ensures Drops(old(View()), View(), out)
      ensures scheduled.xs != [] ==> scheduled.xs[0].id !in cancelled
    {
      hide Mirrors, CancelledIn;
      out := {};
      while scheduled.xs != [] && scheduled.xs[0].id in cancelled
        invariant scheduled == old(scheduled) && Mirrors(scheduled.xs, heap, flagged)
        invariant out <= CancelledIn(old(heap), cancelled)
        invariant View() == old(View()).(heap := old(heap) - out, dropped := old(dropped) + out,
                                         count := old(count) - |out|)
        decreases |scheduled.xs|
      {
        out := TrimOne(old(View()), out);
      }
    }

    /** Lazy deletion: rebuild the heap when most of it is cancelled, else trim its head. */
    method DropCancelled()
      requires Valid()
      modifies this, scheduled
      ensures Valid() && (scheduled == old(scheduled) || fresh(scheduled))
      ensures Step(old(View()), Event.DropCancelled, View())
      // no cancelled timer is left at the head, and none at all when most of many were cancelled
      ensures scheduled.xs != [] ==> scheduled.xs[0].id !in cancelled
      ensures var before := old(|scheduled.xs|);
              before > 100 && 2 * old(count) > before ==> count == 0 && forall t :: t in heap ==> t.id !in cancelled
    {
      hide Mirrors, Accounted, OnlyCancelledLost, CountCovers, Identified;
      ghost var out := {};
      if |scheduled.xs| > MIN_SCHEDULED && 2 * count > |scheduled.xs| {
        out := Rebuild();
      } else {
        out := TrimHead();
      }
      assert Drops(old(View()), View(), out);
      StepInv(old(View()), Event.DropCancelled, View());
    }

    /** Move every timer due before `end` to the ready queue, earliest first. */
    method MoveDue(end: real)
      requires Valid()
      modifies this, scheduled
      ensures Valid() && scheduled == old(scheduled)
      ensures Step(old(View()), Event.MoveDue(end), View())
      ensures forall t :: t in heap ==> t.when >= end
      ensures forall t :: t in moved && t !in old(moved) ==> t in old(heap) && t.when < end
    {
      hide Mirrors, Accounted, OnlyCancelledLost, CountCovers, Identified;
      ghost var due: seq<Timer> := [];
      assert Elems(due) == {};
      hide Elems, Distinct, InOrder;
      while scheduled.xs != []
        invariant scheduled == old(scheduled) && Mirrors(scheduled.xs, heap, flagged)
        invariant Elems(due) <= old(heap) && Distinct(due) && InOrder(due)
        invariant View() == old(View()).(heap := old(heap) - Elems(due), ready := old(ready) + due,
                                         moved := old(moved) + due)
        invariant forall t, u :: t in due && u in heap ==> t.when <= u.when
        invariant forall t :: t in due ==> t.when < end
        decreases |scheduled.xs|
      {
        if scheduled.xs[0].when >= end { break; }
        var t := PopTimer();
        ready := ready + [t];
        DueNext(old(heap), due, t, old(ready), old(moved));
        due, moved := due + [t], moved + [t];
      }
      NoneDue(scheduled.xs, heap, flagged, end);
      assert Moves(old(View()), View(), end, due);
      StepInv(old(View()), Event.MoveDue(end), View());
    }

    /** Pop the next ready handle; false if it was cancelled in the meantime and is not called. */
    method RunNext() returns (called: bool)
      requires Valid() && ready != []
      modifies this
      ensures Valid() && scheduled == old(scheduled)
      ensures Step(old(View()), Event.RunNext, View()) && called == (old(ready[0]).id !in cancelled)
    {
      hide Mirrors, Accounted, OnlyCancelledLost, CountCovers, Identified;
      var handle := ready[0];
      ready := ready[1..];
      called := handle.id !in cancelled;
      if called { ran := ran + [handle]; } else { skipped := skipped + {handle}; }
      StepInv(old(View()), Event.RunNext, View());
    }
  }
}

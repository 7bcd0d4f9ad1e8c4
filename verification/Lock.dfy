/** `asyncio.Lock` under every interleaving of acquire, release, cancel and resume.

    `acquire` is cut at its one `await`: `Acquire` runs it up to there, `Resume` the rest.
    Which status a cancel produces is what `KernelCancel` proves of the kernel. */
module LockModel {
  import opened Waiters

  /** A queued `acquire` call; `id` is its arrival number. */
  datatype Waiter = Waiter(id: nat, status: Status)

  /** `next`, `grants` and `releases` record the history: arrivals so far, the arrival numbers
      that got the lock in order, and the number of successful releases. */
  datatype State = State(locked: bool, waiters: seq<Waiter>, next: nat, grants: seq<nat>, releases: nat)

  const INITIAL := State(false, [], 0, [], 0)

  datatype Event = Acquire | Release | Cancel(j: nat) | Resume(j: nat)

  predicate Enabled(s: State, e: Event) {
    match e
    case Acquire => true
    case Release => true
    case Cancel(j) => j < |s.waiters|
    case Resume(j) => j < |s.waiters| && s.waiters[j].status != Waiting
  }

  predicate AllCancelled(ws: seq<Waiter>) {
    forall i :: 0 <= i < |ws| ==> ws[i].status == Cancelled
  }

  function WakeHead(s: State): State {
    if s.waiters != [] && s.waiters[0].status == Waiting
    then s.(waiters := s.waiters[0 := s.waiters[0].(status := Woken)])
    else s
  }

  function Without(ws: seq<Waiter>, j: nat): seq<Waiter>
    requires j < |ws|
  {
    ws[..j] + ws[j + 1..]
  }

  function Next(s: State, e: Event): State
    requires Enabled(s, e)
  {
    match e
    case Acquire =>
      if !s.locked && AllCancelled(s.waiters)
      then s.(locked := true, next := s.next + 1, grants := s.grants + [s.next])
      else s.(waiters := s.waiters + [Waiter(s.next, Waiting)], next := s.next + 1)
    case Release =>
      if s.locked then WakeHead(s.(locked := false, releases := s.releases + 1)) else s
    case Cancel(j) =>
      s.(waiters := s.waiters[j := s.waiters[j].(status := CancelStatus(s.waiters[j].status))])
    case Resume(j) =>
      var s1 := s.(waiters := Without(s.waiters, j));
      if s.waiters[j].status == Woken then s1.(locked := true, grants := s.grants + [s.waiters[j].id])
      else if s.locked then s1
      else WakeHead(s1)
  }

  // ---------------------------------------------------------------- invariant

  predicate Live(w: Waiter) { w.status != Cancelled }

  predicate Ordered(ws: seq<Waiter>, next: nat) {
    && (forall i, j :: 0 <= i < j < |ws| ==> ws[i].id < ws[j].id)
    && (forall i :: 0 <= i < |ws| ==> ws[i].id < next)
  }

  /** Only the head is ever woken, and only while the lock is free. */
  predicate WokenAtHead(s: State) {
    forall i :: 0 <= i < |s.waiters| && s.waiters[i].status in {Woken, WokenCancelled} ==> i == 0 && !s.locked
  }

  /** A free lock with a pending waiter has a head whose resumption is already scheduled. */
  predicate NoLostWakeup(s: State) {
    forall i :: !s.locked && 0 <= i < |s.waiters| && s.waiters[i].status == Waiting
                ==> s.waiters[0].status != Waiting
  }

  /** Grants less releases is one exactly while locked: nobody else holds a locked lock. */
  predicate MutualExclusion(s: State) {
    |s.grants| == s.releases + (if s.locked then 1 else 0)
  }

  /** Grants follow arrival order, and no waiter that is not cancelled was overtaken. */
  predicate Fifo(s: State) {
    && (forall i, j :: 0 <= i < j < |s.grants| ==> s.grants[i] < s.grants[j])
    && (forall i :: 0 <= i < |s.grants| ==> s.grants[i] < s.next)
    && (forall i, j :: 0 <= i < |s.grants| && 0 <= j < |s.waiters| && Live(s.waiters[j])
                       ==> s.grants[i] < s.waiters[j].id)
  }

  predicate Inv(s: State) {
    Ordered(s.waiters, s.next) && WokenAtHead(s) && NoLostWakeup(s) && MutualExclusion(s) && Fifo(s)
  }

  /** All of `Inv` but the clause that waking the head restores. */
  predicate Base(s: State) {
    Ordered(s.waiters, s.next) && WokenAtHead(s) && MutualExclusion(s) && Fifo(s)
  }

  lemma WakeHeadInv(s: State)
    requires Base(s) && !s.locked
    ensures Inv(WakeHead(s))
  {
  }

  lemma RemoveBase(s: State, j: nat)
    requires Base(s) && j < |s.waiters|
    ensures Base(s.(waiters := Without(s.waiters, j)))
    ensures forall i :: 0 <= i < |s.waiters| - 1 ==>
              Without(s.waiters, j)[i] == s.waiters[if i < j then i else i + 1]
  {
    var ws := Without(s.waiters, j);
    forall i | 0 <= i < |ws| ensures ws[i] == s.waiters[if i < j then i else i + 1] {}
    hide Without;
  }

  lemma GrantInv(s: State)
    requires Inv(s) && !s.locked && AllCancelled(s.waiters)
    ensures Inv(s.(locked := true, next := s.next + 1, grants := s.grants + [s.next]))
  {
  }

  lemma QueueInv(s: State)
    requires Inv(s) && (s.locked || !AllCancelled(s.waiters))
    ensures Inv(s.(waiters := s.waiters + [Waiter(s.next, Waiting)], next := s.next + 1))
  {
  }

  lemma AcquireInv(s: State)
    requires Inv(s)
    ensures Inv(Next(s, Acquire))
  {
    hide Inv, AllCancelled;
    if !s.locked && AllCancelled(s.waiters) { GrantInv(s); } else { QueueInv(s); }
  }

  lemma CancelInv(s: State, j: nat)
    requires Inv(s) && j < |s.waiters|
    ensures Inv(Next(s, Cancel(j)))
  {
  }

  lemma ResumeInv(s: State, j: nat)
    requires Inv(s) && Enabled(s, Resume(j))
    ensures Inv(Next(s, Resume(j)))
  {
    RemoveBase(s, j);
    if s.waiters[j].status != Woken && !s.locked { WakeHeadInv(s.(waiters := Without(s.waiters, j))); }
  }

  lemma NextInv(s: State, e: Event)
    requires Inv(s) && Enabled(s, e)
    ensures Inv(Next(s, e))
  {
    match e
    case Acquire => AcquireInv(s);
    case Release => if s.locked { WakeHeadInv(s.(locked := false, releases := s.releases + 1)); }
    case Cancel(j) => CancelInv(s, j);
    case Resume(j) => ResumeInv(s, j);
  }

  ghost predicate IsRun(ss: seq<State>, es: seq<Event>) {
    && |ss| == |es| + 1 && ss[0] == INITIAL
    && forall i :: 0 <= i < |es| ==> Enabled(ss[i], es[i]) && ss[i + 1] == Next(ss[i], es[i])
  }

  /** Mutual exclusion, woken head, no lost wakeup and arrival order, in every reachable state. */
  lemma {:induction false} RunInv(ss: seq<State>, es: seq<Event>, n: nat)
    requires IsRun(ss, es) && n <= |es|
    ensures WokenAtHead(ss[n]) && NoLostWakeup(ss[n]) && MutualExclusion(ss[n]) && Fifo(ss[n])
    ensures Inv(ss[n])
  {
    if n > 0 {
      RunInv(ss, es, n - 1);
      NextInv(ss[n - 1], es[n - 1]);
    }
  }

  /** The lock is never granted while it is held: `acquire` sets `_locked` after its wait
      without testing it, and this is why it may. */
  lemma GrantsOnlyWhenFree(ss: seq<State>, es: seq<Event>, n: nat)
    requires IsRun(ss, es) && n < |es| && ss[n + 1].grants != ss[n].grants
    ensures !ss[n].locked && ss[n + 1].locked
    ensures ss[n + 1].grants == ss[n].grants + [ss[n + 1].grants[|ss[n].grants|]]
  {
    RunInv(ss, es, n);
    RunInv(ss, es, n + 1);
    assert Enabled(ss[n], es[n]) && ss[n + 1] == Next(ss[n], es[n]);
  }

  // ---------------------------------------------------------------- hand-off

  /** The first arrival that the lock is going to: neither cancelled nor about to be. */
  function FirstHeir(ws: seq<Waiter>): (r: seq<nat>)
    ensures |r| <= 1
  {
    if ws == [] then []
    else if ws[0].status in {Waiting, Woken} then [ws[0].id]
    else FirstHeir(ws[1..])
  }

  lemma {:induction false} HeirWithout(ws: seq<Waiter>, j: nat)
    requires j < |ws| && ws[j].status !in {Waiting, Woken}
    ensures FirstHeir(Without(ws, j)) == FirstHeir(ws)
  {
    if j == 0 {
      assert Without(ws, 0) == ws[1..];
    } else {
      assert Without(ws, j)[1..] == Without(ws[1..], j - 1);
      HeirWithout(ws[1..], j - 1);
    }
  }

  lemma HeirWoken(s: State)
    ensures FirstHeir(WakeHead(s).waiters) == FirstHeir(s.waiters)
  {
  }

  /** The loop runs scheduled resumptions of `acquire` calls, in any order: `js[i]` is the place in
      the queue of the call resumed from `ss[i]`. */
  ghost predicate Resumptions(ss: seq<State>, js: seq<nat>) {
    && |ss| == |js| + 1
    && forall i :: 0 <= i < |js| ==> Enabled(ss[i], Resume(js[i])) && ss[i + 1] == Next(ss[i], Resume(js[i]))
  }

  /** While the lock is free its heir stays the same, whoever is resumed; it is the one granted. */
  lemma ResumeHeir(s: State, j: nat)
    requires Inv(s) && Enabled(s, Resume(j))
    ensures var s' := Next(s, Resume(j));
            && |s'.waiters| == |s.waiters| - 1
            && (s.locked ==> s'.locked && s'.grants == s.grants)
            && (!s.locked && s'.locked ==> s'.grants == s.grants + FirstHeir(s.waiters) && FirstHeir(s.waiters) != [])
            && (!s'.locked ==> s'.grants == s.grants && FirstHeir(s'.waiters) == FirstHeir(s.waiters))
  {
    if s.waiters[j].status != Woken {
      HeirWithout(s.waiters, j);
      HeirWoken(s.(waiters := Without(s.waiters, j)));
    }
  }

  lemma HeadCanResume(s: State)
    requires Inv(s) && !s.locked && s.waiters != []
    ensures Enabled(s, Resume(0))
  {
  }

  /** From every reachable state with the lock free the scheduled resumptions alone, in whatever
      order they run, hand it to the first waiter in arrival order that has not been cancelled:
      once it is held, that waiter has it; while it is free, that waiter is still the heir; and
      when no resumption is left, it is free only if there was no heir. */
  lemma {:induction false} HandOff(ss: seq<State>, js: seq<nat>)
    requires Resumptions(ss, js) && Inv(ss[0]) && !ss[0].locked
    ensures var s, s' := ss[0], ss[|js|];
            && Inv(s') && |s'.waiters| + |js| == |s.waiters|
            && (s'.locked ==> s'.grants == s.grants + FirstHeir(s.waiters) && FirstHeir(s.waiters) != [])
            && (!s'.locked ==> s'.grants == s.grants && FirstHeir(s'.waiters) == FirstHeir(s.waiters))
            && (!s'.locked && (forall j: nat :: !Enabled(s', Resume(j))) ==> FirstHeir(s.waiters) == [])
    decreases |js|
  {
    if js != [] {
      var n := |js| - 1;
      HandOff(ss[..n + 1], js[..n]);
      assert ss[..n + 1][n] == ss[n];
      assert Enabled(ss[n], Resume(js[n])) && ss[n + 1] == Next(ss[n], Resume(js[n]));
      NextInv(ss[n], Resume(js[n]));
      ResumeHeir(ss[n], js[n]);
    }
    if !ss[|js|].locked && ss[|js|].waiters != [] { HeadCanResume(ss[|js|]); }
  }

  // ---------------------------------------------------------------- history

  function Ids(ws: seq<Waiter>): set<nat> { set w | w in ws :: w.id }

  function Grants(s: State): set<nat> { set id | id in s.grants }

  /** The calls that left with CancelledError, by the resumptions made. */
  function Left(ss: seq<State>, es: seq<Event>, n: nat): set<nat>
    requires |ss| == |es| + 1 && n <= |es|
  {
    if n == 0 then {}
    else
      var s, e := ss[n - 1], es[n - 1];
      Left(ss, es, n - 1)
      + (if e.Resume? && e.j < |s.waiters| && s.waiters[e.j].status in {Cancelled, WokenCancelled}
         then {s.waiters[e.j].id} else {})
  }

  function Arrivals(es: seq<Event>, n: nat): nat
    requires n <= |es|
  {
    if n == 0 then 0 else Arrivals(es, n - 1) + if es[n - 1] == Acquire then 1 else 0
  }

  function Releases(ss: seq<State>, es: seq<Event>, n: nat): nat
    requires |ss| == |es| + 1 && n <= |es|
  {
    if n == 0 then 0 else Releases(ss, es, n - 1) + if es[n - 1] == Release && ss[n - 1].locked then 1 else 0
  }

  lemma InWithout(ws: seq<Waiter>, next: nat, j: nat, w: Waiter)
    requires Ordered(ws, next) && j < |ws|
    ensures w in Without(ws, j) <==> w in ws && w.id != ws[j].id
  {
    var rest := Without(ws, j);
    if w in ws && w.id != ws[j].id {
      var i :| 0 <= i < |ws| && ws[i] == w;
      assert rest[if i < j then i else i - 1] == w;
    }
    if w in rest {
      var i :| 0 <= i < |rest| && rest[i] == w;
      assert w == ws[if i < j then i else i + 1];
    }
  }

  lemma IdsWithout(ws: seq<Waiter>, next: nat, j: nat)
    requires Ordered(ws, next) && j < |ws|
    ensures Ids(Without(ws, j)) == Ids(ws) - {ws[j].id}
  {
    forall w: Waiter ensures w in Without(ws, j) <==> w in ws && w.id != ws[j].id { InWithout(ws, next, j, w); }
    hide Without, Ordered;
  }

  lemma IdsUpdated(ws: seq<Waiter>, j: nat, st: Status)
    requires j < |ws|
    ensures Ids(ws[j := ws[j].(status := st)]) == Ids(ws)
  {
    var ws' := ws[j := ws[j].(status := st)];
    forall w | w in ws ensures w.id in Ids(ws') {
      var i :| 0 <= i < |ws| && ws[i] == w;
      assert ws'[i].id == w.id && ws'[i] in ws';
    }
    forall w | w in ws' ensures w.id in Ids(ws) {
      var i :| 0 <= i < |ws'| && ws'[i] == w;
      assert ws[i].id == w.id && ws[i] in ws;
    }
  }

  lemma IdsAppended(ws: seq<Waiter>, w: Waiter)
    ensures Ids(ws + [w]) == Ids(ws) + {w.id}
  {
    assert w in ws + [w];
    forall u | u in ws ensures u in ws + [w] {}
  }

  lemma WokenIds(s: State)
    ensures Ids(WakeHead(s).waiters) == Ids(s.waiters) && WakeHead(s).grants == s.grants
    ensures WakeHead(s).next == s.next && WakeHead(s).releases == s.releases
  {
    if s.waiters != [] { IdsUpdated(s.waiters, 0, Woken); }
  }

  lemma GrantedNext(s: State, s': State, id: nat)
    requires s'.grants == s.grants + [id]
    ensures Grants(s') == Grants(s) + {id}
  {
  }

  /** One event lets one call arrive or one leave; a call that leaves is granted exactly if it was
      woken and not cancelled. */
  lemma CallsStep(s: State, e: Event)
    requires Inv(s) && Enabled(s, e)
    ensures var s' := Next(s, e);
            match e
            case Acquire =>
              && s'.next == s.next + 1
              && Ids(s'.waiters) == Ids(s.waiters) + (if s'.grants == s.grants then {s.next} else {})
              && Grants(s') == Grants(s) + (if s'.grants == s.grants then {} else {s.next})
            case Resume(j) =>
              var w := s.waiters[j];
              && s'.next == s.next && w.id in Ids(s.waiters) && Ids(s'.waiters) == Ids(s.waiters) - {w.id}
              && Grants(s') == Grants(s) + (if w.status == Woken then {w.id} else {})
            case _ => s'.next == s.next && Ids(s'.waiters) == Ids(s.waiters) && Grants(s') == Grants(s)
  {
    match e
    case Acquire =>
      IdsAppended(s.waiters, Waiter(s.next, Waiting));
      GrantedNext(s, s.(grants := s.grants + [s.next]), s.next);
      hide Ids, Inv;
    case Release =>
      WokenIds(s.(locked := false, releases := s.releases + 1));
      hide Ids, WakeHead, Inv;
    case Cancel(j) =>
      IdsUpdated(s.waiters, j, CancelStatus(s.waiters[j].status));
      hide Ids, Inv;
    case Resume(j) =>
      assert s.waiters[j] in s.waiters;
      IdsWithout(s.waiters, s.next, j);
      WokenIds(s.(waiters := Without(s.waiters, j)));
      GrantedNext(s, s.(grants := s.grants + [s.waiters[j].id]), s.waiters[j].id);
      assert s.waiters[j].id in Ids(s.waiters);
      hide Ids, WakeHead, Inv, Without;
  }

  lemma {:induction false} CountsByEvents(ss: seq<State>, es: seq<Event>, n: nat)
    requires IsRun(ss, es) && n <= |es|
    ensures ss[n].next == Arrivals(es, n) && ss[n].releases == Releases(ss, es, n)
  {
    if n > 0 {
      CountsByEvents(ss, es, n - 1);
      assert Enabled(ss[n - 1], es[n - 1]) && ss[n] == Next(ss[n - 1], es[n - 1]);
    }
  }

  /** Every `acquire` call is in one place: it has the lock or had it, it waits, or it left with
      CancelledError. */
  ghost predicate InOnePlace(arrivals: nat, granted: set<nat>, waiting: set<nat>, left: set<nat>) {
    && (forall id: nat :: id < arrivals <==> id in granted + waiting + left)
    && granted !! waiting && granted !! left && waiting !! left
  }

  lemma Arrives(n: nat, granted: set<nat>, waiting: set<nat>, left: set<nat>)
    requires InOnePlace(n, granted, waiting, left)
    ensures InOnePlace(n + 1, granted + {n}, waiting, left) && InOnePlace(n + 1, granted, waiting + {n}, left)
  {
    assert n !in granted + waiting + left;
  }

  lemma Leaves(n: nat, granted: set<nat>, waiting: set<nat>, left: set<nat>, id: nat)
    requires InOnePlace(n, granted, waiting, left) && id in waiting
    ensures InOnePlace(n, granted + {id}, waiting - {id}, left) && InOnePlace(n, granted, waiting - {id}, left + {id})
  {
    assert granted + {id} + (waiting - {id}) + left == granted + waiting + left;
    assert granted + (waiting - {id}) + (left + {id}) == granted + waiting + left;
  }

  lemma PlacesStep(s: State, e: Event, left: set<nat>)
    requires Inv(s) && Enabled(s, e) && InOnePlace(s.next, Grants(s), Ids(s.waiters), left)
    ensures var gone := if e.Resume? && s.waiters[e.j].status != Woken then {s.waiters[e.j].id} else {};
            InOnePlace(Next(s, e).next, Grants(Next(s, e)), Ids(Next(s, e).waiters), left + gone)
  {
    CallsStep(s, e);
    hide Next, Inv, Ids, Grants, InOnePlace;
    assert left + {} == left && Grants(s) + {} == Grants(s) && Ids(s.waiters) + {} == Ids(s.waiters);
    if e.Acquire? { Arrives(s.next, Grants(s), Ids(s.waiters), left); }
    if e.Resume? { Leaves(s.next, Grants(s), Ids(s.waiters), left, s.waiters[e.j].id); }
  }

  lemma {:induction false} EveryCallAccounted(ss: seq<State>, es: seq<Event>, n: nat)
    requires IsRun(ss, es) && n <= |es|
    ensures InOnePlace(Arrivals(es, n), Grants(ss[n]), Ids(ss[n].waiters), Left(ss, es, n))
  {
    if n > 0 {
      var s, e := ss[n - 1], es[n - 1];
      EveryCallAccounted(ss, es, n - 1);
      CountsByEvents(ss, es, n - 1);
      CountsByEvents(ss, es, n);
      RunInv(ss, es, n - 1);
      assert Enabled(s, e) && ss[n] == Next(s, e);
      hide Next, Inv, Ids, Grants, InOnePlace, Arrivals;
      PlacesStep(s, e, Left(ss, es, n - 1));
    }
  }

  /** `acquire` returns at once exactly if the lock is free and every queued call is cancelled; else
      it waits as the last. */
  lemma AcquireGrantsIff(ss: seq<State>, es: seq<Event>, n: nat)
    requires IsRun(ss, es) && n < |es| && es[n] == Acquire
    ensures var s, s' := ss[n], ss[n + 1];
            if !s.locked && forall w :: w in s.waiters ==> w.status == Cancelled
            then s'.locked && s'.grants == s.grants + [Arrivals(es, n)] && s'.waiters == s.waiters
            else s'.locked == s.locked && s'.grants == s.grants
                 && s'.waiters == s.waiters + [Waiter(Arrivals(es, n), Waiting)]
  {
    CountsByEvents(ss, es, n);
    assert Enabled(ss[n], es[n]) && ss[n + 1] == Next(ss[n], es[n]);
    assert AllCancelled(ss[n].waiters) <==> forall w :: w in ss[n].waiters ==> w.status == Cancelled;
  }

  /** The lock was granted once more than it was released while it is held, and as often while free. */
  lemma HeldByCalls(ss: seq<State>, es: seq<Event>, n: nat)
    requires IsRun(ss, es) && n <= |es|
    ensures |ss[n].grants| == Releases(ss, es, n) + (if ss[n].locked then 1 else 0)
  {
    CountsByEvents(ss, es, n);
    RunInv(ss, es, n);
  }

  /** A call whose task was cancelled while it waited can no longer get the lock. */
  predicate Barred(s: State, id: nat) {
    && id < s.next && id !in s.grants
    && forall k :: 0 <= k < |s.waiters| && s.waiters[k].id == id ==> s.waiters[k].status in {Cancelled, WokenCancelled}
  }

  lemma BarredWithout(s: State, id: nat, j: nat)
    requires Barred(s, id) && j < |s.waiters|
    ensures Barred(s.(waiters := Without(s.waiters, j)), id)
  {
    var ws := Without(s.waiters, j);
    forall k | 0 <= k < |ws| && ws[k].id == id ensures ws[k].status in {Cancelled, WokenCancelled} {
      assert ws[k] == s.waiters[if k < j then k else k + 1];
    }
  }

  lemma BarredStays(s: State, e: Event, id: nat)
    requires Inv(s) && Enabled(s, e) && Barred(s, id)
    ensures Barred(Next(s, e), id)
  {
    if e.Resume? {
      BarredWithout(s, id, e.j);
      assert s.waiters[e.j].status == Woken ==> s.waiters[e.j].id != id;
      hide Without;
    }
    hide Inv;
  }

  lemma CancelBars(s: State, j: nat)
    requires Inv(s) && Enabled(s, Cancel(j)) && Grants(s) !! Ids(s.waiters)
    ensures Barred(Next(s, Cancel(j)), s.waiters[j].id)
  {
    assert s.waiters[j].id in Ids(s.waiters);
  }

  /** A cancelled `acquire` never gets the lock. */
  lemma {:induction false} CancelledNeverGranted(ss: seq<State>, es: seq<Event>, m: nat, n: nat)
    requires IsRun(ss, es) && m < n <= |es| && es[m].Cancel?
    ensures es[m].j < |ss[m].waiters| && Barred(ss[n], ss[m].waiters[es[m].j].id)
  {
    RunInv(ss, es, n - 1);
    assert Enabled(ss[m], es[m]) && ss[m + 1] == Next(ss[m], es[m]);
    if n == m + 1 {
      EveryCallAccounted(ss, es, m);
      CancelBars(ss[m], es[m].j);
    } else {
      CancelledNeverGranted(ss, es, m, n - 1);
      assert Enabled(ss[n - 1], es[n - 1]) && ss[n] == Next(ss[n - 1], es[n - 1]);
      hide Next, Inv, Barred;
      BarredStays(ss[n - 1], es[n - 1], ss[m].waiters[es[m].j].id);
    }
  }

  /** One event cancels no call but the one it names. */
  lemma CancelledBefore(s: State, e: Event, k: nat)
    requires Inv(s) && Enabled(s, e) && k < |Next(s, e).waiters|
    requires Next(s, e).waiters[k].status in {Cancelled, WokenCancelled}
    requires e.Cancel? ==> s.waiters[e.j].id != Next(s, e).waiters[k].id
    ensures Next(s, e).waiters[k] in s.waiters
  {
    hide Inv;
  }

  /** A call is cancelled, and so leaves with CancelledError, only by a cancel of its own. */
  lemma {:induction false} OnlyCancelledLeave(ss: seq<State>, es: seq<Event>, n: nat, k: nat) returns (m: nat)
    requires IsRun(ss, es) && n <= |es| && k < |ss[n].waiters|
    requires ss[n].waiters[k].status in {Cancelled, WokenCancelled}
    ensures m < n && es[m].Cancel? && es[m].j < |ss[m].waiters| && ss[m].waiters[es[m].j].id == ss[n].waiters[k].id
  {
    if n > 0 {
      var s, e := ss[n - 1], es[n - 1];
      RunInv(ss, es, n - 1);
      assert Enabled(s, e) && ss[n] == Next(s, e);
      m := n - 1;
      if !(e.Cancel? && s.waiters[e.j].id == ss[n].waiters[k].id) {
        CancelledBefore(s, e, k);
        var k' :| 0 <= k' < |s.waiters| && s.waiters[k'] == ss[n].waiters[k];
        m := OnlyCancelledLeave(ss, es, n - 1, k');
      }
    }
  }

  // ---------------------------------------------------------------- the class

  class Lock {
    var locked: bool
    var waiters: seq<Waiter>
    ghost var next: nat
    ghost var grants: seq<nat>
    ghost var releases: nat

    ghost function View(): State
      reads this
    {
      State(locked, waiters, next, grants, releases)
    }

    constructor ()
      ensures View() == INITIAL
    {
      locked, waiters := false, [];
      next, grants, releases := 0, [], 0;
    }

    /** `acquire` up to its await; `done` when it returns without waiting.  `id` is the
        identity of the future it creates. */
    method Acquire(id: nat) returns (done: bool)
      requires id == next
      modifies this
      ensures View() == Next(old(View()), Event.Acquire)
      ensures done <==> !old(locked) && AllCancelled(old(waiters))
    {
      next := next + 1;
      var all := true;
      if !locked {
        var i := 0;
        while i < |waiters| && all
          invariant i <= |waiters|
          invariant all ==> AllCancelled(waiters[..i])
          invariant !all ==> !AllCancelled(waiters)
        {
          if waiters[i].status != Cancelled { all := false; }
          i := i + 1;
        }
        assert all ==> waiters[..|waiters|] == waiters;
        if all {
          locked := true;
          grants := grants + [id];
          return true;
        }
      }
      waiters := waiters + [Waiter(id, Waiting)];
      return false;
    }

    method WakeUpFirst()
      modifies this`waiters
      ensures View() == WakeHead(old(View()))
    {
      if waiters == [] { return; }
      if waiters[0].status == Waiting {
        waiters := waiters[0 := waiters[0].(status := Woken)];
      }
    }

    /** The rest of `acquire`: `granted`, or CancelledError passed on. */
    method Resume(j: nat) returns (granted: bool)
      requires j < |waiters| && waiters[j].status != Waiting && Inv(View())
      modifies this
      ensures View() == Next(old(View()), Event.Resume(j)) && Inv(View())
      ensures granted <==> old(waiters[j]).status == Woken
    {
      NextInv(View(), Event.Resume(j));
      var w := waiters[j];
      waiters := waiters[..j] + waiters[j + 1..];
      if w.status != Woken {
        if !locked { WakeUpFirst(); }
        return false;
      }
      locked := true;
      grants := grants + [w.id];
      return true;
    }

    /** False is the RuntimeError of releasing a free lock. */
    method Release() returns (ok: bool)
      requires Inv(View())
      modifies this
      ensures View() == Next(old(View()), Event.Release) && Inv(View())
      ensures ok == old(locked)
    {
      NextInv(View(), Event.Release);
      if !locked { return false; }
      locked := false;
      releases := releases + 1;
      WakeUpFirst();
      return true;
    }
  }
}

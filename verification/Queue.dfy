/** `asyncio.Queue` under every interleaving of put, get, task_done, cancel and resume. */
module QueueModel {
  import opened Common
  import opened Waiters

  /** `carried` holds the item of each `put` call that waits.  `puts`, `gets` and `taskDones`
      record the history: items accepted, items handed out, calls of `task_done`. */
  datatype State<T> = State(maxsize: int, items: seq<T>, getters: WaitList, putters: WaitList,
                            carried: map<nat, T>, unfinished: int, finished: bool,
                            puts: seq<T>, gets: seq<T>, taskDones: nat)

  predicate IsInitial<T(==)>(s: State<T>) {
    s == State(s.maxsize, [], EMPTY, EMPTY, map[], 0, true, [], [], 0)
  }

  datatype Event<T> =
    | Put(x: T) | PutNowait(x: T) | ResumePut(id: nat) | CancelPut(id: nat)
    | Get | GetNowait | ResumeGet(id: nat) | CancelGet(id: nat)
    | TaskDone

  predicate Full<T>(s: State<T>) { s.maxsize > 0 && |s.items| >= s.maxsize }

  predicate Enabled<T>(s: State<T>, e: Event<T>) {
    match e
    case ResumePut(id) => CanResume(s.putters, id) && id in s.carried
    case CancelPut(id) => id in s.putters.calls
    case ResumeGet(id) => CanResume(s.getters, id)
    case CancelGet(id) => id in s.getters.calls
    case _ => true
  }

  /** `put_nowait`; a full queue refuses with QueueFull and stays as it is. */
  function PutNow<T>(s: State<T>, x: T): State<T> {
    if Full(s) then s
    else s.(items := s.items + [x], puts := s.puts + [x], unfinished := s.unfinished + 1,
            finished := false, getters := WakeNext(s.getters))
  }

  /** `get_nowait`; an empty queue refuses with QueueEmpty and stays as it is. */
  function GetNow<T>(s: State<T>): State<T> {
    if s.items == [] then s
    else s.(items := s.items[1..], gets := s.gets + [s.items[0]], putters := WakeNext(s.putters))
  }

  /** The wait loop of `put`: store the item, or wait (again) while full. */
  function TryPut<T>(s: State<T>, x: T): State<T> {
    if Full(s) then s.(putters := Wait(s.putters), carried := s.carried[s.putters.next := x])
    else PutNow(s, x)
  }

  function TryGet<T>(s: State<T>): State<T> {
    if s.items == [] then s.(getters := Wait(s.getters)) else GetNow(s)
  }

  /** The `except` branch: leave the deque; if woken for nothing, wake the next in line. */
  function GiveUp(w: WaitList, id: nat, available: bool): WaitList
    requires id in w.calls
  {
    var w1 := Forget(w, id).(queue := Remove(w.queue, id));
    if available && w.calls[id] != Cancelled then WakeNext(w1) else w1
  }

  function Next<T>(s: State<T>, e: Event<T>): State<T>
    requires Enabled(s, e)
  {
    match e
    case Put(x) => TryPut(s, x)
    case PutNowait(x) => PutNow(s, x)
    case Get => TryGet(s)
    case GetNowait => GetNow(s)
    case CancelPut(id) => s.(putters := CancelCall(s.putters, id))
    case CancelGet(id) => s.(getters := CancelCall(s.getters, id))
    case ResumePut(id) =>
      var s1 := s.(carried := s.carried - {id});
      if s.putters.calls[id] == Woken then TryPut(s1.(putters := Forget(s.putters, id)), s.carried[id])
      else s1.(putters := GiveUp(s.putters, id, !Full(s)))
    case ResumeGet(id) =>
      if s.getters.calls[id] == Woken then TryGet(s.(getters := Forget(s.getters, id)))
      else s.(getters := GiveUp(s.getters, id, s.items != []))
    case TaskDone =>
      if s.unfinished <= 0 then s
      else s.(unfinished := s.unfinished - 1, taskDones := s.taskDones + 1,
              finished := s.finished || s.unfinished == 1)
  }

  // ---------------------------------------------------------------- invariant

  /** Items leave in the order they came, and none is lost or doubled. */
  predicate InOrder<T(==)>(s: State<T>) { s.puts == s.gets + s.items }

  predicate WithinBound<T>(s: State<T>) { s.maxsize > 0 ==> |s.items| <= s.maxsize }

  /** `_finished` is set exactly when every item put has been reported done. */
  predicate JoinExact<T>(s: State<T>) {
    && s.unfinished == |s.puts| - s.taskDones >= 0
    && (s.finished <==> |s.puts| == s.taskDones)
  }

  /** Waiting getters imply a woken getter for every item; waiting putters imply a woken putter
      for every free slot. */
  predicate NoLostWakeup<T>(s: State<T>) {
    Covers(s.getters, |s.items|) && Covers(s.putters, s.maxsize - |s.items|)
  }

  predicate Bookkeeping<T>(s: State<T>) {
    && Queued(s.getters) && Queued(s.putters)
    && s.carried.Keys == s.putters.calls.Keys
    && (s.putters.calls != map[] ==> s.maxsize > 0)
  }

  predicate Inv<T(==)>(s: State<T>) {
    Bookkeeping(s) && InOrder(s) && WithinBound(s) && JoinExact(s) && NoLostWakeup(s)
  }

  lemma PutNowInv<T>(s: State<T>, x: T)
    requires Inv(s)
    ensures Inv(PutNow(s, x))
  {
    WakeNextCovers(s.getters, |s.items|);
  }

  lemma TryPutInv<T>(s: State<T>, x: T)
    requires Bookkeeping(s) && InOrder(s) && WithinBound(s) && JoinExact(s)
    requires Covers(s.getters, |s.items|) && Covers(s.putters, s.maxsize - |s.items| - 1)
    ensures Inv(TryPut(s, x))
  {
    if Full(s) {
      WaitCovers(s.putters, 0);
    } else {
      WakeNextCovers(s.getters, |s.items|);
    }
  }

  lemma TryGetInv<T>(s: State<T>)
    requires Bookkeeping(s) && InOrder(s) && WithinBound(s) && JoinExact(s)
    requires Covers(s.getters, |s.items| - 1) && Covers(s.putters, s.maxsize - |s.items|)
    ensures Inv(TryGet(s))
  {
    if s.items == [] {
      WaitCovers(s.getters, 0);
    } else {
      WakeNextCovers(s.putters, s.maxsize - |s.items|);
    }
  }

  lemma GiveUpCovers(w: WaitList, id: nat, n: int)
    requires Queued(w) && Covers(w, n) && CanResume(w, id) && w.calls[id] != Woken
    ensures Queued(GiveUp(w, id, n > 0)) && Covers(GiveUp(w, id, n > 0), n)
    ensures GiveUp(w, id, n > 0).calls.Keys == w.calls.Keys - {id}
  {
    ForgetCovers(w, id, n);
    var m := if w.calls[id] == Cancelled then n else n - 1;
    RemoveCovers(Forget(w, id), id, m);
    WakeNextCovers(Forget(w, id).(queue := Remove(w.queue, id)), m);
  }

  lemma NextInv<T>(s: State<T>, e: Event<T>)
    requires Inv(s) && Enabled(s, e)
    ensures Inv(Next(s, e))
  {
    match e
    case Put(x) => TryPutInv(s, x);
    case PutNowait(x) => PutNowInv(s, x);
    case Get => TryGetInv(s);
    case GetNowait => if s.items != [] { TryGetInv(s); }
    case CancelPut(id) => CancelCovers(s.putters, id, s.maxsize - |s.items|);
    case CancelGet(id) => CancelCovers(s.getters, id, |s.items|);
    case ResumePut(id) =>
      var free := s.maxsize - |s.items|;
      ForgetCovers(s.putters, id, free);
      if s.putters.calls[id] == Woken {
        TryPutInv(s.(carried := s.carried - {id}, putters := Forget(s.putters, id)), s.carried[id]);
      } else {
        assert !Full(s) <==> free > 0;
        GiveUpCovers(s.putters, id, free);
      }
    case ResumeGet(id) =>
      ForgetCovers(s.getters, id, |s.items|);
      if s.getters.calls[id] == Woken {
        TryGetInv(s.(getters := Forget(s.getters, id)));
      } else {
        GiveUpCovers(s.getters, id, |s.items|);
      }
    case TaskDone =>
  }

  ghost predicate IsRun<T>(ss: seq<State<T>>, es: seq<Event<T>>) {
    && |ss| == |es| + 1 && IsInitial(ss[0])
    && forall i :: 0 <= i < |es| ==> Enabled(ss[i], es[i]) && ss[i + 1] == Next(ss[i], es[i])
  }

  /** Order, bound, `join` and wakeups, in every reachable state of every queue. */
  lemma {:induction false} RunInv<T>(ss: seq<State<T>>, es: seq<Event<T>>, n: nat)
    requires IsRun(ss, es) && n <= |es|
    ensures InOrder(ss[n]) && WithinBound(ss[n]) && JoinExact(ss[n]) && NoLostWakeup(ss[n])
    ensures InTurn(ss[n].getters) && InTurn(ss[n].putters)
    ensures Inv(ss[n])
  {
    if n > 0 {
      RunInv(ss, es, n - 1);
      NextInv(ss[n - 1], es[n - 1]);
    }
  }

  // ---------------------------------------------------------------- history

  /** What an event asks of the queue: to store the item its caller passed, to take one, or to count
      an item as done, by a new call or by one that waited. */
  datatype Ask<T> =
    | AsksPut(x: T) | RetriesPut(id: nat) | AsksGet | RetriesGet(id: nat) | AsksDone | AsksNothing

  function AskOf<T>(e: Event<T>): Ask<T> {
    match e
    case Put(x) => AsksPut(x)
    case PutNowait(x) => AsksPut(x)
    case ResumePut(id) => RetriesPut(id)
    case Get => AsksGet
    case GetNowait => AsksGet
    case ResumeGet(id) => RetriesGet(id)
    case TaskDone => AsksDone
    case _ => AsksNothing
  }

  predicate IsWoken(w: WaitList, id: nat) { id in w.calls && w.calls[id] == Woken }

  /** The event stores an item: there is room, and the call is new or was woken. */
  predicate Stores<T>(s: State<T>, a: Ask<T>) {
    && (s.maxsize <= 0 || |s.items| < s.maxsize)
    && (a.AsksPut? || (a.RetriesPut? && IsWoken(s.putters, a.id)))
  }

  /** The event takes an item. */
  predicate TakesItem<T>(s: State<T>, a: Ask<T>) {
    |s.items| > 0 && (a.AsksGet? || (a.RetriesGet? && IsWoken(s.getters, a.id)))
  }

  /** The items that waiting `put` calls were given, by the number each waits under: a new call
      brings its argument, one that was woken and waits again keeps its item. */
  function Passed<T>(ss: seq<State<T>>, asks: seq<Ask<T>>, n: nat): map<nat, T>
    requires |ss| == |asks| + 1 && n <= |asks|
  {
    if n == 0 then map[]
    else
      var items, a, id := Passed(ss, asks, n - 1), asks[n - 1], ss[n - 1].putters.next;
      if ss[n].putters.next == id then items
      else if a.AsksPut? then items[id := a.x]
      else if a.RetriesPut? && a.id in items then items[id := items[a.id]]
      else items
  }

  /** The items stored by the first `n` events, as their callers passed them. */
  function Stored<T>(ss: seq<State<T>>, asks: seq<Ask<T>>, n: nat): seq<T>
    requires |ss| == |asks| + 1 && n <= |asks|
  {
    if n == 0 then []
    else
      var before, a, items := Stored(ss, asks, n - 1), asks[n - 1], Passed(ss, asks, n - 1);
      if !Stores(ss[n - 1], a) then before
      else if a.AsksPut? then before + [a.x]
      else if a.RetriesPut? && a.id in items then before + [items[a.id]]
      else before
  }

  function Taken<T>(ss: seq<State<T>>, asks: seq<Ask<T>>, n: nat): nat
    requires |ss| == |asks| + 1 && n <= |asks|
  {
    if n == 0 then 0 else Taken(ss, asks, n - 1) + if TakesItem(ss[n - 1], asks[n - 1]) then 1 else 0
  }

  /** Reports of done items: one more is refused once there are as many as items stored. */
  function Reported<T>(ss: seq<State<T>>, asks: seq<Ask<T>>, n: nat): nat
    requires |ss| == |asks| + 1 && n <= |asks|
  {
    if n == 0 then 0
    else
      var before := Reported(ss, asks, n - 1);
      if asks[n - 1].AsksDone? && before < |Stored(ss, asks, n - 1)| then before + 1 else before
  }

  /** The item an accepted put is about. */
  function ItemOf<T>(s: State<T>, a: Ask<T>): Option<T> {
    if a.AsksPut? then Some(a.x)
    else if a.RetriesPut? && a.id in s.carried then Some(s.carried[a.id])
    else None
  }

  function Listed<T>(x: Option<T>): seq<T> { if x.Some? then [x.value] else [] }

  /** A put call that waits is a new one with its item, or one that waited before. */
  predicate CarriesOn<T(==)>(s: State<T>, a: Ask<T>, s': State<T>) {
    && (s'.putters.next == s.putters.next || s'.putters.next == s.putters.next + 1)
    && forall id :: id in s'.carried ==>
         || (id in s.carried && id < s.putters.next && s'.carried[id] == s.carried[id])
         || (id == s.putters.next < s'.putters.next && Some(s'.carried[id]) == ItemOf(s, a))
  }

  /** What one event does to the record. */
  predicate Recorded<T(==)>(s: State<T>, a: Ask<T>, s': State<T>) {
    && (Stores(s, a) ==> ItemOf(s, a).Some?)
    && s'.puts == s.puts + (if Stores(s, a) then Listed(ItemOf(s, a)) else [])
    && |s'.gets| == |s.gets| + (if TakesItem(s, a) then 1 else 0)
    && s'.taskDones == s.taskDones + (if a.AsksDone? && s.taskDones < |s.puts| then 1 else 0)
    && CarriesOn(s, a, s')
  }

  lemma PutRecorded<T>(s: State<T>, x: T)
    requires Inv(s)
    ensures Recorded(s, AsksPut(x), TryPut(s, x)) && Recorded(s, AsksPut(x), PutNow(s, x))
  {
    hide WakeNext, NoLostWakeup;
  }

  lemma ResumePutRecorded<T>(s: State<T>, id: nat)
    requires Inv(s) && Enabled(s, ResumePut(id))
    ensures Recorded(s, RetriesPut(id), Next(s, ResumePut(id)))
  {
    WakeNextKeys(Forget(s.putters, id).(queue := Remove(s.putters.queue, id)));
    hide WakeNext, NoLostWakeup;
  }

  lemma GetRecorded<T>(s: State<T>)
    requires Inv(s)
    ensures Recorded(s, AsksGet, TryGet(s)) && Recorded(s, AsksGet, GetNow(s))
  {
    WakeNextKeys(s.putters);
    hide WakeNext, NoLostWakeup;
  }

  lemma ResumeGetRecorded<T>(s: State<T>, id: nat)
    requires Inv(s) && Enabled(s, ResumeGet(id))
    ensures Recorded(s, RetriesGet(id), Next(s, ResumeGet(id)))
  {
    WakeNextKeys(s.putters);
    hide WakeNext, NoLostWakeup, GiveUp;
  }

  lemma NextRecorded<T>(s: State<T>, e: Event<T>)
    requires Inv(s) && Enabled(s, e)
    ensures Recorded(s, AskOf(e), Next(s, e))
  {
    hide NoLostWakeup, TryPut, PutNow, TryGet, GetNow, GiveUp;
    match e
    case Put(x) => PutRecorded(s, x);
    case PutNowait(x) => PutRecorded(s, x);
    case ResumePut(id) => ResumePutRecorded(s, id);
    case Get => GetRecorded(s);
    case GetNowait => GetRecorded(s);
    case ResumeGet(id) => ResumeGetRecorded(s, id);
    case _ =>
  }

  /** The record is what the callers asked for. */
  ghost predicate IsHistory<T>(ss: seq<State<T>>, asks: seq<Ask<T>>) {
    && |ss| == |asks| + 1 && IsInitial(ss[0])
    && forall i :: 0 <= i < |asks| ==> Recorded(ss[i], asks[i], ss[i + 1])
  }

  /** A waiting put call carries the item it was given. */
  lemma {:induction false} CarriedByCalls<T>(ss: seq<State<T>>, asks: seq<Ask<T>>, n: nat)
    requires IsHistory(ss, asks) && n <= |asks|
    ensures forall id :: id in ss[n].carried ==>
              id < ss[n].putters.next && id in Passed(ss, asks, n) && Passed(ss, asks, n)[id] == ss[n].carried[id]
  {
    if n > 0 {
      CarriedByCalls(ss, asks, n - 1);
      var s, a, s' := ss[n - 1], asks[n - 1], ss[n];
      var before := Passed(ss, asks, n - 1);
      assert CarriesOn(s, a, s') by { assert Recorded(s, a, s'); }
      forall id | id in s'.carried
        ensures id < s'.putters.next && id in Passed(ss, asks, n) && Passed(ss, asks, n)[id] == s'.carried[id]
      {
        if id in s.carried && id < s.putters.next && s'.carried[id] == s.carried[id] {
          assert id in before && before[id] == s.carried[id];
        } else {
          assert a.RetriesPut? ==> a.id in before && before[a.id] == s.carried[a.id];
        }
      }
    }
  }

  lemma {:induction false} HistoryByCalls<T>(ss: seq<State<T>>, asks: seq<Ask<T>>, n: nat)
    requires IsHistory(ss, asks) && n <= |asks|
    ensures ss[n].puts == Stored(ss, asks, n) && |ss[n].gets| == Taken(ss, asks, n)
    ensures ss[n].taskDones == Reported(ss, asks, n)
  {
    if n > 0 {
      HistoryByCalls(ss, asks, n - 1);
      CarriedByCalls(ss, asks, n - 1);
      assert Recorded(ss[n - 1], asks[n - 1], ss[n]);
      hide CarriesOn, Passed, TakesItem, IsWoken;
    }
  }

  /** What the queue holds is what its callers passed to accepted puts, in that order, less the first
      items, one for each get that took one; so the k-th item taken is the k-th item put. */
  lemma ItemsByCalls<T>(s: State<T>, ss: seq<State<T>>, asks: seq<Ask<T>>, n: nat)
    requires IsHistory(ss, asks) && n <= |asks| && s == ss[n] && Inv(s)
    ensures var stored, taken := Stored(ss, asks, n), Taken(ss, asks, n);
            taken <= |stored| && s.items == stored[taken..] && s.gets == stored[..taken]
    ensures s.unfinished == |Stored(ss, asks, n)| - Reported(ss, asks, n)
    ensures s.finished <==> |Stored(ss, asks, n)| == Reported(ss, asks, n)
  {
    HistoryByCalls(ss, asks, n);
  }

  function Asks<T>(es: seq<Event<T>>): (r: seq<Ask<T>>)
    ensures |r| == |es| && forall i :: 0 <= i < |es| ==> r[i] == AskOf(es[i])
  {
    seq(|es|, i requires 0 <= i < |es| => AskOf(es[i]))
  }

  lemma {:induction false} RunIsHistory<T>(ss: seq<State<T>>, es: seq<Event<T>>)
    requires IsRun(ss, es)
    ensures IsHistory(ss, Asks(es))
  {
    forall i | 0 <= i < |es| ensures Recorded(ss[i], Asks(es)[i], ss[i + 1]) {
      RunInv(ss, es, i);
      assert Enabled(ss[i], es[i]) && ss[i + 1] == Next(ss[i], es[i]);
      NextRecorded(ss[i], es[i]);
    }
  }

  /** First in, first out by the calls themselves, in every run. */
  lemma FifoByCalls<T>(ss: seq<State<T>>, es: seq<Event<T>>, n: nat)
    requires IsRun(ss, es) && n <= |es|
    ensures var stored, taken := Stored(ss, Asks(es), n), Taken(ss, Asks(es), n);
            && taken <= |stored| && ss[n].items == stored[taken..] && ss[n].gets == stored[..taken]
            && ss[n].puts == stored
            && (ss[n].finished <==> |stored| == Reported(ss, Asks(es), n))
  {
    RunIsHistory(ss, es);
    RunInv(ss, es, n);
    HistoryByCalls(ss, Asks(es), n);
    ItemsByCalls(ss[n], ss, Asks(es), n);
  }

  class Queue<T> {
    const maxsize: int
    var items: seq<T>
    var getters: WaitList
    var putters: WaitList
    var carried: map<nat, T>
    var unfinished: int
    var finished: bool
    ghost var puts: seq<T>
    ghost var gets: seq<T>
    ghost var taskDones: nat

    ghost function View(): State<T>
      reads this
    {
      State(maxsize, items, getters, putters, carried, unfinished, finished, puts, gets, taskDones)
    }

    constructor (maxsize: int)
      ensures IsInitial(View()) && this.maxsize == maxsize
    {
      this.maxsize := maxsize;
      items, getters, putters, carried := [], EMPTY, EMPTY, map[];
      unfinished, finished := 0, true;
      puts, gets, taskDones := [], [], 0;
    }

    /** False is QueueFull. */
    method PutNowait(x: T) returns (ok: bool)
      modifies this
      ensures View() == PutNow(old(View()), x)
      ensures ok <==> maxsize <= 0 || old(|items|) < maxsize
      ensures items == old(items) + (if ok then [x] else []) && puts == old(puts) + (if ok then [x] else [])
    {
      if maxsize > 0 && |items| >= maxsize { return false; }
      items := items + [x];
      puts := puts + [x];
      unfinished := unfinished + 1;
      finished := false;
      getters := WakeUpNext(getters);
      return true;
    }

    /** None is QueueEmpty. */
    method GetNowait() returns (r: Option<T>)
      modifies this
      ensures View() == GetNow(old(View()))
      ensures r == if old(items) == [] then None else Some(old(items)[0])
      ensures old(items) == Listed(r) + items && gets == old(gets) + Listed(r)
    {
      if |items| == 0 { return None; }
      r := Some(items[0]);
      gets := gets + [items[0]];
      items := items[1..];
      putters := WakeUpNext(putters);
    }

    /** One turn of the loop in `put`: done, or suspended on a new future. */
    method Put(x: T) returns (done: bool)
      modifies this
      ensures View() == TryPut(old(View()), x)
      ensures done <==> maxsize <= 0 || old(|items|) < maxsize
      ensures items == old(items) + (if done then [x] else []) && puts == old(puts) + (if done then [x] else [])
      ensures !done ==> carried == old(carried)[old(putters.next) := x] && putters.next == old(putters.next) + 1
    {
      if maxsize > 0 && |items| >= maxsize {
        carried := carried[putters.next := x];
        putters := Wait(putters);
        return false;
      }
      done := PutNowait(x);
    }

    method Get() returns (r: Option<T>)
      modifies this
      ensures View() == TryGet(old(View()))
      ensures r == if old(items) == [] then None else Some(old(items)[0])
      ensures old(items) == Listed(r) + items && gets == old(gets) + Listed(r)
    {
      if |items| == 0 {
        getters := Wait(getters);
        return None;
      }
      r := GetNowait();
    }

    /** `put` after its await. */
    method ResumePut(id: nat) returns (done: bool)
      requires Inv(View()) && CanResume(putters, id)
      modifies this
      ensures View() == Next(old(View()), Event.ResumePut(id)) && Inv(View())
      ensures done <==> old(putters.calls[id]) == Woken && (maxsize <= 0 || old(|items|) < maxsize)
      ensures id in old(carried)
      ensures var stored := if done then [old(carried)[id]] else [];
              items == old(items) + stored && puts == old(puts) + stored
    {
      NextInv(View(), Event.ResumePut(id));
      var status, x := putters.calls[id], carried[id];
      hide Inv;
      carried := carried - {id};
      putters := Forget(putters, id);
      if status == Woken {
        done := Put(x);
      } else {
        putters := putters.(queue := Remove(putters.queue, id));
        if !(maxsize > 0 && |items| >= maxsize) && status != Cancelled { putters := WakeUpNext(putters); }
        done := false;
      }
    }

    /** `get` after its await. */
    method ResumeGet(id: nat) returns (r: Option<T>)
      requires Inv(View()) && CanResume(getters, id)
      modifies this
      ensures View() == Next(old(View()), Event.ResumeGet(id)) && Inv(View())
      ensures r == if old(getters.calls[id]) == Woken && old(items) != [] then Some(old(items)[0]) else None
      ensures old(items) == Listed(r) + items && gets == old(gets) + Listed(r)
    {
      NextInv(View(), Event.ResumeGet(id));
      hide Inv;
      var status := getters.calls[id];
      getters := Forget(getters, id);
      if status == Woken {
        r := Get();
      } else {
        getters := getters.(queue := Remove(getters.queue, id));
        if |items| != 0 && status != Cancelled { getters := WakeUpNext(getters); }
        r := None;
      }
    }

    /** False is the ValueError of reporting more items than were put. */
    method TaskDone() returns (ok: bool)
      requires Inv(View())
      modifies this
      ensures View() == Next(old(View()), Event.TaskDone) && Inv(View())
      ensures ok <==> old(taskDones) < |old(puts)|
      ensures taskDones == old(taskDones) + (if ok then 1 else 0)
      ensures unfinished == old(unfinished) - (if ok then 1 else 0) && (finished <==> unfinished == 0)
    {
      NextInv(View(), Event.TaskDone);
      if unfinished <= 0 { return false; }
      unfinished := unfinished - 1;
      taskDones := taskDones + 1;
      if unfinished == 0 { finished := true; }
      return true;
    }
  }
}

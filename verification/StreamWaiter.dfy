/** `StreamReader._waiter` with more than one read: between the wakeup of a read and its
    resumption the field is None, so a second read may start waiting, and the first one, when it
    resumes, clears the field again.  The second read's future is then known to nobody.

    `Streams` treats the waits of one read at a time; this module says exactly when that matters. */
module StreamWaiter {
  import opened Common
  import opened Waiters

  /** `waiter` is `_waiter`; `pending` holds the reads suspended in `_wait_for_data`. */
  datatype State = State(waiter: Option<nat>, pending: map<nat, Status>, next: nat)

  const INITIAL := State(None, map[], 0)

  /** `Wake` is `feed_data`, `feed_eof` or `set_exception`. */
  datatype Event = Start | Wake | Cancel(id: nat) | Resume(id: nat)

  predicate Enabled(s: State, e: Event) {
    match e
    case Start => true
    case Wake => true
    case Cancel(id) => id in s.pending
    case Resume(id) => id in s.pending && s.pending[id] != Waiting
  }

  function Next(s: State, e: Event): State
    requires Enabled(s, e)
  {
    match e
    case Start =>
      // a set field is the RuntimeError of a second waiting read
      if s.waiter.Some? then s
      else State(Some(s.next), s.pending[s.next := Waiting], s.next + 1)
    case Wake =>
      if s.waiter.None? then s
      else
        var w := s.waiter.value;
        s.(waiter := None,
           pending := if w in s.pending && s.pending[w] == Waiting then s.pending[w := Woken] else s.pending)
    case Cancel(id) => s.(pending := s.pending[id := CancelStatus(s.pending[id])])
    case Resume(id) => s.(waiter := None, pending := s.pending - {id})
  }

  /** Reads that nothing will ever wake: they wait, and the field does not hold their future. */
  function Lost(s: State): set<nat> {
    set id | id in s.pending && s.pending[id] == Waiting && s.waiter != Some(id)
  }

  predicate Inv(s: State) {
    && (forall id :: id in s.pending ==> id < s.next)
    && (s.waiter.Some? ==> s.waiter.value in s.pending && s.pending[s.waiter.value] in {Waiting, Cancelled})
  }

  /** The read whose future event `e` throws away: it waits while another one resumes. */
  function Dropped(s: State, e: Event): set<nat> {
    if e.Resume? && s.waiter.Some? && s.waiter != Some(e.id) && s.waiter.value in s.pending
       && s.pending[s.waiter.value] == Waiting
    then {s.waiter.value} else {}
  }

  /** Exactly these reads are lost, and only a cancel ends that. */
  lemma NextLost(s: State, e: Event)
    requires Inv(s) && Enabled(s, e)
    ensures Inv(Next(s, e))
    ensures Lost(Next(s, e)) == Lost(s) - (if e.Cancel? then {e.id} else {}) + Dropped(s, e)
  {
  }

  ghost predicate IsRun(ss: seq<State>, es: seq<Event>) {
    && |ss| == |es| + 1 && ss[0] == INITIAL
    && forall i :: 0 <= i < |es| ==> Enabled(ss[i], es[i]) && ss[i + 1] == Next(ss[i], es[i])
  }

  lemma {:induction false} RunInv(ss: seq<State>, es: seq<Event>, n: nat)
    requires IsRun(ss, es) && n <= |es|
    ensures Inv(ss[n])
  {
    if n > 0 {
      RunInv(ss, es, n - 1);
      NextLost(ss[n - 1], es[n - 1]);
    }
  }

  /** In a run no read is ever lost if and only if none resumes while another, started since it was
      woken, waits. */
  lemma {:induction false} NoneLostIff(ss: seq<State>, es: seq<Event>, n: nat)
    requires IsRun(ss, es) && n <= |es|
    ensures (forall i :: 0 <= i <= n ==> Lost(ss[i]) == {})
            <==> (forall i :: 0 <= i < n ==> Dropped(ss[i], es[i]) == {})
  {
    if n == 0 {
      assert Lost(INITIAL) == {};
    } else {
      NoneLostIff(ss, es, n - 1);
      RunInv(ss, es, n - 1);
      NextLost(ss[n - 1], es[n - 1]);
      hide Lost, Dropped, Next;
      assert (forall i :: 0 <= i <= n ==> Lost(ss[i]) == {})
          == ((forall i :: 0 <= i <= n - 1 ==> Lost(ss[i]) == {}) && Lost(ss[n]) == {});
    }
  }

  lemma OnlyOne(a: set<nat>)
    ensures |a| <= 1 ==> forall x, y :: x in a && y in a ==> x == y
  {
    forall x, y | x in a && y in a && x != y ensures |a| > 1 { SubsetSize({x, y}, a); }
  }

  lemma AtMostOne(s: State, e: Event)
    requires Inv(s) && Enabled(s, e) && |s.pending| <= 1 && (e.Start? ==> s.pending == map[])
    ensures |Next(s, e).pending| <= 1 && Dropped(s, e) == {}
  {
    assert |s.pending| == |s.pending.Keys| && |Next(s, e).pending| == |Next(s, e).pending.Keys|;
    if e.Start? {
      assert Next(s, e).pending.Keys <= {s.next};
      SubsetSize(Next(s, e).pending.Keys, {s.next});
    } else {
      SubsetSize(Next(s, e).pending.Keys, s.pending.Keys);
    }
    OnlyOne(s.pending.Keys);
  }

  /** A caller that starts a read only when no other is unfinished is safe. */
  lemma {:induction false} OneAtATime(ss: seq<State>, es: seq<Event>, n: nat)
    requires IsRun(ss, es) && n <= |es|
    requires forall i :: 0 <= i < n && es[i].Start? ==> ss[i].pending == map[]
    ensures Lost(ss[n]) == {} && |ss[n].pending| <= 1
  {
    if n == 0 {
      assert Lost(INITIAL) == {};
    } else {
      var s, e := ss[n - 1], es[n - 1];
      OneAtATime(ss, es, n - 1);
      RunInv(ss, es, n - 1);
      NextLost(s, e);
      AtMostOne(s, e);
    }
  }

  /** A run that loses a read: the second starts after the first was woken. */
  lemma LostExample()
    ensures exists ss: seq<State>, es: seq<Event> :: IsRun(ss, es) && Lost(ss[|es|]) == {1}
  {
    var s1 := State(Some(0), map[0 := Waiting], 1);
    var s2 := State(None, map[0 := Woken], 1);
    var s3 := State(Some(1), map[0 := Woken, 1 := Waiting], 2);
    var s4 := State(None, map[1 := Waiting], 2);
    var ss, es := [INITIAL, s1, s2, s3, s4], [Start, Wake, Start, Resume(0)];
    assert s3.pending - {0} == s4.pending;
    assert IsRun(ss, es);
    assert Lost(ss[|es|]) == {1};
  }
}

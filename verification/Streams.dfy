/** `asyncio.StreamReader`: `readuntil` and `readexactly` against the stream as a whole.

    While a read is suspended in `_wait_for_data` the transport feeds the reader or hands it an
    exception; `rounds` holds what arrives during each suspension.  The results are proved to
    depend only on the bytes of the stream, not on how they were cut into rounds and `feed_data`
    calls. */
module Streams {
  import opened Common

  // ---------------------------------------------------------------- searching

  predicate OccursAt(s: seq<Byte>, sep: seq<Byte>, i: nat) {
    i + |sep| <= |s| && s[i..i + |sep|] == sep
  }

  predicate NoneBefore(s: seq<Byte>, sep: seq<Byte>, n: int) {
    forall i :: 0 <= i < n ==> !OccursAt(s, sep, i)
  }

  /** `i` is where `sep` first occurs in `s`. */
  predicate FirstAt(s: seq<Byte>, sep: seq<Byte>, i: nat) {
    OccursAt(s, sep, i) && NoneBefore(s, sep, i)
  }

  /** `bytearray.find(sep, offset)`: the first occurrence at or after `offset`, so the first of
      all when there is none before `offset`. */
  method Find(s: seq<Byte>, sep: seq<Byte>, offset: nat) returns (r: Option<nat>)
    ensures r.Some? ==> r.value >= offset && OccursAt(s, sep, r.value)
    ensures r.Some? && NoneBefore(s, sep, offset) ==> FirstAt(s, sep, r.value)
    ensures r.None? && NoneBefore(s, sep, offset) ==> NoneBefore(s, sep, |s| + 1)
  {
    var i := offset;
    while i + |sep| <= |s|
      invariant offset <= i
      invariant NoneBefore(s, sep, offset) ==> NoneBefore(s, sep, i)
    {
      if s[i..i + |sep|] == sep { return Some(i); }
      i := i + 1;
    }
    return None;
  }

  /** Whether `sep` occurs at `i` is settled once the bytes up to its end have arrived. */
  lemma OccursInPrefix(s: seq<Byte>, t: seq<Byte>, sep: seq<Byte>, i: nat)
    requires s <= t && i + |sep| <= |s|
    ensures OccursAt(s, sep, i) <==> OccursAt(t, sep, i)
  {
    assert s[i..i + |sep|] == t[i..i + |sep|];
  }

  lemma NoneBeforeInPrefix(s: seq<Byte>, t: seq<Byte>, sep: seq<Byte>, n: int)
    requires s <= t && NoneBefore(s, sep, n) && (n <= 0 || n + |sep| <= |s| + 1)
    ensures NoneBefore(t, sep, n)
  {
    forall i | 0 <= i < n ensures !OccursAt(t, sep, i) { OccursInPrefix(s, t, sep, i); }
  }

  lemma FirstUnique(s: seq<Byte>, sep: seq<Byte>, i: nat, j: nat)
    requires FirstAt(s, sep, i) && FirstAt(s, sep, j)
    ensures i == j
  {
  }

  // ---------------------------------------------------------------- the environment

  /** `feed_data`, `feed_eof` and `set_exception`. */
  datatype Arrival = Data(bytes: seq<Byte>) | Eof | Error(exc: int)

  function BytesOf(round: seq<Arrival>): seq<Byte> {
    if round == [] then []
    else BytesOf(round[..|round| - 1])
         + (if round[|round| - 1].Data? then round[|round| - 1].bytes else [])
  }

  function Stream(rounds: seq<seq<Arrival>>): seq<Byte> {
    if rounds == [] then [] else Stream(rounds[..|rounds| - 1]) + BytesOf(rounds[|rounds| - 1])
  }

  /** What wakes the reader: the first arrival that is not an empty piece of data. */
  function FirstWake(round: seq<Arrival>): Option<Arrival> {
    if round == [] then None
    else if round[0] == Data([]) then FirstWake(round[1..])
    else Some(round[0])
  }

  /** The exception a round raises out of the read that waits for it. */
  function RaisedBy(round: seq<Arrival>): Option<int> {
    match FirstWake(round)
    case Some(Error(e)) => Some(e)
    case _ => None
  }

  /** The exception the reader remembers. */
  function Stored(e0: Option<int>, round: seq<Arrival>): Option<int> {
    if round == [] then e0
    else
      var last := round[|round| - 1];
      if last.Error? then Some(last.exc) else Stored(e0, round[..|round| - 1])
  }

  function StoredBy(e0: Option<int>, rounds: seq<seq<Arrival>>): Option<int> {
    if rounds == [] then e0 else Stored(StoredBy(e0, rounds[..|rounds| - 1]), rounds[|rounds| - 1])
  }

  /** A wait raises exactly what `set_exception` is given before any data or the end arrive. */
  lemma {:induction false} RaisedByFirst(round: seq<Arrival>, i: nat)
    requires i <= |round| && (forall j :: 0 <= j < i ==> round[j] == Data([])) && (i < |round| ==> round[i] != Data([]))
    ensures RaisedBy(round) == if i < |round| && round[i].Error? then Some(round[i].exc) else None
  {
    if i > 0 { RaisedByFirst(round[1..], i - 1); }
  }

  /** The reader remembers the last exception it is given. */
  lemma {:induction false} StoredLast(e0: Option<int>, round: seq<Arrival>, k: nat)
    requires k <= |round| && forall j :: k <= j < |round| ==> !round[j].Error?
    requires k > 0 ==> round[k - 1].Error?
    ensures Stored(e0, round) == if k == 0 then e0 else Some(round[k - 1].exc)
    decreases |round|
  {
    if k < |round| { StoredLast(e0, round[..|round| - 1], k); }
  }

  lemma BytesOne(b: Arrival)
    ensures BytesOf([b]) == (if b.Data? then b.bytes else []) && BytesOf([]) == []
  {
    assert [b][..0] == [];
  }

  lemma {:induction false} BytesConcat(a: seq<Arrival>, b: seq<Arrival>)
    ensures BytesOf(a + b) == BytesOf(a) + BytesOf(b)
  {
    if b == [] {
      assert a + b == a;
    } else {
      var n := |b| - 1;
      BytesConcat(a, b[..n]);
      assert (a + b)[..|a + b| - 1] == a + b[..n];
    }
  }

  lemma StreamRound(rounds: seq<seq<Arrival>>, a: seq<Arrival>)
    ensures Stream(rounds + [a]) == Stream(rounds) + BytesOf(a)
  {
    hide BytesOf;
    assert (rounds + [a])[..|rounds|] == rounds;
  }

  /** The stream is the data in the order it was fed, whatever else arrives and however it is cut. */
  lemma StreamIsData(rounds: seq<seq<Arrival>>, a: seq<Arrival>, b: Arrival)
    ensures Stream(rounds + [a + [b]]) == Stream(rounds + [a]) + (if b.Data? then b.bytes else [])
    ensures Stream(rounds + [[]]) == Stream(rounds)
  {
    hide *;
    BytesOne(b);
    BytesConcat(a, [b]);
    StreamRound(rounds, a);
    StreamRound(rounds, a + [b]);
    StreamRound(rounds, []);
    Associate(Stream(rounds), BytesOf(a), BytesOf([b]));
    assert Stream(rounds) + [] == Stream(rounds);
  }

  predicate EofLast(round: seq<Arrival>) { forall j :: 0 <= j < |round| - 1 ==> round[j] != Eof }

  /** Every round wakes the reader, and nothing arrives after the end of the stream. */
  predicate WellFormed(rounds: seq<seq<Arrival>>) {
    && (forall i :: 0 <= i < |rounds| ==> FirstWake(rounds[i]).Some?)
    && (forall i :: 0 <= i < |rounds| - 1 ==> Eof !in rounds[i])
    && (forall i :: 0 <= i < |rounds| ==> EofLast(rounds[i]))
  }

  lemma {:induction false} StreamPrefix(rounds: seq<seq<Arrival>>, k: nat)
    requires k <= |rounds|
    ensures Stream(rounds[..k]) <= Stream(rounds)
    decreases |rounds|
  {
    var n := |rounds|;
    if k < n {
      StreamPrefix(rounds[..n - 1], k);
      assert rounds[..n - 1][..k] == rounds[..k];
    } else {
      assert rounds[..k] == rounds;
    }
  }

  // ---------------------------------------------------------------- results

  datatype Result =
    | Chunk(bytes: seq<Byte>)
    | LimitOverrun(consumed: nat)
    | Incomplete(partial: seq<Byte>)
    | Raised(exc: int) // an exception given to the reader
    | Busy             // RuntimeError: another read is waiting
    | Blocked          // the rounds ran out while waiting
    | ValueError       // empty separator, or a negative number of bytes

  /** What `readuntil` is for, said of the whole stream: the prefix ending at the first separator
      if it starts at or before the limit; too long if the separator starts past the limit, or
      there is none and the stream is past the limit; else everything, incomplete. */
  predicate ReadUntilOf(stream: seq<Byte>, sep: seq<Byte>, limit: nat, r: Result) {
    match r
    case Chunk(b) => |b| >= |sep| && FirstAt(stream, sep, |b| - |sep|) && |b| - |sep| <= limit && b <= stream
    case LimitOverrun(n) =>
      NoneBefore(stream, sep, limit + 1) && |stream| + 1 > limit + |sep| && limit < n && NoneBefore(stream, sep, n)
    case Incomplete(b) => b == stream && NoneBefore(stream, sep, |stream| + 1) && |stream| + 1 <= limit + |sep|
    case _ => false
  }

  /** What the overrun error says of the buffer: where its separator starts, or, without one, how far
      none can start. */
  predicate Hint(buffer: seq<Byte>, sep: seq<Byte>, n: nat) {
    FirstAt(buffer, sep, n) || (NoneBefore(buffer, sep, |buffer| + 1) && n + |sep| == |buffer| + 1)
  }

  /** Nothing can be said yet: no separator, and not past the limit. */
  predicate Undecided(s: seq<Byte>, sep: seq<Byte>, limit: nat) {
    NoneBefore(s, sep, |s| + 1) && |s| + 1 <= limit + |sep|
  }

  /** No exception comes out of the first `n` waits. */
  predicate Quiet(rounds: seq<seq<Arrival>>, n: int) {
    forall i :: 0 <= i < n && i < |rounds| ==> RaisedBy(rounds[i]) == None
  }

  lemma QuietStart(rounds: seq<seq<Arrival>>)
    ensures Quiet(rounds, 0)
  {
  }

  lemma QuietNext(rounds: seq<seq<Arrival>>, n: nat)
    requires Quiet(rounds, n) && n < |rounds|
    ensures RaisedBy(rounds[n]) == None ==> Quiet(rounds, n + 1)
  {
  }

  /** The next arrival of a round. */
  lemma RoundNext(round: seq<Arrival>, i: nat)
    requires i < |round|
    ensures BytesOf(round[..i + 1]) == BytesOf(round[..i]) + (if round[i].Data? then round[i].bytes else [])
    ensures Eof in round[..i + 1] <==> Eof in round[..i] || round[i] == Eof
    ensures RaisedBy(round[i..]) == if round[i] == Data([]) then RaisedBy(round[i + 1..])
                                    else if round[i].Error? then Some(round[i].exc) else None
  {
    assert round[..i + 1][..i] == round[..i];
    assert round[..i + 1] == round[..i] + [round[i]];
    assert round[i..][1..] == round[i + 1..] && round[i..][0] == round[i];
  }

  lemma RoundStored(round: seq<Arrival>, i: nat, e0: Option<int>)
    requires i < |round|
    ensures Stored(e0, round[..i + 1]) == if round[i].Error? then Some(round[i].exc) else Stored(e0, round[..i])
  {
    assert round[..i + 1][..i] == round[..i];
  }

  /** How the loop of `readuntil` ends, for a reader that began with `was` and waited `k` times. */
  predicate SearchEnds(was: seq<Byte>, rounds: seq<seq<Arrival>>, k: nat, sep: seq<Byte>, limit: nat,
                       buffer: seq<Byte>, eof: bool, isep: Option<nat>, r: Result)
    requires k <= |rounds|
  {
    var fed, stream := was + Stream(rounds[..k]), was + Stream(rounds);
    && Quiet(rounds, if isep.None? && r.Raised? then k - 1 else k)
    && buffer == (if isep.None? && r.Incomplete? then [] else fed)
    && if isep.Some? then FirstAt(buffer, sep, isep.value)
       else match r
         case LimitOverrun(n) => ReadUntilOf(stream, sep, limit, r) && Hint(buffer, sep, n)
         case Incomplete(b) => eof && b == fed && ReadUntilOf(stream, sep, limit, r)
         case Blocked => !eof && Undecided(buffer, sep, limit) && k == |rounds|
         case Busy => !eof && Undecided(buffer, sep, limit)
         case Raised(e) => k > 0 && RaisedBy(rounds[k - 1]) == Some(e)
         case _ => false
  }

  lemma EndsFound(was: seq<Byte>, rounds: seq<seq<Arrival>>, k: nat, sep: seq<Byte>, limit: nat,
                  buffer: seq<Byte>, eof: bool, i: nat, r: Result)
    requires k <= |rounds| && Quiet(rounds, k) && buffer == was + Stream(rounds[..k]) && FirstAt(buffer, sep, i)
    ensures SearchEnds(was, rounds, k, sep, limit, buffer, eof, Some(i), r)
  {
  }

  lemma EndsInspected(was: seq<Byte>, rounds: seq<seq<Arrival>>, k: nat, sep: seq<Byte>, limit: nat,
                      buffer: seq<Byte>, eof: bool, r: Result)
    requires k <= |rounds| && Quiet(rounds, k) && ReadUntilOf(was + Stream(rounds), sep, limit, r)
    requires if r.LimitOverrun? then buffer == was + Stream(rounds[..k]) && Hint(buffer, sep, r.consumed)
             else eof && r == Incomplete(was + Stream(rounds[..k])) && buffer == []
    ensures SearchEnds(was, rounds, k, sep, limit, buffer, eof, None, r)
  {
    hide ReadUntilOf, Quiet, Stream, Hint;
  }

  lemma EndsWaiting(was: seq<Byte>, rounds: seq<seq<Arrival>>, k: nat, sep: seq<Byte>, limit: nat,
                    buffer: seq<Byte>, eof: bool, r: Result)
    requires k <= |rounds| && Quiet(rounds, if r.Raised? then k - 1 else k) && buffer == was + Stream(rounds[..k])
    requires r.Raised? ==> k > 0 && RaisedBy(rounds[k - 1]) == Some(r.exc)
    requires r.Blocked? || r.Busy? ==> !eof && Undecided(buffer, sep, limit)
    requires r.Raised? || (r.Blocked? && k == |rounds|) || r.Busy?
    ensures SearchEnds(was, rounds, k, sep, limit, buffer, eof, None, r)
  {
  }

  /** The specification leaves no choice but the `consumed` hint of the overrun error. */
  lemma ReadUntilDetermined(stream: seq<Byte>, sep: seq<Byte>, limit: nat, r1: Result, r2: Result)
    requires sep != [] && ReadUntilOf(stream, sep, limit, r1) && ReadUntilOf(stream, sep, limit, r2)
    ensures r1 == r2 || (r1.LimitOverrun? && r2.LimitOverrun?)
  {
    if r1.Chunk? && r2.Chunk? {
      FirstUnique(stream, sep, |r1.bytes| - |sep|, |r2.bytes| - |sep|);
    }
  }

  /** No separator starts before `offset`, and that cannot change as more bytes arrive. */
  predicate Scanned(s: seq<Byte>, sep: seq<Byte>, offset: nat) {
    NoneBefore(s, sep, offset) && (offset == 0 || offset + |sep| <= |s| + 1)
  }

  lemma Start(s: seq<Byte>, sep: seq<Byte>)
    ensures Scanned(s, sep, 0)
  {
  }

  lemma ScannedInPrefix(s: seq<Byte>, t: seq<Byte>, sep: seq<Byte>, offset: nat)
    requires s <= t && Scanned(s, sep, offset)
    ensures Scanned(t, sep, offset)
  {
    NoneBeforeInPrefix(s, t, sep, offset);
  }

  lemma StreamNext(rounds: seq<seq<Arrival>>, k: nat)
    requires k < |rounds|
    ensures Stream(rounds[..k + 1]) == Stream(rounds[..k]) + BytesOf(rounds[k])
  {
    assert rounds[..k + 1][..k] == rounds[..k];
  }

  lemma Fed(was: seq<Byte>, rounds: seq<seq<Arrival>>, k: nat)
    requires k <= |rounds|
    ensures was + Stream(rounds[..k]) <= was + Stream(rounds)
  {
    StreamPrefix(rounds, k);
  }

  lemma OverrunOf(fed: seq<Byte>, stream: seq<Byte>, sep: seq<Byte>, limit: nat, offset: nat)
    requires fed <= stream && Scanned(fed, sep, offset) && offset > limit
    ensures ReadUntilOf(stream, sep, limit, LimitOverrun(offset))
  {
    NoneBeforeInPrefix(fed, stream, sep, offset);
  }

  lemma IncompleteOf(fed: seq<Byte>, sep: seq<Byte>, limit: nat, offset: nat)
    requires NoneBefore(fed, sep, |fed| + 1) && |fed| + 1 <= offset + |sep| && offset <= limit
    ensures ReadUntilOf(fed, sep, limit, Incomplete(fed))
  {
  }

  lemma ChunkOf(fed: seq<Byte>, stream: seq<Byte>, sep: seq<Byte>, limit: nat, i: nat)
    requires sep != [] && fed <= stream && FirstAt(fed, sep, i)
    ensures i + |sep| <= |fed| && fed[..i + |sep|] <= fed
    ensures ReadUntilOf(stream, sep, limit, if i > limit then LimitOverrun(i) else Chunk(fed[..i + |sep|]))
  {
    OccursInPrefix(fed, stream, sep, i);
    NoneBeforeInPrefix(fed, stream, sep, i);
  }

  class StreamReader {
    const limit: nat
    var buffer: seq<Byte>
    var eof: bool
    var paused: bool
    var transport: bool  // a transport that can be paused is attached
    var waiter: bool     // a read is waiting
    var exception: Option<int>

    /** A paused transport means a buffer over the limit, so that reading resumes it. */
    predicate Valid()
      reads this
    {
      limit > 0 && (paused ==> transport) && (paused && !eof ==> |buffer| > limit)
    }

    constructor (limit: nat, transport: bool)
      requires limit > 0
      ensures Valid() && this.limit == limit && buffer == [] && !eof && !paused && this.transport == transport
      ensures !waiter && exception == None
    {
      this.limit, this.transport := limit, transport;
      buffer, eof, paused, waiter, exception := [], false, false, false, None;
    }

    method FeedData(data: seq<Byte>)
      requires Valid() && !eof
      modifies this`buffer, this`paused
      ensures Valid() && buffer == old(buffer) + data
      // the transport is paused when the buffer passes twice the limit, and only then
      ensures transport && |buffer| > 2 * limit && data != [] ==> paused
      ensures paused ==> old(paused) || |buffer| > 2 * limit
      ensures old(paused) ==> paused
    {
      if data == [] { return; }
      buffer := buffer + data;
      if transport && !paused && |buffer| > 2 * limit { paused := true; }
    }

    method FeedEof()
      requires Valid()
      modifies this`eof
      ensures Valid() && eof
    {
      eof := true;
    }

    method SetException(exc: int)
      requires Valid()
      modifies this`exception
      ensures Valid() && exception == Some(exc)
    {
      exception := Some(exc);
    }

    /** `_wait_for_data` up to its await: refuse a second waiting read, resume a paused transport. */
    method BeginWait() returns (ok: bool)
      requires Valid() && !eof
      modifies this`paused, this`waiter
      ensures Valid() && ok == !old(waiter) && waiter && (ok ==> !paused)
    {
      if waiter { return false; }
      if paused { paused := false; }
      waiter := true;
      return true;
    }

    /** One arrival during a wait; `woken` when the await is already decided. */
    method ArriveOne(a: Arrival, woken: bool, raised: Option<int>) returns (woken': bool, raised': Option<int>)
      requires Valid() && !eof
      modifies this`buffer, this`eof, this`paused, this`exception
      ensures Valid() && buffer == old(buffer) + (if a.Data? then a.bytes else []) && eof == a.Eof?
      ensures exception == if a.Error? then Some(a.exc) else old(exception)
      ensures woken' == (woken || a != Data([]))
      ensures raised' == if !woken && a.Error? then Some(a.exc) else raised
    {
      woken', raised' := woken, raised;
      match a {
        case Data(b) => FeedData(b); if b != [] { woken' := true; }
        case Eof => FeedEof(); woken' := true;
        case Error(e) => SetException(e); if !woken { raised' := Some(e); } woken' := true;
      }
    }

    /** What arrives during a wait, and what comes out of the await. */
    method Arrive(round: seq<Arrival>) returns (raised: Option<int>)
      requires Valid() && !eof && EofLast(round)
      modifies this`buffer, this`eof, this`paused, this`exception, this`waiter
      ensures Valid() && buffer == old(buffer) + BytesOf(round) && eof == (Eof in round) && !waiter
      ensures exception == Stored(old(exception), round) && raised == RaisedBy(round)
    {
      var woken := false;
      raised := None;
      for i := 0 to |round|
        invariant Valid() && buffer == old(buffer) + BytesOf(round[..i])
        invariant eof == (Eof in round[..i]) && (i < |round| ==> !eof)
        invariant exception == Stored(old(exception), round[..i])
        invariant RaisedBy(round) == if woken then raised else RaisedBy(round[i..])
        invariant !woken ==> raised == None
      {
        RoundNext(round, i);
        RoundStored(round, i, old(exception));
        hide BytesOf, Stored, RaisedBy;
        woken, raised := ArriveOne(round[i], woken, raised);
      }
      assert round[..|round|] == round && round[|round|..] == [];
      waiter := false;
    }

    /** A whole suspension, number `k` of a read that began with buffer `was`. */
    method WaitRound(rounds: seq<seq<Arrival>>, k: nat, ghost was: seq<Byte>, ghost e0: Option<int>)
      returns (raised: Option<int>)
      requires Valid() && !eof && WellFormed(rounds) && k < |rounds|
      requires buffer == was + Stream(rounds[..k]) && exception == StoredBy(e0, rounds[..k])
      modifies this`buffer, this`eof, this`paused, this`exception, this`waiter
      ensures Valid() && old(buffer) <= buffer == was + Stream(rounds[..k + 1]) && !waiter
      ensures exception == StoredBy(e0, rounds[..k + 1]) && raised == RaisedBy(rounds[k])
      ensures eof ==> k + 1 == |rounds|
    {
      raised := Arrive(rounds[k]);
      StreamNext(rounds, k);
      assert rounds[..k + 1][..k] == rounds[..k];
    }

    method MaybeResume()
      requires limit > 0 && (paused ==> transport)
      modifies this`paused
      ensures Valid() && (paused <==> old(paused) && |buffer| > limit)
    {
      if paused && |buffer| <= limit { paused := false; }
    }

    /** The search of one turn: only past `offset`, and only if a separator could fit. */
    method Scan(sep: seq<Byte>, offset: nat) returns (offset': nat, found: Option<nat>)
      requires sep != [] && Scanned(buffer, sep, offset)
      ensures found.Some? ==> FirstAt(buffer, sep, found.value)
      ensures found.None? ==> Scanned(buffer, sep, offset') && NoneBefore(buffer, sep, |buffer| + 1)
      ensures found.None? ==> |buffer| + 1 <= offset' + |sep|
    {
      var buflen := |buffer|;
      if buflen - offset >= |sep| {
        found := Find(buffer, sep, offset);
        if found.Some? { return offset, found; }
        offset' := buflen + 1 - |sep|;
      } else {
        offset', found := offset, None;
      }
    }

    /** One turn of the loop of `readuntil` up to the wait: the separator, or an end, or neither. */
    method Inspect(sep: seq<Byte>, offset: nat, ghost stream: seq<Byte>)
      returns (offset': nat, isep: Option<nat>, ended: Option<Result>)
      requires Valid() && sep != [] && offset <= limit && Scanned(buffer, sep, offset)
      requires buffer <= stream && (eof ==> buffer == stream)
      modifies this`buffer
      ensures Valid()
      ensures isep.Some? ==> ended.None? && FirstAt(buffer, sep, isep.value)
      ensures buffer == if ended.Some? && ended.value.Incomplete? then [] else old(buffer)
      ensures ended.Some? ==> (ended.value.LimitOverrun? || (eof && ended.value == Incomplete(old(buffer))))
                              && ReadUntilOf(stream, sep, limit, ended.value)
      ensures ended.Some? && ended.value.LimitOverrun? ==> Hint(buffer, sep, ended.value.consumed)
      ensures isep.None? && ended.None? ==>
                !eof && offset' <= limit && Scanned(buffer, sep, offset') && Undecided(buffer, sep, limit)
    {
      offset', isep := Scan(sep, offset);
      ended := None;
      if isep.Some? { return; }
      if offset' > limit {
        OverrunOf(buffer, stream, sep, limit, offset');
        ended := Some(LimitOverrun(offset'));
      } else if eof {
        IncompleteOf(buffer, sep, limit, offset');
        ended := Some(Incomplete(buffer));
        buffer := [];
      }
    }

    /** The state after suspension number `k`. */
    predicate Waited(rounds: seq<seq<Arrival>>, k: nat, was: seq<Byte>, e0: Option<int>)
      reads this
    {
      && k < |rounds| && buffer == was + Stream(rounds[..k + 1]) && exception == StoredBy(e0, rounds[..k + 1])
      && (eof ==> k + 1 == |rounds|)
    }

    /** The rest of the turn: wait for round `k`, if there is one. */
    method AwaitMore(rounds: seq<seq<Arrival>>, k: nat, ghost was: seq<Byte>, ghost e0: Option<int>)
      returns (ended: Option<Result>)
      requires Valid() && !eof && WellFormed(rounds) && k <= |rounds| && Quiet(rounds, k) && (waiter ==> k == 0)
      requires buffer == was + Stream(rounds[..k]) && exception == StoredBy(e0, rounds[..k])
      modifies this`buffer, this`eof, this`paused, this`exception, this`waiter
      ensures Valid() && waiter == (old(waiter) || ended == Some(Blocked)) && (ended == Some(Busy) ==> old(waiter))
      ensures match ended
              case None => Waited(rounds, k, was, e0) && Quiet(rounds, k + 1) && old(buffer) <= buffer && !old(waiter)
              case Some(Raised(e)) => Waited(rounds, k, was, e0) && RaisedBy(rounds[k]) == Some(e) && !old(waiter)
              case Some(Blocked) => k == |rounds| && buffer == old(buffer) && exception == old(exception) && !eof
              case Some(Busy) => buffer == old(buffer) && exception == old(exception) && !eof
              case _ => false
    {
      hide Stream, StoredBy, RaisedBy, Quiet, WellFormed;
      var ok := BeginWait();
      if !ok { return Some(Busy); }
      if k == |rounds| { return Some(Blocked); }
      var raised := WaitRound(rounds, k, was, e0);
      QuietNext(rounds, k);
      ended := if raised.Some? then Some(Raised(raised.value)) else None;
    }

    /** What holds before each turn of the loop of `readuntil`. */
    predicate Searching(rounds: seq<seq<Arrival>>, k: nat, was: seq<Byte>, e0: Option<int>, sep: seq<Byte>, offset: nat)
      reads this
    {
      && Valid() && k <= |rounds| && buffer == was + Stream(rounds[..k])
      && exception == StoredBy(e0, rounds[..k]) && Quiet(rounds, k) && (waiter ==> k == 0)
      && (eof ==> k == |rounds|) && offset <= limit && Scanned(buffer, sep, offset)
    }

    /** The first half of a turn: inspect what is there; `over` when that ends the call. */
    method Look(sep: seq<Byte>, rounds: seq<seq<Arrival>>, k: nat, offset: nat,
                ghost was: seq<Byte>, ghost e0: Option<int>)
      returns (over: bool, isep: Option<nat>, r: Result, offset': nat)
      requires sep != [] && Searching(rounds, k, was, e0, sep, offset)
      modifies this`buffer
      ensures over ==> Valid() && !(isep.None? && (r.Blocked? || r.Busy?))
      ensures over ==> SearchEnds(was, rounds, k, sep, limit, buffer, eof, isep, r)
      ensures !over ==> !eof && Searching(rounds, k, was, e0, sep, offset') && Undecided(buffer, sep, limit)
    {
      assert rounds[..|rounds|] == rounds;
      Fed(was, rounds, k);
      hide Stream, NoneBefore, OccursAt, BytesOf, ReadUntilOf, Scanned, FirstAt;
      hide StoredBy, RaisedBy, Undecided, Quiet, SearchEnds, Hint;
      r, over := Blocked, true;
      var ended;
      offset', isep, ended := Inspect(sep, offset, was + Stream(rounds));
      if isep.Some? {
        EndsFound(was, rounds, k, sep, limit, buffer, eof, isep.value, r);
      } else if ended.Some? {
        r := ended.value;
        EndsInspected(was, rounds, k, sep, limit, buffer, eof, r);
      } else {
        over := false;
      }
    }

    /** The second half: wait for more. */
    method Wait(sep: seq<Byte>, rounds: seq<seq<Arrival>>, k: nat, offset: nat,
                ghost was: seq<Byte>, ghost e0: Option<int>)
      returns (over: bool, r: Result, k': nat)
      requires sep != [] && WellFormed(rounds) && Searching(rounds, k, was, e0, sep, offset)
      requires !eof && Undecided(buffer, sep, limit)
      modifies this`buffer, this`eof, this`paused, this`exception, this`waiter
      ensures Valid() && k <= k' <= |rounds| && exception == StoredBy(e0, rounds[..k'])
      ensures waiter == (old(waiter) || (over && r.Blocked?)) && (old(waiter) ==> over && k' == k)
      ensures over && r.Busy? ==> old(waiter)
      ensures over ==> SearchEnds(was, rounds, k', sep, limit, buffer, eof, None, r)
      ensures !over ==> k' == k + 1 && Searching(rounds, k', was, e0, sep, offset)
    {
      hide Stream, NoneBefore, OccursAt, BytesOf, ReadUntilOf, Scanned, FirstAt, WellFormed;
      hide StoredBy, RaisedBy, Undecided, Quiet, SearchEnds;
      ghost var before := buffer;
      var ended := AwaitMore(rounds, k, was, e0);
      over, k', r := ended.Some?, k, Blocked;
      if ended == None || ended.value.Raised? { k' := k + 1; }
      if over {
        r := ended.value;
        EndsWaiting(was, rounds, k', sep, limit, buffer, eof, r);
      } else {
        ScannedInPrefix(before, buffer, sep, offset);
      }
    }

    /** One turn of that loop: `over` when it ends the call. */
    method Turn(sep: seq<Byte>, rounds: seq<seq<Arrival>>, k: nat, offset: nat,
                ghost was: seq<Byte>, ghost e0: Option<int>)
      returns (over: bool, isep: Option<nat>, r: Result, k': nat, offset': nat)
      requires sep != [] && WellFormed(rounds) && Searching(rounds, k, was, e0, sep, offset)
      modifies this`buffer, this`eof, this`paused, this`exception, this`waiter
      ensures Valid() && k <= k' <= |rounds| && exception == StoredBy(e0, rounds[..k'])
      ensures waiter == (old(waiter) || (over && isep.None? && r.Blocked?)) && (old(waiter) ==> over && k' == k)
      ensures over && isep.None? && r.Busy? ==> old(waiter)
      ensures over ==> SearchEnds(was, rounds, k', sep, limit, buffer, eof, isep, r)
      ensures !over ==> k' == k + 1 && Searching(rounds, k', was, e0, sep, offset')
    {
      hide Stream, WellFormed, StoredBy, SearchEnds, Scanned, Quiet, Undecided;
      k' := k;
      over, isep, r, offset' := Look(sep, rounds, k, offset, was, e0);
      if !over {
        isep := None;
        over, r, k' := Wait(sep, rounds, k, offset', was, e0);
      }
    }

    /** The loop of `readuntil`: where the separator is, or how the call ends without one. */
    method Search(sep: seq<Byte>, rounds: seq<seq<Arrival>>) returns (isep: Option<nat>, r: Result, k: nat)
      requires Valid() && WellFormed(rounds) && (eof ==> rounds == []) && sep != []
      modifies this`buffer, this`eof, this`paused, this`exception, this`waiter
      ensures Valid() && k <= |rounds| && exception == StoredBy(old(exception), rounds[..k])
      ensures waiter == (old(waiter) || (isep.None? && r.Blocked?)) && (old(waiter) ==> k == 0)
      ensures isep.None? && r.Busy? ==> old(waiter)
      ensures SearchEnds(old(buffer), rounds, k, sep, limit, buffer, eof, isep, r)
    {
      k, r, isep := 0, Blocked, None;
      assert rounds[..0] == [];
      Start(buffer, sep);
      QuietStart(rounds);
      var offset: nat, over := 0, false;
      assert Searching(rounds, 0, buffer, exception, sep, 0);
      hide Stream, WellFormed, StoredBy, SearchEnds, Scanned, Quiet;
      while !over
        invariant Valid() && k <= |rounds| && exception == StoredBy(old(exception), rounds[..k])
        invariant waiter == (old(waiter) || (over && isep.None? && r.Blocked?)) && (old(waiter) ==> k == 0)
        invariant over && isep.None? && r.Busy? ==> old(waiter)
        invariant over ==> SearchEnds(old(buffer), rounds, k, sep, limit, buffer, eof, isep, r)
        invariant !over ==> Searching(rounds, k, old(buffer), old(exception), sep, offset)
        decreases !over, |rounds| - k
      {
        over, isep, r, k, offset := Turn(sep, rounds, k, offset, old(buffer), old(exception));
      }
    }

    /** The end of `readuntil`: take the chunk out of the buffer unless it is too long. */
    method Deliver(sep: seq<Byte>, i: nat, ghost stream: seq<Byte>) returns (r: Result)
      requires Valid() && sep != [] && FirstAt(buffer, sep, i) && buffer <= stream
      modifies this`buffer, this`paused
      ensures Valid() && ReadUntilOf(stream, sep, limit, r)
      ensures if i > limit then r == LimitOverrun(i) && buffer == old(buffer)
              else r.Chunk? && r.bytes + buffer == old(buffer)
    {
      ChunkOf(buffer, stream, sep, limit, i);
      hide NoneBefore, OccursAt, ReadUntilOf;
      if i > limit { return LimitOverrun(i); }
      r := Chunk(buffer[..i + |sep|]);
      buffer := buffer[i + |sep|..];
      MaybeResume();
    }

    /** `readuntil(separator)`.  `k` is the number of suspensions. */
    method ReadUntil(sep: seq<Byte>, rounds: seq<seq<Arrival>>) returns (r: Result, k: nat)
      requires Valid() && WellFormed(rounds) && (eof ==> rounds == [])
      modifies this`buffer, this`eof, this`paused, this`exception, this`waiter
      ensures Valid() && k <= |rounds| && exception == StoredBy(old(exception), rounds[..k])
      ensures r.ValueError? <==> sep == []
      ensures r.ValueError? ==> k == 0
      // bytes are conserved
      ensures var fed := old(buffer) + Stream(rounds[..k]);
              match r
              case Chunk(b) => b + buffer == fed
              case Incomplete(b) => eof && b == fed && buffer == []
              case _ => buffer == fed
      // the result is that of the whole stream
      ensures r.Chunk? || r.LimitOverrun? || r.Incomplete? ==>
                ReadUntilOf(old(buffer) + Stream(rounds), sep, limit, r)
      ensures r.LimitOverrun? ==> Hint(buffer, sep, r.consumed)
      // it waits only for a stream that has no separator yet and is within the limit
      ensures r.Blocked? || r.Busy? ==> !eof && Undecided(buffer, sep, limit)
      ensures r.Blocked? ==> k == |rounds|
      ensures waiter == (old(waiter) || r.Blocked?) && (r.Busy? ==> old(waiter)) && (old(waiter) ==> k == 0)
      // a stored exception is raised at once, another by the wait it ends, and none otherwise
      ensures sep != [] && old(exception).Some? ==> r == Raised(old(exception).value) && k == 0
      ensures r.Raised? && old(exception).None? ==> k > 0 && RaisedBy(rounds[k - 1]) == Some(r.exc)
      ensures old(exception).None? ==> Quiet(rounds, if r.Raised? then k - 1 else k)
    {
      assert rounds[..0] == [] && Stream([]) == [] && StoredBy(exception, []) == exception;
      QuietStart(rounds);
      hide Stream, NoneBefore, OccursAt, ReadUntilOf, StoredBy, RaisedBy, Quiet, FirstAt, Undecided, WellFormed;
      if sep == [] { return ValueError, 0; }
      if exception.Some? { return Raised(exception.value), 0; }
      ghost var stream := buffer + Stream(rounds);
      var isep;
      isep, r, k := Search(sep, rounds);
      if isep.None? { return; }
      Fed(old(buffer), rounds, k);
      r := Deliver(sep, isep.value, stream);
    }

    method TakeFirst(n: nat) returns (r: Result)
      requires Valid() && n <= |buffer|
      modifies this`buffer, this`paused
      ensures Valid() && r.Chunk? && |r.bytes| == n && r.bytes + buffer == old(buffer)
    {
      if |buffer| == n {
        r := Chunk(buffer);
        buffer := [];
      } else {
        r := Chunk(buffer[..n]);
        buffer := buffer[n..];
      }
      MaybeResume();
    }

    /** The loop of `readexactly`: wait until `n` bytes are there, or how the call ends without. */
    method WaitFor(n: nat, rounds: seq<seq<Arrival>>) returns (ended: Option<Result>, k: nat)
      requires Valid() && WellFormed(rounds) && (eof ==> rounds == [])
      modifies this`buffer, this`eof, this`paused, this`exception, this`waiter
      ensures Valid() && k <= |rounds| && exception == StoredBy(old(exception), rounds[..k])
      ensures var fed := old(buffer) + Stream(rounds[..k]);
              match ended
              case None => buffer == fed && |fed| >= n
              case Some(Incomplete(b)) => eof && b == fed && k == |rounds| && |fed| < n && buffer == []
              case Some(Blocked) => k == |rounds| && !eof && |fed| < n && buffer == fed
              case Some(Busy) => old(waiter) && !eof && |fed| < n && buffer == fed
              case Some(Raised(e)) => k > 0 && RaisedBy(rounds[k - 1]) == Some(e) && buffer == fed
              case _ => false
      ensures waiter == (old(waiter) || ended == Some(Blocked)) && (old(waiter) ==> k == 0)
      ensures Quiet(rounds, if ended.Some? && ended.value.Raised? then k - 1 else k)
    {
      k, ended := 0, None;
      assert rounds[..0] == [];
      ghost var was, e0 := buffer, exception;
      hide Stream, BytesOf, WellFormed, StoredBy, RaisedBy, Quiet;
      QuietStart(rounds);
      while |buffer| < n
        invariant Valid() && k <= |rounds| && buffer == was + Stream(rounds[..k])
        invariant exception == StoredBy(e0, rounds[..k]) && Quiet(rounds, k) && ended == None
        invariant waiter == old(waiter) && (waiter ==> k == 0)
        invariant eof ==> k == |rounds|
        decreases |rounds| - k
      {
        if eof {
          ended := Some(Incomplete(buffer));
          buffer := [];
          return;
        }
        ended := AwaitMore(rounds, k, was, e0);
        if ended == None || ended.value.Raised? { k := k + 1; }
        if ended.Some? { return; }
      }
    }

    /** `readexactly(n)`: the first `n` bytes of the whole stream, or all of a shorter one. */
    method ReadExactly(n: int, rounds: seq<seq<Arrival>>) returns (r: Result, k: nat)
      requires Valid() && WellFormed(rounds) && (eof ==> rounds == [])
      modifies this`buffer, this`eof, this`paused, this`exception, this`waiter
      ensures Valid() && k <= |rounds| && exception == StoredBy(old(exception), rounds[..k])
      ensures r.ValueError? <==> n < 0
      ensures var fed, stream := old(buffer) + Stream(rounds[..k]), old(buffer) + Stream(rounds);
              match r
              case Chunk(b) => b <= stream && |b| == n && b + buffer == fed
              case Incomplete(b) => eof && b == stream && |stream| < n && buffer == []
              case Blocked => k == |rounds| && !eof && |stream| < n && buffer == fed
              case Busy => old(waiter) && !eof && |fed| < n && buffer == fed
              case Raised(_) => buffer == fed
              case ValueError => buffer == fed
              case LimitOverrun(_) => false
      ensures waiter == (old(waiter) || r.Blocked?) && (old(waiter) ==> k == 0)
      ensures n >= 0 && old(exception).Some? ==> r == Raised(old(exception).value) && k == 0
      ensures r.Raised? && old(exception).None? ==> k > 0 && RaisedBy(rounds[k - 1]) == Some(r.exc)
      ensures old(exception).None? ==> Quiet(rounds, if r.Raised? then k - 1 else k)
    {
      k := 0;
      assert rounds[..0] == [] && rounds[..|rounds|] == rounds;
      if n < 0 { return ValueError, 0; }
      if exception.Some? { return Raised(exception.value), 0; }
      if n == 0 { return Chunk([]), 0; }
      ghost var was := buffer;
      hide Stream, WellFormed, StoredBy, RaisedBy, Quiet;
      var ended;
      ended, k := WaitFor(n, rounds);
      if ended.Some? { return ended.value, k; }
      Fed(was, rounds, k);
      r := TakeFirst(n);
    }
  }
}

/** The selector socket transport's write side with its flow control: `write`, `_write_ready`,
    and the high/low water marks of `_FlowControlMixin`.

    The protocol's `pause_writing` and `resume_writing` may call `write` again; what they do is
    given as a tree of calls.  What a socket send does is given with each call. */
module Transport {
  import opened Common

  /** `Failed` is an exception other than BlockingIOError and InterruptedError. */
  datatype Send = Sent(n: nat) | WouldBlock | Failed

  /** A call of `write`: its data, what the socket does if `write` tries to send, and the calls
      the protocol makes if this one makes the transport call `pause_writing`. */
  datatype Call = Call(data: seq<Byte>, send: Send, onPause: seq<Call>)

  /** A socket takes no more than it is given. */
  predicate CallOk(c: Call)
    decreases c
  {
    && (c.send.Sent? ==> c.send.n <= |c.data|)
    && forall i :: 0 <= i < |c.onPause| ==> CallOk(c.onPause[i])
  }

  predicate CallsOk(cs: seq<Call>) { forall i :: 0 <= i < |cs| ==> CallOk(cs[i]) }

  /** No send in the tree fails. */
  predicate ErrorFree(c: Call)
    decreases c
  {
    !c.send.Failed? && forall i :: 0 <= i < |c.onPause| ==> ErrorFree(c.onPause[i])
  }

  predicate AllErrorFree(cs: seq<Call>) { forall i :: 0 <= i < |cs| ==> ErrorFree(cs[i]) }

  /** The data of calls, in order. */
  function Datas(cs: seq<Call>): seq<Byte> { if cs == [] then [] else cs[0].data + Datas(cs[1..]) }

  function Before(k: Option<nat>): Option<nat> { if k.Some? && k.value > 0 then Some(k.value - 1) else None }

  /** What calls write if number `fired` is the one that makes the transport call `pause_writing`. */
  function Added(cs: seq<Call>, fired: Option<nat>): seq<Byte> {
    if cs == [] then []
    else cs[0].data + (if fired == Some(0) then Datas(cs[0].onPause) else []) + Added(cs[1..], Before(fired))
  }

  lemma {:induction false} NoneFired(cs: seq<Call>)
    ensures Added(cs, None) == Datas(cs)
  {
    if cs != [] { NoneFired(cs[1..]); }
  }

  lemma AddedNext(before: seq<Byte>, c: Call, cs: seq<Call>, fired: Option<nat>)
    ensures before + Added([c] + cs, fired)
         == (before + c.data + (if fired == Some(0) then Datas(c.onPause) else [])) + Added(cs, Before(fired))
  {
    assert ([c] + cs)[1..] == cs;
  }

  datatype Signal = Pause | Resume

  /** What happens to a transport between two callbacks of the loop. */
  datatype Event =
    | UserWrite(c: Call)
    | SocketReady(send: Send, onResume: seq<Call>)
    | SetLimits(high: Option<int>, low: Option<int>, onPause: seq<Call>)
    | UserWriteEof

  predicate EventOk(e: Event) {
    match e
    case UserWrite(c) => CallOk(c)
    case SocketReady(_, cs) => CallsOk(cs)
    case SetLimits(_, _, cs) => CallsOk(cs)
    case UserWriteEof => true
  }

  predicate EventErrorFree(e: Event) {
    match e
    case UserWrite(c) => ErrorFree(c)
    case SocketReady(send, cs) => !send.Failed? && AllErrorFree(cs)
    case SetLimits(_, _, cs) => true
    case UserWriteEof => true
  }

  /** An event in which the protocol writes nothing when it is told to pause or resume. */
  predicate Plain(e: Event) {
    match e
    case UserWrite(c) => c.onPause == []
    case SocketReady(_, cs) => cs == []
    case SetLimits(_, _, cs) => cs == []
    case UserWriteEof => true
  }

  /** What is written before `write_eof`. */
  function WrittenBy(events: seq<Event>, n: nat): seq<Byte>
    requires n <= |events|
  {
    if n == 0 then []
    else WrittenBy(events, n - 1)
         + (if events[n - 1].UserWrite? && UserWriteEof !in events[..n - 1] then events[n - 1].c.data else [])
  }

  /** A send of at most `n` bytes offered `m`. */
  function Clip(send: Send, m: nat): Send { if send.Sent? && send.n > m then Sent(m) else send }

  /** `pause_writing` and `resume_writing` strictly alternate, starting with a pause; the last
      one tells whether the protocol is paused. */
  predicate Alternates(signals: seq<Signal>, paused: bool) {
    && (forall i :: 0 <= i < |signals| ==> (signals[i] == Pause <==> i % 2 == 0))
    && (paused <==> |signals| % 2 == 1)
  }

  class SocketTransport {
    var buffer: seq<Byte>
    var protocolPaused: bool
    var high: int
    var low: int
    var connLost: nat
    var closing: bool
    var eof: bool
    var shutdown: bool                // the socket was shut down for writing
    var writerRegistered: bool
    ghost var accepted: seq<Byte>     // data of the calls of write before the connection was lost
    ghost var sent: seq<Byte>         // what the socket took
    ghost var signals: seq<Signal>    // calls of pause_writing and resume_writing

    /** Holds whenever protocol code runs; `_write_ready` may still have the writer registered
        with an empty buffer while it calls `resume_writing`. */
    ghost predicate Flowing()
      reads this
    {
      && 0 <= low <= high && Alternates(signals, protocolPaused)
      && sent <= accepted && (closing <==> connLost > 0)
      && (shutdown ==> eof && connLost == 0 && buffer == [])
      && (connLost == 0 ==> sent + buffer == accepted)
      && (connLost > 0 ==> buffer == [])
      && (buffer != [] ==> writerRegistered)
      && (!protocolPaused ==> |buffer| <= high)
    }

    /** Holds between callbacks of the loop; in particular the socket is shut down for writing
        exactly when `write_eof` was called and everything accepted has been sent. */
    ghost predicate Valid()
      reads this
    {
      && Flowing() && (writerRegistered <==> buffer != [])
      && (shutdown <==> eof && connLost == 0 && sent == accepted)
    }

    constructor ()
      ensures Valid() && connLost == 0 && high == 64 * 1024 && low == 16 * 1024
      ensures accepted == sent == [] && signals == []
    {
      buffer, protocolPaused, connLost, eof, writerRegistered := [], false, 0, false, false;
      closing, shutdown := false, false;
      high, low := 64 * 1024, 64 * 1024 / 4;
      accepted, sent, signals := [], [], [];
    }

    /** `write(data)`; false is the RuntimeError after `write_eof`.  The bytes go to the socket or
        the buffer in order, and the protocol is paused exactly when the buffer passes the mark. */
    method Write(c: Call) returns (ok: bool)
      requires Flowing() && CallOk(c)
      modifies this
      ensures Flowing() && high == old(high) && low == old(low) && eof == old(eof) && shutdown == old(shutdown)
      ensures old(writerRegistered ==> buffer != []) ==> (writerRegistered ==> buffer != [])
      ensures ok == !old(eof) && (!ok ==> unchanged(this))
      ensures ok && old(connLost) == 0 ==>
                accepted == old(accepted) + c.data + (if signals == old(signals) then [] else Datas(c.onPause))
      ensures ok && old(connLost) == 0 ==>
                sent == old(sent) + (if old(buffer) == [] && c.send.Sent? then c.data[..c.send.n] else [])
      ensures ok && old(connLost) > 0 ==> accepted == old(accepted) && sent == old(sent)
      ensures signals == old(signals) || (!old(protocolPaused) && protocolPaused && signals == old(signals) + [Pause])
      ensures old(sent) <= sent && connLost >= old(connLost)
      ensures connLost == 0 ==> (protocolPaused <==> old(protocolPaused) || |buffer| > high)
      ensures ErrorFree(c) && old(connLost) == 0 ==> connLost == 0
      ensures old(connLost) == 0 && old(buffer) != [] ==>
                connLost == 0 && sent == old(sent) && old(buffer) + (if ok then c.data else []) <= buffer
      decreases c, 2
    {
      if eof { return false; }
      ok := true;
      if c.data == [] { return; }
      if connLost > 0 { connLost := connLost + 1; return; }
      SendOrBuffer(c);
    }

    /** Send at once; `over` when nothing is left to buffer. */
    method SendNow(c: Call) returns (over: bool, data: seq<Byte>)
      requires Flowing() && CallOk(c) && !eof && connLost == 0 && c.data != [] && buffer == []
      modifies this`accepted, this`sent, this`connLost, this`closing, this`writerRegistered
      ensures accepted == old(accepted) + c.data
      ensures sent == old(sent) + (if c.send.Sent? then c.data[..c.send.n] else [])
      ensures over ==> Flowing() && writerRegistered == old(writerRegistered) && (ErrorFree(c) ==> connLost == 0)
      ensures !over ==> connLost == 0 && !closing && data != [] && sent + data == accepted && writerRegistered
    {
      assert (c.send.Sent? ==> c.send.n <= |c.data|) && (ErrorFree(c) ==> !c.send.Failed?);
      hide Alternates, CallOk, ErrorFree;
      over, data := true, c.data;
      accepted := accepted + data;
      if c.send.Failed? {
        connLost, closing := connLost + 1, true;
        return;
      }
      if c.send.Sent? {
        sent := sent + data[..c.send.n];
        data := data[c.send.n..];
        if data == [] { return; }
      }
      writerRegistered := true;
      over := false;
    }

    /** The rest of `write`: send what the socket takes if nothing is buffered, buffer the rest. */
    method SendOrBuffer(c: Call)
      requires Flowing() && CallOk(c) && !eof && connLost == 0 && c.data != []
      modifies this
      ensures Flowing() && high == old(high) && low == old(low) && !eof && shutdown == old(shutdown)
      ensures old(writerRegistered ==> buffer != []) ==> (writerRegistered ==> buffer != [])
      ensures accepted == old(accepted) + c.data + (if signals == old(signals) then [] else Datas(c.onPause))
      ensures signals == old(signals) || (!old(protocolPaused) && protocolPaused && signals == old(signals) + [Pause])
      ensures sent == old(sent) + (if old(buffer) == [] && c.send.Sent? then c.data[..c.send.n] else [])
      ensures connLost == 0 ==> (protocolPaused <==> old(protocolPaused) || |buffer| > high)
      ensures ErrorFree(c) ==> connLost == 0
      ensures old(buffer) != [] ==> connLost == 0 && sent == old(sent) && old(buffer) + c.data <= buffer
      decreases c, 1
    {
      hide Alternates, CallOk, ErrorFree;
      var over, data := false, c.data;
      if buffer == [] { over, data := SendNow(c); } else { accepted := accepted + data; }
      if over { return; }
      buffer := buffer + data;
      MaybePause(c);
    }

    /** `_maybe_pause_protocol`, with what the protocol does in `pause_writing`. */
    method MaybePause(c: Call)
      requires CallOk(c) && connLost == 0 && sent + buffer == accepted && buffer != [] && writerRegistered
      requires 0 <= low <= high && Alternates(signals, protocolPaused) && !closing && !shutdown
      modifies this
      ensures Flowing() && high == old(high) && low == old(low) && eof == old(eof) && connLost == 0
      ensures shutdown == old(shutdown)
      ensures old(buffer) <= buffer && sent == old(sent)
      ensures accepted == old(accepted) + (if signals == old(signals) || eof then [] else Datas(c.onPause))
      ensures signals == old(signals) || (!old(protocolPaused) && protocolPaused && signals == old(signals) + [Pause])
      ensures protocolPaused <==> old(protocolPaused) || |buffer| > high
      decreases c, 0
    {
      if |buffer| <= high { return; }
      if !protocolPaused {
        protocolPaused := true;
        signals := signals + [Pause];
        NoneFired(c.onPause);
        var fired := RunCalls(c.onPause);
      }
    }

    /** The protocol's calls of `write`, one after the other; `fired` is the one, if any, that makes
        the transport call `pause_writing`. */
    method RunCalls(cs: seq<Call>) returns (ghost fired: Option<nat>)
      requires Flowing() && CallsOk(cs)
      modifies this
      ensures Flowing() && high == old(high) && low == old(low) && eof == old(eof) && shutdown == old(shutdown)
      ensures old(writerRegistered ==> buffer != []) ==> (writerRegistered ==> buffer != [])
      ensures old(accepted) <= accepted && old(sent) <= sent && connLost >= old(connLost)
      ensures eof ==> accepted == old(accepted) && fired == None
      ensures !eof && connLost == 0 ==> accepted == old(accepted) + Added(cs, fired)
      ensures signals == old(signals) + (if fired.Some? then [Pause] else [])
      ensures (old(protocolPaused) ==> fired == None) && (fired.Some? ==> fired.value < |cs| && protocolPaused)
      ensures connLost == 0 ==> (protocolPaused <==> old(protocolPaused) || |buffer| > high)
      ensures AllErrorFree(cs) && old(connLost) == 0 ==> connLost == 0
      ensures old(buffer) != [] && old(connLost) == 0 ==> connLost == 0 && old(buffer) <= buffer && sent == old(sent)
      decreases cs, 0
    {
      fired := None;
      if cs != [] {
        assert cs == [cs[0]] + cs[1..];
        var _ := Write(cs[0]);
        ghost var first := signals != old(signals);
        ghost var rest := RunCalls(cs[1..]);
        fired := if first then Some(0) else if rest.Some? then Some(rest.value + 1) else None;
        AddedNext(old(accepted), cs[0], cs[1..], fired);
      }
    }

    /** `_maybe_resume_protocol`, with what the protocol does in `resume_writing`. */
    method MaybeResume(onResume: seq<Call>) returns (ghost fired: Option<nat>)
      requires Flowing() && CallsOk(onResume)
      modifies this
      ensures Flowing() && high == old(high) && low == old(low)
      ensures old(sent) <= sent && old(accepted) <= accepted && eof == old(eof) && shutdown == old(shutdown)
      ensures AllErrorFree(onResume) && old(connLost) == 0 ==> connLost == 0
      ensures if old(protocolPaused) && |old(buffer)| <= low
              then signals == old(signals) + [Resume] + (if fired.Some? then [Pause] else [])
                   && (connLost == 0 ==> accepted == old(accepted) + (if eof then [] else Added(onResume, fired)))
              else unchanged(this)
    {
      fired := None;
      if protocolPaused && |buffer| <= low {
        protocolPaused := false;
        signals := signals + [Resume];
        fired := RunCalls(onResume);
      }
    }

    /** `_write_ready` after the socket took `n` bytes. */
    method SentSome(n: nat, onResume: seq<Call>) returns (ghost fired: Option<nat>)
      requires Valid() && buffer != [] && CallsOk(onResume) && n <= |buffer|
      modifies this
      ensures Valid() && high == old(high) && low == old(low) && eof == old(eof)
      ensures old(sent) + old(buffer)[..n] <= sent && old(accepted) <= accepted
      ensures if old(protocolPaused) && |old(buffer)| - n <= low
              then signals == old(signals) + [Resume] + (if fired.Some? then [Pause] else [])
                   && (connLost == 0 ==> accepted == old(accepted) + (if eof then [] else Added(onResume, fired)))
              else signals == old(signals) && buffer == old(buffer)[n..] && accepted == old(accepted)
                   && sent == old(sent) + old(buffer)[..n]
      ensures AllErrorFree(onResume) ==> connLost == 0
    {
      hide Alternates, CallsOk, AllErrorFree;
      if n > 0 {
        sent := sent + buffer[..n];
        buffer := buffer[n..];
      }
      fired := MaybeResume(onResume);
      if buffer == [] {
        writerRegistered := false;
        if !closing && eof { shutdown := true; }
      }
    }

    /** `_write_ready`: the socket can take more.  `onResume` is what the protocol does if
        `resume_writing` is called. */
    method WriteReady(send: Send, onResume: seq<Call>) returns (ghost fired: Option<nat>)
      requires Valid() && buffer != [] && CallsOk(onResume) && (send.Sent? ==> send.n <= |buffer|)
      modifies this
      ensures Valid() && high == old(high) && low == old(low)
      ensures send.WouldBlock? ==> unchanged(this)
      ensures send.Sent? ==> old(sent) + old(buffer)[..send.n] <= sent && old(accepted) <= accepted
      ensures send.Sent? && old(protocolPaused) && |old(buffer)| - send.n <= low ==>
                && signals == old(signals) + [Resume] + (if fired.Some? then [Pause] else [])
                && (connLost == 0 ==> accepted == old(accepted) + (if eof then [] else Added(onResume, fired)))
      ensures send.Sent? && !(old(protocolPaused) && |old(buffer)| - send.n <= low) ==>
                && signals == old(signals) && buffer == old(buffer)[send.n..]
                && accepted == old(accepted) && sent == old(sent) + old(buffer)[..send.n]
      ensures send.Failed? ==>
                && connLost > 0 && buffer == [] && sent == old(sent)
                && accepted == old(accepted) && signals == old(signals)
      ensures !send.Failed? && AllErrorFree(onResume) ==> connLost == 0
      ensures eof == old(eof)
    {
      fired := None;
      match send {
        case WouldBlock =>
        case Failed =>
          writerRegistered := false;
          buffer := [];
          connLost, closing := connLost + 1, true;
        case Sent(n) => fired := SentSome(n, onResume);
      }
    }

    /** `set_write_buffer_limits`; false is its ValueError. */
    method SetWriteBufferLimits(high0: Option<int>, low0: Option<int>, onPause: seq<Call>) returns (ok: bool)
      requires Valid() && CallsOk(onPause)
      modifies this
      ensures Valid()
      ensures var h := if high0.Some? then high0.value else if low0.Some? then 4 * low0.value else 64 * 1024;
              var l := if low0.Some? then low0.value else h / 4;
              ok == (h >= l >= 0) && (ok ==> high == h && low == l) && (!ok ==> unchanged(this))
      ensures ok && connLost == 0 ==> (protocolPaused <==> old(protocolPaused) || |buffer| > high)
      ensures signals == old(signals) || (!old(protocolPaused) && protocolPaused && signals == old(signals) + [Pause])
      ensures accepted == old(accepted) + (if signals == old(signals) || eof then [] else Datas(onPause))
      ensures sent == old(sent)
      ensures eof == old(eof) && connLost == old(connLost)
    {
      var h := if high0.Some? then high0.value else if low0.Some? then 4 * low0.value else 64 * 1024;
      var l := if low0.Some? then low0.value else h / 4;
      if !(h >= l >= 0) { return false; }
      ok := true;
      high, low := h, l;
      if |buffer| > high { MaybePause(Call([], WouldBlock, onPause)); }
    }

    /** `write_eof`: no more writes are accepted, what is buffered still goes out, and the socket
        is shut down for writing at once if nothing is. */
    method WriteEof()
      requires Valid()
      modifies this`eof, this`shutdown
      ensures Valid() && eof == (old(eof) || connLost == 0)
      ensures shutdown <==> old(shutdown) || (connLost == 0 && buffer == [])
    {
      if closing || eof { return; }
      eof := true;
      if buffer == [] { shutdown := true; }
    }

    /** One event; the loop reports a ready socket only while the writer is registered. */
    method Handle(e: Event)
      requires Valid() && EventOk(e)
      modifies this
      ensures Valid() && (EventErrorFree(e) && old(connLost) == 0 ==> connLost == 0)
      ensures Plain(e) && EventErrorFree(e) && old(connLost) == 0 ==>
                accepted == old(accepted) + (if e.UserWrite? && !old(eof) then e.c.data else [])
      ensures old(connLost) == 0 ==> eof == (old(eof) || e.UserWriteEof?)
    {
      match e {
        case UserWrite(c) => var _ := Write(c);
        case SocketReady(send, cs) =>
          if writerRegistered { var fired := WriteReady(Clip(send, |buffer|), cs); }
        case SetLimits(h, l, cs) => var _ := SetWriteBufferLimits(h, l, cs);
        case UserWriteEof => WriteEof();
      }
    }

    /** Any run: writes, ready sockets, new limits and `write_eof` in any order, with any re-entrant writes. */
    method Run(events: seq<Event>)
      requires Valid() && connLost == 0 && forall i :: 0 <= i < |events| ==> EventOk(events[i])
      modifies this
      ensures Valid()
      ensures (forall i :: 0 <= i < |events| ==> EventErrorFree(events[i])) ==>
                connLost == 0 && sent + buffer == accepted && (shutdown <==> eof && sent == accepted)
      // without re-entrant writes, what is accepted is exactly what is written before `write_eof`
      ensures (forall i :: 0 <= i < |events| ==> EventErrorFree(events[i]) && Plain(events[i])) && !old(eof) ==>
                accepted == old(accepted) + WrittenBy(events, |events|) && (eof <==> UserWriteEof in events)
    {
      hide EventErrorFree, EventOk, Plain, Alternates;
      for i := 0 to |events|
        invariant Valid()
        invariant (forall j :: 0 <= j < i ==> EventErrorFree(events[j])) ==> connLost == 0
        invariant (forall j :: 0 <= j < i ==> EventErrorFree(events[j]) && Plain(events[j])) && !old(eof) ==>
                    accepted == old(accepted) + WrittenBy(events, i) && (eof <==> UserWriteEof in events[..i])
      {
        assert events[..i + 1] == events[..i] + [events[i]];
        Handle(events[i]);
      }
      assert events[..|events|] == events;
    }
  }
}

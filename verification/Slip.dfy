/** SLIP framing (RFC 1055) as the ESP flasher writes and reads it.  Unescaping is done by two
    replacement passes, and the second sees what the first produced. */
module Slip {
  import opened Common

  const END: Byte := 0xC0
  const ESC: Byte := 0xDB
  const ESC_END: Byte := 0xDC
  const ESC_ESC: Byte := 0xDD

  /** `s.replace(bytes([b]), r)`. */
  function ReplaceByte(s: seq<Byte>, b: Byte, r: seq<Byte>): seq<Byte> {
    if s == [] then [] else (if s[0] == b then r else [s[0]]) + ReplaceByte(s[1..], b, r)
  }

  /** `s.replace(bytes([a, b]), bytes([c]))`: left to right, without overlap. */
  function ReplacePair(s: seq<Byte>, a: Byte, b: Byte, c: Byte): seq<Byte> {
    if |s| < 2 then s
    else if s[0] == a && s[1] == b then [c] + ReplacePair(s[2..], a, b, c)
    else [s[0]] + ReplacePair(s[1..], a, b, c)
  }

  predicate HasPair(s: seq<Byte>, a: Byte, b: Byte) {
    exists i :: 0 <= i < |s| - 1 && s[i] == a && s[i + 1] == b
  }

  /** The two passes of `_write_slip`. */
  function Escape(pkt: seq<Byte>): seq<Byte> {
    ReplaceByte(ReplaceByte(pkt, ESC, [ESC, ESC_ESC]), END, [ESC, ESC_END])
  }

  /** The two passes of `_read_slip`. */
  function Unescape(s: seq<Byte>): seq<Byte> {
    ReplacePair(ReplacePair(s, ESC, ESC_ESC, ESC), ESC, ESC_END, END)
  }

  // ---------------------------------------------------------------- escaping

  /** The reference: each byte of the packet on its own. */
  function EscapeByte(b: Byte): seq<Byte> {
    if b == ESC then [ESC, ESC_ESC] else if b == END then [ESC, ESC_END] else [b]
  }

  function EscapeEach(pkt: seq<Byte>): seq<Byte> {
    if pkt == [] then [] else EscapeByte(pkt[0]) + EscapeEach(pkt[1..])
  }

  lemma {:induction false} ReplaceByteConcat(s: seq<Byte>, t: seq<Byte>, b: Byte, r: seq<Byte>)
    ensures ReplaceByte(s + t, b, r) == ReplaceByte(s, b, r) + ReplaceByte(t, b, r)
  {
    if s == [] {
      assert s + t == t;
    } else {
      assert (s + t)[1..] == s[1..] + t;
      ReplaceByteConcat(s[1..], t, b, r);
    }
  }

  lemma {:induction false} EscapeIsBytewise(pkt: seq<Byte>)
    ensures Escape(pkt) == EscapeEach(pkt)
  {
    if pkt != [] {
      EscapeIsBytewise(pkt[1..]);
      var first := if pkt[0] == ESC then [ESC, ESC_ESC] else [pkt[0]];
      ReplaceByteConcat(first, ReplaceByte(pkt[1..], ESC, [ESC, ESC_ESC]), END, [ESC, ESC_END]);
      if pkt[0] == ESC {
        assert first[1..] == [ESC_ESC];
        assert ReplaceByte([ESC_ESC], END, [ESC, ESC_END]) == [ESC_ESC] + ReplaceByte([], END, [ESC, ESC_END]);
        assert ReplaceByte(first, END, [ESC, ESC_END]) == [ESC, ESC_ESC];
      } else {
        assert first[1..] == [];
        assert ReplaceByte(first, END, [ESC, ESC_END]) == EscapeByte(pkt[0]);
      }
    }
  }

  /** The frame delimiter never appears inside an escaped packet. */
  lemma {:induction false} EscapedHasNoEnd(pkt: seq<Byte>)
    ensures END !in Escape(pkt)
  {
    EscapeIsBytewise(pkt);
    if pkt != [] {
      EscapedHasNoEnd(pkt[1..]);
      EscapeIsBytewise(pkt[1..]);
    }
  }

  // ---------------------------------------------------------------- unescaping

  /** After the first pass: escapes of ESC undone, escapes of END still there. */
  function HalfEscaped(pkt: seq<Byte>): seq<Byte> {
    if pkt == [] then [] else (if pkt[0] == END then [ESC, ESC_END] else [pkt[0]]) + HalfEscaped(pkt[1..])
  }

  lemma PairStep(x: Byte, s: seq<Byte>, a: Byte, b: Byte, c: Byte)
    requires !(x == a && s != [] && s[0] == b)
    ensures ReplacePair([x] + s, a, b, c) == [x] + ReplacePair(s, a, b, c)
  {
    assert ([x] + s)[1..] == s;
  }

  lemma PairMatch(s: seq<Byte>, a: Byte, b: Byte, c: Byte)
    ensures ReplacePair([a, b] + s, a, b, c) == [c] + ReplacePair(s, a, b, c)
  {
    assert ([a, b] + s)[2..] == s;
  }

  lemma {:induction false} FirstPass(pkt: seq<Byte>)
    ensures ReplacePair(EscapeEach(pkt), ESC, ESC_ESC, ESC) == HalfEscaped(pkt)
  {
    if pkt != [] {
      FirstPass(pkt[1..]);
      var rest := EscapeEach(pkt[1..]);
      if pkt[0] == ESC {
        PairMatch(rest, ESC, ESC_ESC, ESC);
      } else if pkt[0] == END {
        PairStep(ESC_END, rest, ESC, ESC_ESC, ESC);
        PairStep(ESC, [ESC_END] + rest, ESC, ESC_ESC, ESC);
        assert [ESC, ESC_END] + rest == [ESC] + ([ESC_END] + rest);
      } else {
        PairStep(pkt[0], rest, ESC, ESC_ESC, ESC);
      }
    }
  }

  lemma {:induction false} SecondPass(pkt: seq<Byte>)
    ensures ReplacePair(HalfEscaped(pkt), ESC, ESC_END, END) == ReplacePair(pkt, ESC, ESC_END, END)
  {
    if pkt != [] {
      var rest := HalfEscaped(pkt[1..]);
      assert pkt == [pkt[0]] + pkt[1..];
      if pkt[0] == END {
        SecondPass(pkt[1..]);
        PairMatch(rest, ESC, ESC_END, END);
        PairStep(END, pkt[1..], ESC, ESC_END, END);
      } else if pkt[0] == ESC && |pkt| > 1 && pkt[1] == ESC_END {
        SecondPass(pkt[2..]);
        assert pkt[1..][1..] == pkt[2..] && pkt == [ESC, ESC_END] + pkt[2..];
        assert HalfEscaped(pkt) == [ESC, ESC_END] + HalfEscaped(pkt[2..]);
        PairMatch(HalfEscaped(pkt[2..]), ESC, ESC_END, END);
        PairMatch(pkt[2..], ESC, ESC_END, END);
      } else {
        SecondPass(pkt[1..]);
        assert |pkt| > 1 ==> rest[0] == (if pkt[1] == END then ESC else pkt[1]);
        PairStep(pkt[0], rest, ESC, ESC_END, END);
        PairStep(pkt[0], pkt[1..], ESC, ESC_END, END);
      }
    }
  }

  /** What a packet becomes on its way through escaping and unescaping: every adjacent ESC,
      ESC_END of the packet turns into END, because the second pass cannot tell it from an
      escape. */
  lemma UnescapeEscape(pkt: seq<Byte>)
    ensures Unescape(Escape(pkt)) == ReplacePair(pkt, ESC, ESC_END, END)
  {
    EscapeIsBytewise(pkt);
    FirstPass(pkt);
    SecondPass(pkt);
  }

  lemma {:induction false} ReplacePairIdentity(s: seq<Byte>, a: Byte, b: Byte, c: Byte)
    ensures ReplacePair(s, a, b, c) == s <==> !HasPair(s, a, b)
    ensures |ReplacePair(s, a, b, c)| <= |s|
    ensures HasPair(s, a, b) ==> |ReplacePair(s, a, b, c)| < |s|
    decreases |s|
  {
    if |s| >= 2 {
      if s[0] == a && s[1] == b {
        ReplacePairIdentity(s[2..], a, b, c);
        assert s[0] == a && s[0 + 1] == b;
      } else {
        ReplacePairIdentity(s[1..], a, b, c);
        assert s == [s[0]] + s[1..];
        if i :| 0 <= i < |s| - 1 && s[i] == a && s[i + 1] == b {
          assert i > 0 && s[1..][i - 1] == a && s[1..][i] == b;
        }
        if j :| 0 <= j < |s[1..]| - 1 && s[1..][j] == a && s[1..][j + 1] == b {
          assert s[j + 1] == a && s[j + 1 + 1] == b;
        }
      }
    }
  }

  /** The round trip is exact if and only if the packet has no adjacent ESC, ESC_END. */
  lemma RoundTripIff(pkt: seq<Byte>)
    ensures Unescape(Escape(pkt)) == pkt <==> !HasPair(pkt, ESC, ESC_END)
  {
    UnescapeEscape(pkt);
    ReplacePairIdentity(pkt, ESC, ESC_END, END);
  }

  /** A packet that does not survive: DB DC arrives as C0. */
  lemma RoundTripFails()
    ensures Unescape(Escape([ESC, ESC_END])) == [END]
  {
    UnescapeEscape([ESC, ESC_END]);
    PairMatch([], ESC, ESC_END, END);
    assert [ESC, ESC_END] + [] == [ESC, ESC_END];
  }

  // ---------------------------------------------------------------- the frames

  /** `_write_slip`: what goes to the UART. */
  function Frame(pkt: seq<Byte>): seq<Byte> { [END] + Escape(pkt) + [END] }

  /** The bytes of RFC 1055: packets are escaped byte by byte between two delimiters. */
  lemma FrameBytes(pkt: seq<Byte>, more: seq<Byte>, b: Byte)
    ensures Frame(pkt) == [0xC0] + Escape(pkt) + [0xC0] && Escape(pkt + more) == Escape(pkt) + Escape(more)
    ensures Escape([b]) == if b == 0xC0 then [0xDB, 0xDC] else if b == 0xDB then [0xDB, 0xDD] else [b]
  {
    var esc: seq<Byte>, end: seq<Byte> := [ESC, ESC_ESC], [ESC, ESC_END];
    ReplaceByteConcat(pkt, more, ESC, esc);
    ReplaceByteConcat(ReplaceByte(pkt, ESC, esc), ReplaceByte(more, ESC, esc), END, end);
    EscapeIsBytewise([b]);
    assert [b][1..] == [];
    assert EscapeEach([b]) == EscapeByte(b);
  }

  /** `body` is what arrives before the next delimiter, timeout or the end, and `rest` what
      follows that. */
  predicate Body(uart: seq<Option<Byte>>, body: seq<Byte>, rest: seq<Option<Byte>>) {
    && END !in body && |body| <= |uart|
    && (forall j :: 0 <= j < |body| ==> uart[j] == Some(body[j]))
    && (if |body| == |uart| then rest == []
        else uart[|body|] in {None, Some(END)} && rest == uart[|body| + 1..])
  }

  /** `_read_slip`: `uart` is what the reads return one by one, None being a timeout; past its end
      every read times out.  The result is None when the first byte is not a delimiter. */
  method ReadSlip(uart: seq<Option<Byte>>) returns (pkt: Option<seq<Byte>>, rest: seq<Option<Byte>>)
    ensures pkt.Some? <==> uart != [] && uart[0] == Some(END)
    ensures pkt.None? ==> rest == uart[if uart == [] then 0 else 1..]
    ensures pkt.Some? ==> exists body ::
              Body(uart[1..], body, rest) && pkt.value == Unescape(body)
  {
    if |uart| == 0 { return None, []; }
    if uart[0] != Some(END) { return None, uart[1..]; }
    var body: seq<Byte> := [];
    var i := 1;
    while true
      invariant 1 <= i <= |uart| && |body| == i - 1 && END !in body
      invariant forall j :: 0 <= j < |body| ==> uart[1 + j] == Some(body[j])
      decreases |uart| - i
    {
      if i == |uart| { rest := []; break; }
      var b := uart[i];
      i := i + 1;
      if b.None? || b.value == END { rest := uart[i..]; break; }
      body := body + [b.value];
    }
    assert Body(uart[1..], body, rest);
    pkt := Some(Unescape(body));
  }

  function Arriving(s: seq<Byte>): seq<Option<Byte>> { seq(|s|, i requires 0 <= i < |s| => Some(s[i])) }

  lemma BodyUnique(uart: seq<Option<Byte>>, b1: seq<Byte>, r1: seq<Option<Byte>>, b2: seq<Byte>, r2: seq<Option<Byte>>)
    requires Body(uart, b1, r1) && Body(uart, b2, r2)
    ensures b1 == b2 && r1 == r2
  {
    assert |b1| == |b2|;
    assert forall j :: 0 <= j < |b1| ==> uart[j] == Some(b1[j]);
  }

  /** Reading a written frame yields the packet with each adjacent ESC, ESC_END collapsed, and
      leaves the line right after the frame; frames sent one after the other stay apart. */
  method ReadWrittenFrame(pkt: seq<Byte>, after: seq<Option<Byte>>)
    returns (got: Option<seq<Byte>>, rest: seq<Option<Byte>>)
    ensures got == Some(ReplacePair(pkt, ESC, ESC_END, END)) && rest == after
    ensures got == Some(pkt) <==> !HasPair(pkt, ESC, ESC_END)
  {
    var uart := Arriving(Frame(pkt)) + after;
    got, rest := ReadSlip(uart);
    ghost var body :| Body(uart[1..], body, rest) && got.value == Unescape(body);
    EscapedHasNoEnd(pkt);
    assert Body(uart[1..], Escape(pkt), after);
    BodyUnique(uart[1..], body, rest, Escape(pkt), after);
    UnescapeEscape(pkt);
    ReplacePairIdentity(pkt, ESC, ESC_END, END);
  }
}

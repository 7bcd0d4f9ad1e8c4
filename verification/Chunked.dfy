/** HTTP chunked transfer coding, section 4.1 of RFC 7230: the request writer and the two
    response readers, `_read_chunked` and `_readinto_chunked`. */
module Chunked {
  import opened Common

  const CR: Byte := 13
  const LF: Byte := 10
  const CRLF: seq<Byte> := [CR, LF]
  const ZERO: Byte := 48
  const SEMICOLON: Byte := 59
  const PLUS: Byte := 43
  const MINUS: Byte := 45
  const UNDERSCORE: Byte := 95
  const MAXLINE := 1000

  // ---------------------------------------------------------------- hexadecimal sizes

  function HexDigit(d: nat): Byte
    requires d < 16
  {
    if d < 10 then 48 + d else 55 + d
  }

  /** `f'{n:X}'`. */
  function Hex(n: nat): (r: seq<Byte>)
    ensures r != []
  {
    if n < 16 then [HexDigit(n)] else Hex(n / 16) + [HexDigit(n % 16)]
  }

  function DigitValue(b: Byte): Option<nat> {
    if 48 <= b < 58 then Some(b - 48)
    else if 65 <= b < 71 then Some(b - 55)
    else if 97 <= b < 103 then Some(b - 87)
    else None
  }

  /** Digits, with single underscores between them. */
  function HexValue(s: seq<Byte>): Option<nat> {
    if s == [] then None
    else
      var d := DigitValue(s[|s| - 1]);
      if |s| == 1 || d.None? then d
      else
        var hi := HexValue(if s[|s| - 2] == UNDERSCORE then s[..|s| - 2] else s[..|s| - 1]);
        if hi.None? then None else Some(16 * hi.value + d.value)
  }

  /** Digits with an optional `0x`, which an underscore may follow. */
  function Unsigned(s: seq<Byte>): Option<nat> {
    if |s| >= 2 && s[0] == ZERO && s[1] in {88, 120} then
      HexValue(if |s| > 2 && s[2] == UNDERSCORE then s[3..] else s[2..])
    else HexValue(s)
  }

  function Signed(s: seq<Byte>): Option<int> {
    if s != [] && s[0] in {PLUS, MINUS} then
      var v := Unsigned(s[1..]);
      if v.None? then None else
        var n: int := v.value;
        Some(if s[0] == MINUS then -n else n)
    else
      var v := Unsigned(s);
      if v.None? then None else Some(v.value)
  }

  lemma {:induction false} HexRoundTrip(n: nat)
    ensures HexValue(Hex(n)) == Some(n)
    ensures forall i :: 0 <= i < |Hex(n)| ==> DigitValue(Hex(n)[i]).Some?
  {
    if n >= 16 {
      HexRoundTrip(n / 16);
      assert Hex(n)[..|Hex(n)| - 1] == Hex(n / 16);
      assert DigitValue(Hex(n)[|Hex(n)| - 2]).Some?;
    }
  }

  /** On digits alone the sign, prefix and underscore forms do not matter. */
  lemma PlainDigits(s: seq<Byte>)
    requires s != [] && forall i :: 0 <= i < |s| ==> DigitValue(s[i]).Some?
    ensures Signed(s) == match HexValue(s) { case None => None case Some(v) => Some(v) }
  {
    assert DigitValue(s[0]).Some?;
    assert |s| > 1 ==> DigitValue(s[1]).Some?;
  }

  const LOWER := "0123456789abcdef"
  const UPPER := "0123456789ABCDEF"

  /** The digits as they are written, in either case. */
  predicate IsDigit(b: Byte, d: nat) { d < 16 && (b == LOWER[d] as int || b == UPPER[d] as int) }

  lemma DigitTable(b: Byte, d: nat)
    ensures DigitValue(b) == Some(d) <==> IsDigit(b, d)
  {
    assert d < 16 ==> d in {0, 1, 2, 3, 4, 5, 6, 7, 8, 9, 10, 11, 12, 13, 14, 15};
  }

  /** `s` writes `n` in base 16: digits of either case, leading zeros allowed. */
  predicate Spells(s: seq<Byte>, n: nat)
    decreases |s|
  {
    && s != [] && IsDigit(s[|s| - 1], n % 16)
    && if |s| == 1 then n < 16 else Spells(s[..|s| - 1], n / 16)
  }

  lemma HexValueStep(s: seq<Byte>)
    requires |s| > 1
    ensures var hi := HexValue(if s[|s| - 2] == UNDERSCORE then s[..|s| - 2] else s[..|s| - 1]);
            var d := DigitValue(s[|s| - 1]);
            HexValue(s) == if hi.Some? && d.Some? then Some(16 * hi.value + d.value) else None
  {
    hide DigitValue;
  }

  lemma SpelledDigit(b: Byte, n: nat)
    ensures HexValue([b]) == Some(n) <==> Spells([b], n)
    ensures HexValue([b]) == DigitValue(b)
  {
    DigitTable(b, n);
    assert IsDigit(b, n) ==> n < 16;
    hide DigitValue, IsDigit;
    assert n < 16 ==> n % 16 == n;
  }

  lemma NoUnderscore(b: Byte)
    requires DigitValue(b).Some?
    ensures b != UNDERSCORE
  {
  }

  lemma {:induction false} SpellsDigits(s: seq<Byte>, n: nat)
    requires Spells(s, n)
    ensures HexValue(s) == Some(n) && forall i :: 0 <= i < |s| ==> DigitValue(s[i]).Some?
    decreases |s|
  {
    hide HexValue, DigitValue, IsDigit;
    var k := |s| - 1;
    if k == 0 {
      assert s == [s[0]];
      SpelledDigit(s[0], n);
    } else {
      var hi := s[..k];
      DigitTable(s[k], n % 16);
      SpellsDigits(hi, n / 16);
      hide Spells;
      assert hi[k - 1] == s[k - 1] && DigitValue(hi[k - 1]).Some?;
      NoUnderscore(s[k - 1]);
      HexValueStep(s);
      forall i | 0 <= i < |s| ensures DigitValue(s[i]).Some? { assert i < k ==> s[i] == hi[i]; }
    }
  }

  lemma SpellsStep(s: seq<Byte>, hi: nat, d: nat)
    requires |s| > 1 && Spells(s[..|s| - 1], hi) && IsDigit(s[|s| - 1], d)
    ensures Spells(s, 16 * hi + d)
  {
    assert d < 16;
    hide IsDigit;
    assert (16 * hi + d) / 16 == hi && (16 * hi + d) % 16 == d;
  }

  lemma {:induction false} HexValueSpelled(s: seq<Byte>, n: nat)
    requires s != [] && UNDERSCORE !in s && HexValue(s) == Some(n)
    ensures Spells(s, n)
    decreases |s|
  {
    hide HexValue, DigitValue, IsDigit, Spells;
    if |s| == 1 {
      assert s == [s[0]];
      SpelledDigit(s[0], n);
    } else {
      HexValueStep(s);
      var hi, d := s[..|s| - 1], DigitValue(s[|s| - 1]);
      DigitTable(s[|s| - 1], d.value);
      HexValueSpelled(hi, HexValue(hi).value);
      SpellsStep(s, HexValue(hi).value, d.value);
    }
  }

  /** Without underscores, a size is read exactly if its digits write it. */
  lemma {:induction false} HexValueIff(s: seq<Byte>, n: nat)
    requires UNDERSCORE !in s
    ensures HexValue(s) == Some(n) <==> Spells(s, n)
    decreases |s|
  {
    if Spells(s, n) {
      SpellsDigits(s, n);
    } else if HexValue(s) == Some(n) {
      HexValueSpelled(s, n);
    }
  }

  /** The writer's size is one of the spellings. */
  lemma {:induction false} HexSpells(n: nat)
    ensures Spells(Hex(n), n)
  {
    if n >= 16 {
      HexSpells(n / 16);
      assert Hex(n)[..|Hex(n)| - 1] == Hex(n / 16);
    }
    DigitTable(HexDigit(n % 16), n % 16);
    hide IsDigit;
  }

  lemma SameWithUnderscore(s: seq<Byte>, t: seq<Byte>)
    requires |s| > 1 && |t| > 1 && s[|s| - 2] == UNDERSCORE != t[|t| - 2]
    requires s[..|s| - 2] == t[..|t| - 1] && s[|s| - 1] == t[|t| - 1]
    ensures HexValue(s) == HexValue(t)
  {
    HexValueStep(s);
    HexValueStep(t);
    hide HexValue, DigitValue;
  }

  /** An underscore between digits does not count. */
  lemma {:induction false} UnderscoreBetween(a: seq<Byte>, b: seq<Byte>)
    requires a != [] && (forall i :: 0 <= i < |a| ==> DigitValue(a[i]).Some?)
    requires b != [] && (forall i :: 0 <= i < |b| ==> DigitValue(b[i]).Some?)
    ensures HexValue(a + [UNDERSCORE] + b) == HexValue(a + b)
    decreases |b|
  {
    hide HexValue, DigitValue;
    var s, t, n := a + [UNDERSCORE] + b, a + b, |b| - 1;
    if n == 0 {
      NoUnderscore(a[|a| - 1]);
      assert s[..|s| - 2] == a && t[..|t| - 1] == a && t[|t| - 2] == a[|a| - 1];
      SameWithUnderscore(s, t);
    } else {
      UnderscoreBetween(a, b[..n]);
      assert s[..|s| - 1] == a + [UNDERSCORE] + b[..n] && t[..|t| - 1] == a + b[..n];
      assert s[|s| - 2] == b[n - 1] == t[|t| - 2];
      NoUnderscore(b[n - 1]);
      HexValueStep(s);
      HexValueStep(t);
    }
  }

  /** A `0x` may come before the digits. */
  lemma PrefixForms(prefix: seq<Byte>, s: seq<Byte>, n: nat)
    requires Spells(s, n) && (prefix == [] || prefix in {[ZERO, 88], [ZERO, 120], [ZERO, 120, UNDERSCORE]})
    ensures Unsigned(prefix + s) == Some(n) && (prefix + s)[0] !in {PLUS, MINUS}
  {
    SpellsDigits(s, n);
    var t := prefix + s;
    assert DigitValue(s[0]).Some? && (|s| > 1 ==> DigitValue(s[1]).Some?);
    hide HexValue, Spells;
    if prefix == [] {
      assert t == s;
    } else {
      assert t[|prefix|..] == s && t[0] == ZERO && t[1] == prefix[1];
      assert t[2] == if |prefix| == 3 then UNDERSCORE else s[0];
    }
  }

  /** And a sign before that. */
  lemma SignedForms(prefix: seq<Byte>, s: seq<Byte>, n: nat)
    requires Spells(s, n) && (prefix == [] || prefix in {[ZERO, 88], [ZERO, 120], [ZERO, 120, UNDERSCORE]})
    ensures var value: int, t := n, prefix + s;
            Signed(t) == Signed([PLUS] + t) == Some(value) && Signed([MINUS] + t) == Some(-value)
  {
    PrefixForms(prefix, s, n);
    var t := prefix + s;
    hide Unsigned, Spells;
    assert ([PLUS] + t)[1..] == t && ([MINUS] + t)[1..] == t;
  }

  predicate IsSpace(b: Byte) { b == 32 || 9 <= b <= 13 }

  function StripRight(s: seq<Byte>): seq<Byte> {
    if s != [] && IsSpace(s[|s| - 1]) then StripRight(s[..|s| - 1]) else s
  }

  function StripLeft(s: seq<Byte>): seq<Byte> {
    if s != [] && IsSpace(s[0]) then StripLeft(s[1..]) else s
  }

  /** Everything before the first `;`: chunk extensions are ignored. */
  function BeforeExtension(s: seq<Byte>): seq<Byte> {
    if s == [] || s[0] == SEMICOLON then [] else [s[0]] + BeforeExtension(s[1..])
  }

  /** `int(line, 16)` on a size line; None is ValueError. */
  function ParseSize(line: seq<Byte>): Option<int> {
    Signed(StripLeft(StripRight(BeforeExtension(line))))
  }

  lemma {:induction false} NoExtension(s: seq<Byte>)
    requires forall i :: 0 <= i < |s| ==> s[i] != SEMICOLON
    ensures BeforeExtension(s) == s
  {
    if s != [] { NoExtension(s[1..]); }
  }

  lemma {:induction false} ExtensionAfter(a: seq<Byte>, b: seq<Byte>)
    requires SEMICOLON !in a
    ensures BeforeExtension(a + b) == a + BeforeExtension(b)
  {
    if a == [] {
      assert a + b == b;
    } else {
      assert (a + b)[1..] == a[1..] + b;
      ExtensionAfter(a[1..], b);
    }
  }

  predicate Spaces(s: seq<Byte>) { forall i :: 0 <= i < |s| ==> IsSpace(s[i]) }

  lemma {:induction false} StripSpaces(a: seq<Byte>, b: seq<Byte>)
    requires a != [] && !IsSpace(a[|a| - 1]) && Spaces(b)
    ensures StripRight(a + b) == a
    decreases |b|
  {
    if b == [] {
      assert a + b == a;
    } else {
      assert (a + b)[..|a + b| - 1] == a + b[..|b| - 1];
      StripSpaces(a, b[..|b| - 1]);
    }
  }

  /** A size line as it may arrive: digits in any case, white space such as the CR, and a chunk
      extension, which reaches to the end of the line. */
  datatype SizeLine = SizeLine(digits: seq<Byte>, pad: seq<Byte>, ext: seq<Byte>)
  {
    function Bytes(): seq<Byte> { digits + (pad + (ext + [LF])) }

    predicate Gives(n: nat) {
      && Spells(digits, n) && Spaces(pad) && LF !in pad && LF !in ext
      && (ext != [] ==> ext[0] == SEMICOLON)
    }
  }

  /** It is read as the number its digits write. */
  lemma ParsesSizeLine(line: SizeLine, n: nat)
    requires line.Gives(n)
    ensures ParseSize(line.Bytes()) == Some(n)
  {
    var d, pad, rest := line.digits, line.pad, line.ext + [LF];
    SpellsDigits(d, n);
    forall i | 0 <= i < |d| ensures d[i] != SEMICOLON && !IsSpace(d[i]) { assert DigitValue(d[i]).Some?; }
    forall i | 0 <= i < |pad| ensures pad[i] != SEMICOLON { assert IsSpace(pad[i]); }
    ExtensionAfter(d, pad + rest);
    ExtensionAfter(pad, rest);
    var after := BeforeExtension(rest);
    assert after == (if line.ext == [] then [LF] else []);
    PlainDigits(d);
    hide BeforeExtension, HexValue, Signed;
    assert Spaces(pad + after);
    StripSpaces(d, pad + after);
    assert StripLeft(d) == d;
  }

  /** It is one line. */
  lemma SizeLineEnds(line: SizeLine, n: nat)
    requires line.Gives(n)
    ensures var s := line.Bytes();
            s[|s| - 1] == LF && forall i :: 0 <= i < |s| - 1 ==> s[i] != LF
  {
    var s, d, e := line.Bytes(), line.digits, |line.digits| + |line.pad|;
    SpellsDigits(d, n);
    forall i | 0 <= i < |s| - 1 ensures s[i] != LF {
      assert i < |d| ==> s[i] == d[i] && DigitValue(d[i]).Some?;
      assert |d| <= i < e ==> s[i] == line.pad[i - |d|];
      assert e <= i ==> s[i] == line.ext[i - e];
    }
  }

  /** The line the writer sends. */
  lemma WrittenLine(n: nat)
    ensures SizeLine(Hex(n), [CR], []).Gives(n) && SizeLine(Hex(n), [CR], []).Bytes() == Hex(n) + CRLF
  {
    HexSpells(n);
    hide Hex;
    assert [CR] + ([] + [LF]) == CRLF;
  }

  lemma SizeRoundTrip(n: nat)
    ensures ParseSize(Hex(n) + CRLF) == Some(n)
  {
    WrittenLine(n);
    ParsesSizeLine(SizeLine(Hex(n), [CR], []), n);
  }

  // ---------------------------------------------------------------- the writer

  function EncodeChunk(c: seq<Byte>): seq<Byte> { Hex(|c|) + CRLF + c + CRLF }

  /** The body on the wire: every nonempty chunk with its size, then the last chunk. */
  function Encode(cs: seq<seq<Byte>>): seq<Byte> {
    if cs == [] then [ZERO] + CRLF + CRLF
    else (if cs[0] == [] then [] else EncodeChunk(cs[0])) + Encode(cs[1..])
  }

  function Concat(cs: seq<seq<Byte>>): seq<Byte> {
    if cs == [] then [] else cs[0] + Concat(cs[1..])
  }

  predicate IsAscii(s: string) { forall i :: 0 <= i < |s| ==> s[i] < 128 as char }

  function Ascii(s: string): (r: seq<Byte>)
    requires IsAscii(s)
    ensures |r| == |s| && forall i :: 0 <= i < |s| ==> r[i] == s[i] as int
  {
    seq(|s|, i requires 0 <= i < |s| => s[i] as int)
  }

  /** The bytes around the data of a chunk, and the last chunk. */
  lemma WrittenForm(c: seq<Byte>, cs: seq<seq<Byte>>)
    requires c != []
    ensures Encode([]) == Ascii("0\r\n\r\n")
    ensures Encode([c] + cs) == Hex(|c|) + Ascii("\r\n") + c + Ascii("\r\n") + Encode(cs)
  {
    assert CRLF == Ascii("\r\n");
    assert Encode([]) == Ascii("0\r\n\r\n");
    hide Hex, Ascii;
    assert ([c] + cs)[1..] == cs;
  }

  lemma EncodeStep(sent: seq<Byte>, chunks: seq<seq<Byte>>, i: nat)
    requires i < |chunks|
    ensures sent + Encode(chunks[i..])
         == (if chunks[i] == [] then sent else sent + EncodeChunk(chunks[i])) + Encode(chunks[i + 1..])
  {
    hide EncodeChunk;
    assert chunks[i..][1..] == chunks[i + 1..];
  }

  /** The chunk loop of `_send_output`; `sent` collects what is handed to `send`. */
  method SendBody(chunks: seq<seq<Byte>>) returns (sent: seq<Byte>)
    ensures sent == Encode(chunks)
  {
    sent := [];
    hide Hex;
    for i := 0 to |chunks|
      invariant sent + Encode(chunks[i..]) == Encode(chunks)
    {
      EncodeStep(sent, chunks, i);
      var chunk := chunks[i];
      if chunk == [] { continue; }
      sent := sent + (Hex(|chunk|) + CRLF + chunk + CRLF);
    }
    assert chunks[|chunks|..] == [];
    sent := sent + ([ZERO] + CRLF + CRLF);
  }

  // ---------------------------------------------------------------- the readers

  /** `fp` is what is left to read from the connection, `left` is `chunk_left`, and `open` says
      that `self.fp` is not None. */
  datatype Reader = Reader(fp: seq<Byte>, left: Option<int>, open: bool)

  datatype Result<T> = Ok(value: T) | IncompleteRead(partial: seq<Byte>) | LineTooLong

  /** The length of what `readline(limit)` returns. */
  function LineLength(s: seq<Byte>, limit: nat): (n: nat)
    ensures n <= |s| && n <= limit && (s != [] && limit > 0 ==> n > 0)
  {
    if s == [] || limit == 0 then 0 else if s[0] == LF then 1 else 1 + LineLength(s[1..], limit - 1)
  }

  /** `_read_and_discard_trailer`: what is left to read after the blank line or the end of the
      connection, and whether no line was too long. */
  function AfterTrailer(fp: seq<Byte>): (r: (seq<Byte>, bool))
    ensures |r.0| <= |fp|
    decreases |fp|
  {
    var n := LineLength(fp, MAXLINE + 1);
    if n > MAXLINE then (fp[n..], false)
    else if n == 0 || fp[..n] == CRLF || fp[..n] == [LF] then (fp[n..], true)
    else AfterTrailer(fp[n..])
  }

  /** `_get_chunk_left`: the bytes left in the current chunk, opening the next one if needed;
      `Ok(None)` after the last chunk.  A size line may give a negative number. */
  function NextChunk(r: Reader): (Reader, Result<Option<int>>) {
    if r.left.Some? && r.left.value != 0 then (r, Ok(r.left))
    else if r.left.Some? && |r.fp| < 2 then (r.(fp := []), IncompleteRead([]))
    else
      var fp := if r.left.Some? then r.fp[2..] else r.fp;
      var n := LineLength(fp, MAXLINE + 1);
      if n > MAXLINE then (r.(fp := fp[n..]), LineTooLong)
      else
        var size := ParseSize(fp[..n]);
        if size.None? then (r.(fp := fp[n..], open := false), IncompleteRead([]))
        else if size.value != 0 then (r.(fp := fp[n..], left := size), Ok(size))
        else
          var (rest, ok) := AfterTrailer(fp[n..]);
          if !ok then (r.(fp := rest), LineTooLong) else (Reader(rest, None, false), Ok(None))
  }

  predicate Negative(r: Reader) { r.left.Some? && r.left.value < 0 }

  lemma NoSize()
    ensures ParseSize([]) == None
  {
  }

  lemma NextChunkShrinks(r: Reader)
    ensures |NextChunk(r).0.fp| <= |r.fp|
    ensures NextChunk(r).1.Ok? && NextChunk(r).1.value.Some? ==>
              NextChunk(r).1.value.value != 0 && NextChunk(r).0.left == NextChunk(r).1.value
    ensures NextChunk(r).1.Ok? && Negative(NextChunk(r).0) && !Negative(r) ==> |NextChunk(r).0.fp| < |r.fp|
  {
    NoSize();
    hide LineLength, ParseSize, AfterTrailer;
    var fp := if r.left.Some? && |r.fp| >= 2 then r.fp[2..] else r.fp;
    var n := LineLength(fp, MAXLINE + 1);
    assert fp == [] ==> fp[..n] == [];
  }

  /** `_read_chunked(amt)`; `got` is what the call has read so far.  Reading a negative number of
      bytes reads everything there is. */
  function ReadChunks(r: Reader, amt: Option<nat>, got: seq<Byte>): (Reader, Result<seq<Byte>>)
    decreases |r.fp|, if Negative(r) then 1 else 0
  {
    NextChunkShrinks(r);
    var (r1, left) := NextChunk(r);
    match left
    case LineTooLong => (r1, LineTooLong)
    case IncompleteRead(_) => (r1, IncompleteRead(got))
    case Ok(None) => (r1, Ok(got))
    case Ok(Some(n)) =>
      if amt.Some? && amt.value <= n then
        if |r1.fp| < amt.value then (r1.(fp := []), IncompleteRead(got))
        else (r1.(fp := r1.fp[amt.value..], left := Some(n - amt.value)), Ok(got + r1.fp[..amt.value]))
      else if |r1.fp| < n then (r1.(fp := []), IncompleteRead(got))
      else
        var taken := if n < 0 then |r1.fp| else n;
        ReadChunks(r1.(fp := r1.fp[taken..], left := Some(0)), if amt.Some? then Some(amt.value - n) else None,
                   got + r1.fp[..taken])
  }

  /** The length of `mvb[:n]` for a buffer of `room` bytes. */
  function Slice(room: nat, n: int): (k: nat)
    ensures k <= room
  {
    if n >= room then room else if n >= 0 then n else if room + n >= 0 then room + n else 0
  }

  /** `_readinto_chunked` with room for `room` more bytes; `got` is what is in the buffer so far.
      For a negative size `mvb[:n]` leaves out that many bytes at the end of the buffer. */
  function IntoChunks(r: Reader, room: nat, got: seq<Byte>): (Reader, Result<seq<Byte>>)
    decreases |r.fp|, if Negative(r) then 1 else 0
  {
    NextChunkShrinks(r);
    var (r1, left) := NextChunk(r);
    match left
    case LineTooLong => (r1, LineTooLong)
    case IncompleteRead(_) => (r1, IncompleteRead(got))
    case Ok(None) => (r1, Ok(got))
    case Ok(Some(n)) =>
      var want := Slice(room, n);
      if |r1.fp| < want then (r1.(fp := []), IncompleteRead(got))
      else if room <= n then (r1.(fp := r1.fp[want..], left := Some(n - want)), Ok(got + r1.fp[..want]))
      else IntoChunks(r1.(fp := r1.fp[want..], left := Some(0)), room - want, got + r1.fp[..want])
  }

  function Requested(amt: Option<int>): Option<nat> {
    if amt.Some? && amt.value >= 0 then Some(amt.value) else None
  }

  /** `read(amt)` on a chunked response. */
  function Read(r: Reader, amt: Option<nat>): (Reader, Result<seq<Byte>>) {
    if !r.open then (r, Ok([])) else ReadChunks(r, amt, [])
  }

  // ---------------------------------------------------------------- negative sizes

  /** A read of `amt` bytes from `r` comes upon a negative chunk size. */
  predicate MeetsNegative(r: Reader, amt: nat)
    decreases |r.fp|
  {
    NextChunkShrinks(r);
    var (r1, left) := NextChunk(r);
    && left.Ok? && left.value.Some?
    && var n := left.value.value;
       n < 0 || (n < amt && n <= |r1.fp| && MeetsNegative(r1.(fp := r1.fp[n..], left := Some(0)), amt - n))
  }

  lemma AfterSwallow(r: Reader, amt: Option<nat>, got: seq<Byte>)
    requires r.fp == [] && r.left == Some(0)
    ensures ReadChunks(r, amt, got) == (r, IncompleteRead(got))
  {
  }

  /** If one does, `read` reads the connection to its end and fails, whatever follows the size. */
  lemma {:induction false} NegativeSwallows(r: Reader, amt: nat, got: seq<Byte>)
    requires MeetsNegative(r, amt)
    ensures var (r', res) := ReadChunks(r, Some(amt), got);
            && r'.fp == [] && r'.left == Some(0) && res.IncompleteRead? && got <= res.partial
    decreases |r.fp|
  {
    NextChunkShrinks(r);
    var (r1, left) := NextChunk(r);
    var n := left.value.value;
    if n < 0 {
      assert r1.fp[|r1.fp|..] == [];
      AfterSwallow(r1.(fp := [], left := Some(0)), Some(amt - n), got + r1.fp);
      assert r1.fp[..|r1.fp|] == r1.fp;
      hide NextChunk;
    } else {
      hide NextChunk;
      NegativeSwallows(r1.(fp := r1.fp[n..], left := Some(0)), amt - n, got + r1.fp[..n]);
    }
  }

  /** At the negative size that `r` meets, exactly as many bytes are left on the connection as the
      shortened buffer takes. */
  predicate NegativeFits(r: Reader, amt: nat)
    requires MeetsNegative(r, amt)
    decreases |r.fp|
  {
    NextChunkShrinks(r);
    var (r1, left) := NextChunk(r);
    var n := left.value.value;
    if n < 0 then |r1.fp| == Slice(amt, n)
    else NegativeFits(r1.(fp := r1.fp[n..], left := Some(0)), amt - n)
  }

  /** `readinto` never reports more than it had and what was on the connection. */
  lemma {:induction false} IntoPartial(r: Reader, room: nat, got: seq<Byte>)
    ensures IntoChunks(r, room, got).1.IncompleteRead? ==> |IntoChunks(r, room, got).1.partial| <= |got| + |r.fp|
    decreases |r.fp|, if Negative(r) then 1 else 0
  {
    NextChunkShrinks(r);
    var (r1, left) := NextChunk(r);
    hide NextChunk;
    if left.Ok? && left.value.Some? {
      var n := left.value.value;
      var want := Slice(room, n);
      if |r1.fp| >= want && room > n {
        IntoPartial(r1.(fp := r1.fp[want..], left := Some(0)), room - want, got + r1.fp[..want]);
      }
    }
  }

  /** An open chunk is already open. */
  lemma OpenStays(r: Reader)
    ensures NextChunk(r).1.Ok? && NextChunk(r).1.value.Some? ==> NextChunk(NextChunk(r).0) == NextChunk(r)
    ensures r.left == Some(0) && r.fp != [] ==> |NextChunk(r).0.fp| < |r.fp|
  {
    hide LineLength, ParseSize, AfterTrailer;
  }

  /** Between chunks at least the line end is lost. */
  lemma IntoPartialStrict(r: Reader, room: nat, got: seq<Byte>)
    requires r.left == Some(0) && r.fp != []
    ensures IntoChunks(r, room, got).1.IncompleteRead? ==> |IntoChunks(r, room, got).1.partial| < |got| + |r.fp|
  {
    OpenStays(r);
    IntoPartial(NextChunk(r).0, room, got);
    hide NextChunk;
  }

  lemma IntoNothing(r: Reader, room: nat, got: seq<Byte>)
    requires r.fp == [] && r.left == Some(0)
    ensures IntoChunks(r, room, got) == (r, IncompleteRead(got))
  {
  }

  /** The readers at a negative size: they agree exactly if the shortened buffer takes all. */
  lemma NegativeAgreesIff(r: Reader, amt: nat, got: seq<Byte>)
    requires NextChunk(r).1.Ok? && NextChunk(r).1.value.Some? && NextChunk(r).1.value.value < 0
    ensures IntoChunks(r, amt, got) == ReadChunks(r, Some(amt), got)
            <==> |NextChunk(r).0.fp| == Slice(amt, NextChunk(r).1.value.value)
  {
    NextChunkShrinks(r);
    var (r1, left) := NextChunk(r);
    var n := left.value.value;
    var fp, want := r1.fp, Slice(amt, n);
    AfterSwallow(r1.(fp := [], left := Some(0)), Some(amt - n), got + fp);
    assert fp[..|fp|] == fp && fp[|fp|..] == [];
    hide NextChunk, Slice;
    if |fp| == want {
      IntoNothing(r1.(fp := [], left := Some(0)), amt - want, got + fp);
    } else if |fp| > want {
      IntoPartialStrict(r1.(fp := fp[want..], left := Some(0)), amt - want, got + fp[..want]);
      assert |got + fp[..want]| + |fp[want..]| == |got + fp|;
    }
  }

  /** The two readers agree, in bytes, errors and state, if and only if no negative size comes up,
      or the connection ends just where the buffer shortened by it is full. */
  lemma {:induction false} ReadersAgreeIff(r: Reader, amt: nat, got: seq<Byte>)
    ensures IntoChunks(r, amt, got) == ReadChunks(r, Some(amt), got)
            <==> !MeetsNegative(r, amt) || NegativeFits(r, amt)
    decreases |r.fp|
  {
    NextChunkShrinks(r);
    var (r1, left) := NextChunk(r);
    if left.Ok? && left.value.Some? && left.value.value < 0 { NegativeAgreesIff(r, amt, got); }
    hide NextChunk;
    if left.Ok? && left.value.Some? {
      var n := left.value.value;
      if 0 <= n < amt && n <= |r1.fp| {
        ReadersAgreeIff(r1.(fp := r1.fp[n..], left := Some(0)), amt - n, got + r1.fp[..n]);
      }
    }
  }

  lemma MinusOne(d: seq<Byte>)
    ensures LineLength([MINUS, 49, LF] + d, MAXLINE + 1) == 3 && ParseSize([MINUS, 49, LF]) == Some(-1)
  {
    var s := [MINUS, 49, LF] + d;
    assert s[1..] == [49, LF] + d && s[1..][1..] == [LF] + d;
    assert LineLength(s[1..][1..], MAXLINE - 1) == 1;
    assert LineLength(s[1..], MAXLINE) == 2;
    var line := [MINUS, 49, LF];
    NoExtension(line);
    assert line[..2] == [MINUS, 49];
    assert StripRight(line) == StripRight([MINUS, 49]) == [MINUS, 49];
    assert StripLeft([MINUS, 49]) == [MINUS, 49];
    assert [MINUS, 49][1..] == [49];
    assert HexValue([49]) == Some(1);
  }

  /** The condition can fail: after the size line `-1` the readers differ on the two bytes `d` if
      the buffer holds two, and agree if it holds three. */
  lemma ReadersDiffer(d: seq<Byte>)
    requires |d| == 2
    ensures var r := Reader([MINUS, 49, LF] + d, None, true);
            && IntoChunks(r, 3, []) == ReadChunks(r, Some(3), [])
            && MeetsNegative(r, 2) && ReadChunks(r, Some(2), []).1 == IncompleteRead(d)
            && IntoChunks(r, 2, []).1 == IncompleteRead(d[..1])
  {
    var line := [MINUS, 49, LF];
    var r := Reader(line + d, None, true);
    MinusOne(d);
    assert r.fp[..3] == line && r.fp[3..] == d;
    var r1 := Reader(d, Some(-1), true);
    assert NextChunk(r) == (r1, Ok(Some(-1))) by { hide LineLength, ParseSize; }
    assert NextChunk(r1) == (r1, Ok(Some(-1)));
    ReadersAgreeIff(r, 3, []);
    AfterSwallow(Reader([], Some(0), true), Some(3), d);
    assert d[..2] == d && d[2..] == [] && [] + d == d && [] + d[..1] == d[..1];
    hide LineLength, ParseSize;
    assert NextChunk(Reader(d[1..], Some(0), true)) == (Reader([], Some(0), true), IncompleteRead([]));
    hide NextChunk;
    assert IntoChunks(Reader(d[1..], Some(0), true), 1, d[..1]) == (Reader([], Some(0), true), IncompleteRead(d[..1]));
  }

  // ---------------------------------------------------------------- round trip

  predicate NonEmpty(cs: seq<seq<Byte>>) { forall i :: 0 <= i < |cs| ==> cs[i] != [] }

  /** The size line of every chunk is within the reader's line limit. */
  predicate Fits(cs: seq<seq<Byte>>) { forall i :: 0 <= i < |cs| ==> |Hex(|cs[i]|)| + 2 <= MAXLINE }

  function DropEmpty(cs: seq<seq<Byte>>): (r: seq<seq<Byte>>)
    ensures NonEmpty(r) && (Fits(cs) ==> Fits(r))
    ensures Encode(r) == Encode(cs) && Concat(r) == Concat(cs)
  {
    if cs == [] then []
    else
      var rest := DropEmpty(cs[1..]);
      assert Fits(cs) ==> Fits(cs[1..]);
      if cs[0] == [] then
        assert Encode(cs) == Encode(cs[1..]) && Concat(cs) == Concat(cs[1..]);
        rest
      else
        var r := [cs[0]] + rest;
        assert r[1..] == rest;
        assert forall i :: 0 < i < |r| ==> r[i] == rest[i - 1];
        r
  }

  lemma EncodeSplit(cs: seq<seq<Byte>>, tail: seq<Byte>)
    requires cs != [] && cs[0] != []
    ensures Encode(cs) + tail == Hex(|cs[0]|) + CRLF + (cs[0] + CRLF + (Encode(cs[1..]) + tail))
  {
    hide Hex;
    assert Encode(cs) == EncodeChunk(cs[0]) + Encode(cs[1..]);
  }

  lemma {:induction false} LineAt(line: seq<Byte>, rest: seq<Byte>, limit: nat)
    requires line != [] && line[|line| - 1] == LF && |line| <= limit
    requires forall i :: 0 <= i < |line| - 1 ==> line[i] != LF
    ensures LineLength(line + rest, limit) == |line|
    decreases |line|
  {
    if |line| > 1 {
      assert (line + rest)[1..] == line[1..] + rest;
      LineAt(line[1..], rest, limit - 1);
    }
  }

  lemma HexLine(n: nat, rest: seq<Byte>)
    requires |Hex(n)| + 2 <= MAXLINE
    ensures LineLength(Hex(n) + CRLF + rest, MAXLINE + 1) == |Hex(n)| + 2
  {
    WrittenLine(n);
    SizeLineEnds(SizeLine(Hex(n), [CR], []), n);
    LineAt(Hex(n) + CRLF, rest, MAXLINE + 1);
  }

  /** A chunk as it may arrive: a size line that gives the length of its data, which is not empty. */
  datatype Part = Part(line: SizeLine, data: seq<Byte>)
  {
    predicate Valid() { data != [] && line.Gives(|data|) && |line.Bytes()| <= MAXLINE }
  }

  predicate AllValid(ps: seq<Part>) { forall i :: 0 <= i < |ps| ==> ps[i].Valid() }

  /** Chunks on the wire, and then `end`. */
  function Wire(ps: seq<Part>, end: seq<Byte>): seq<Byte> {
    if ps == [] then end else ps[0].line.Bytes() + (ps[0].data + CRLF + Wire(ps[1..], end))
  }

  function Payload(ps: seq<Part>): seq<Byte> { if ps == [] then [] else ps[0].data + Payload(ps[1..]) }

  predicate IsBlank(line: seq<Byte>) { line == CRLF || line == [LF] }

  /** A line of the trailer: not blank, and within the reader's limit. */
  predicate IsField(line: seq<Byte>) {
    && line != [] && line[|line| - 1] == LF && !IsBlank(line) && |line| <= MAXLINE
    && forall i :: 0 <= i < |line| - 1 ==> line[i] != LF
  }

  predicate AllFields(fields: seq<seq<Byte>>) { forall i :: 0 <= i < |fields| ==> IsField(fields[i]) }

  function Trailer(fields: seq<seq<Byte>>, rest: seq<Byte>): seq<Byte> {
    if fields == [] then rest else fields[0] + Trailer(fields[1..], rest)
  }

  /** `end` is the end of a body and what follows it: a size line that gives 0, trailer fields, a blank
      line, and then `tail`. */
  ghost predicate Ends(end: seq<Byte>, tail: seq<Byte>) {
    exists line: SizeLine, fields, blank ::
      && line.Gives(0) && |line.Bytes()| <= MAXLINE && AllFields(fields) && IsBlank(blank)
      && end == line.Bytes() + Trailer(fields, blank + tail)
  }

  /** The reader stands inside a body: `data` is left of the current chunk, `ps` are the chunks after
      it, `tail` is what follows the body on the connection. */
  ghost predicate StandsAt(r: Reader, data: seq<Byte>, ps: seq<Part>, end: seq<Byte>, tail: seq<Byte>) {
    && r.open && AllValid(ps) && Ends(end, tail)
    && (if r.left.None? then data == [] && r.fp == Wire(ps, end)
        else r.left.value == |data| && r.fp == data + CRLF + Wire(ps, end))
  }

  /** `payload` is still to be delivered, then `tail` remains. */
  ghost predicate Carries(r: Reader, payload: seq<Byte>, tail: seq<Byte>) {
    exists data, ps, end :: StandsAt(r, data, ps, end, tail) && payload == data + Payload(ps)
  }

  /** What follows the CRLF that may be left of the previous chunk. */
  lemma AfterPrevious(r: Reader, ps: seq<Part>, end: seq<Byte>, tail: seq<Byte>)
    requires StandsAt(r, [], ps, end, tail)
    ensures (if r.left.Some? then r.fp[2..] else r.fp) == Wire(ps, end)
    ensures r.left.Some? ==> r.left.value == 0 && |r.fp| >= 2
  {
    hide Ends, Wire;
    if r.left.Some? { assert [] + CRLF + Wire(ps, end) == CRLF + Wire(ps, end); }
  }

  /** The reader takes a size line for what it gives. */
  lemma ReadsSizeLine(line: SizeLine, n: nat, rest: seq<Byte>)
    requires line.Gives(n) && |line.Bytes()| <= MAXLINE
    ensures var fp := line.Bytes() + rest;
            var k := LineLength(fp, MAXLINE + 1);
            k <= MAXLINE && ParseSize(fp[..k]) == Some(n) && fp[k..] == rest
  {
    var s := line.Bytes();
    SizeLineEnds(line, n);
    LineAt(s, rest, MAXLINE + 1);
    ParsesSizeLine(line, n);
    hide LineLength, ParseSize;
    assert (s + rest)[..|s|] == s && (s + rest)[|s|..] == rest;
  }

  /** Reading a size other than 0. */
  lemma NextChunkBy(r: Reader, fp: seq<Byte>, n: nat)
    requires n > 0 && r.open && fp == (if r.left.Some? && |r.fp| >= 2 then r.fp[2..] else r.fp)
    requires r.left.Some? ==> r.left.value == 0 && |r.fp| >= 2
    requires var k := LineLength(fp, MAXLINE + 1); k <= MAXLINE && ParseSize(fp[..k]) == Some(n)
    ensures NextChunk(r) == (Reader(fp[LineLength(fp, MAXLINE + 1)..], Some(n), true), Ok(Some(n)))
  {
    hide LineLength, ParseSize, AfterTrailer;
  }

  /** Opening the next chunk of a body. */
  lemma OpensChunk(r: Reader, ps: seq<Part>, end: seq<Byte>, tail: seq<Byte>)
    requires StandsAt(r, [], ps, end, tail) && ps != []
    ensures var c := ps[0].data;
            NextChunk(r) == (Reader(c + CRLF + Wire(ps[1..], end), Some(|c|), true), Ok(Some(|c|)))
  {
    var c, line := ps[0].data, ps[0].line;
    var rest := c + CRLF + Wire(ps[1..], end);
    AfterPrevious(r, ps, end, tail);
    assert ps[0].Valid();
    assert Wire(ps, end) == line.Bytes() + rest;
    hide *;
    ReadsSizeLine(line, |c|, rest);
    NextChunkBy(r, line.Bytes() + rest, |c|);
  }

  lemma AfterField(line: seq<Byte>, rest: seq<Byte>)
    requires IsField(line) || IsBlank(line)
    ensures AfterTrailer(line + rest) == if IsBlank(line) then (rest, true) else AfterTrailer(rest)
  {
    LineAt(line, rest, MAXLINE + 1);
    assert (line + rest)[..|line|] == line && (line + rest)[|line|..] == rest;
    hide LineLength;
  }

  /** The trailer is discarded up to its blank line. */
  lemma {:induction false} TrailerEnds(fields: seq<seq<Byte>>, blank: seq<Byte>, tail: seq<Byte>)
    requires AllFields(fields) && IsBlank(blank)
    ensures AfterTrailer(Trailer(fields, blank + tail)) == (tail, true)
  {
    if fields == [] {
      AfterField(blank, tail);
    } else {
      assert IsField(fields[0]);
      AfterField(fields[0], Trailer(fields[1..], blank + tail));
      hide AfterTrailer;
      TrailerEnds(fields[1..], blank, tail);
    }
  }

  lemma BlankEnds(tail: seq<Byte>)
    ensures AfterTrailer(CRLF + tail) == (tail, true)
  {
    TrailerEnds([], CRLF, tail);
  }

  /** Reading the last size line and the trailer takes the reader exactly to `tail`. */
  lemma ClosesBody(r: Reader, end: seq<Byte>, tail: seq<Byte>)
    requires StandsAt(r, [], [], end, tail)
    ensures NextChunk(r) == (Reader(tail, None, false), Ok(None))
  {
    AfterPrevious(r, [], end, tail);
    var line: SizeLine, fields, blank :|
      && line.Gives(0) && |line.Bytes()| <= MAXLINE && AllFields(fields) && IsBlank(blank)
      && end == line.Bytes() + Trailer(fields, blank + tail);
    ReadsSizeLine(line, 0, Trailer(fields, blank + tail));
    TrailerEnds(fields, blank, tail);
    hide LineLength, ParseSize, AfterTrailer, Trailer;
  }

  /** The reader as `_get_chunk_left` leaves it, with `data` the bytes of the open chunk. */
  ghost predicate ChunkOpen(r: Reader, data: seq<Byte>, ps: seq<Part>, end: seq<Byte>, tail: seq<Byte>,
                            payload: seq<Byte>)
  {
    && data != [] && AllValid(ps) && Ends(end, tail) && payload == data + Payload(ps)
    && NextChunk(r) == (Reader(data + CRLF + Wire(ps, end), Some(|data|), true), Ok(Some(|data|)))
  }

  lemma OpenChunk(r: Reader, data: seq<Byte>, ps: seq<Part>, end: seq<Byte>, tail: seq<Byte>)
    returns (data': seq<Byte>, ps': seq<Part>)
    requires StandsAt(r, data, ps, end, tail) && (data != [] || ps != [])
    ensures ChunkOpen(r, data', ps', end, tail, data + Payload(ps))
    ensures |ps'| <= |ps| && (data == [] ==> |ps'| < |ps|)
  {
    if data == [] {
      OpensChunk(r, ps, end, tail);
      assert ps[0].Valid();
      hide NextChunk, Ends, Wire;
      assert data + Payload(ps) == ps[0].data + Payload(ps[1..]);
      return ps[0].data, ps[1..];
    }
    return data, ps;
  }

  lemma CutInside(s: seq<Byte>, t: seq<Byte>, a: nat)
    requires a <= |s|
    ensures (s + t)[..a] == s[..a] && (s + t)[a..] == s[a..] + t
  {
  }

  /** The request ends within the open chunk. */
  lemma EndsInChunk(r: Reader, data: seq<Byte>, ps: seq<Part>, end: seq<Byte>, tail: seq<Byte>, payload: seq<Byte>,
                    a: nat, got: seq<Byte>)
    requires ChunkOpen(r, data, ps, end, tail, payload) && a <= |data|
    ensures var (r', res) := ReadChunks(r, Some(a), got);
            res == Ok(got + payload[..a]) && Carries(r', payload[a..], tail)
  {
    hide NextChunk, Wire, Payload, AllValid, Ends;
    var fp := data + CRLF + Wire(ps, end);
    CutInside(data, CRLF + Wire(ps, end), a);
    CutInside(data, Payload(ps), a);
    assert fp == data + (CRLF + Wire(ps, end));
    assert fp[a..] == data[a..] + CRLF + Wire(ps, end);
    assert StandsAt(Reader(fp[a..], Some(|data| - a), true), data[a..], ps, end, tail);
  }

  /** The request takes the whole chunk and goes on. */
  lemma TakesChunk(r: Reader, data: seq<Byte>, ps: seq<Part>, end: seq<Byte>, tail: seq<Byte>, payload: seq<Byte>,
                   amt: Option<nat>, got: seq<Byte>)
    requires ChunkOpen(r, data, ps, end, tail, payload) && (amt.Some? ==> amt.value > |data|)
    ensures var r2 := Reader([] + CRLF + Wire(ps, end), Some(0), true);
            && StandsAt(r2, [], ps, end, tail)
            && ReadChunks(r, amt, got)
               == ReadChunks(r2, if amt.Some? then Some(amt.value - |data|) else None, got + data)
  {
    hide NextChunk, Wire, Payload, AllValid, Ends;
    var fp := data + CRLF + Wire(ps, end);
    assert fp[..|data|] == data && fp[|data|..] == [] + CRLF + Wire(ps, end);
  }

  lemma ThenRest(got: seq<Byte>, data: seq<Byte>, rest: seq<Byte>, amt: Option<nat>)
    requires amt.Some? ==> amt.value > |data|
    ensures [] + rest == rest && (got + data) + rest == got + (data + rest)
    ensures amt.Some? && amt.value - |data| <= |rest| ==>
              (got + data) + rest[..amt.value - |data|] == got + (data + rest)[..amt.value]
              && rest[amt.value - |data|..] == (data + rest)[amt.value..]
  {
  }

  /** One call anywhere in a body delivers the next bytes of the payload and leaves the reader
      standing after them, or delivers all of it and closes exactly at `tail`. */
  lemma {:induction false} ReadsPayload(r: Reader, data: seq<Byte>, ps: seq<Part>, end: seq<Byte>, tail: seq<Byte>,
                                        amt: Option<nat>, got: seq<Byte>)
    requires StandsAt(r, data, ps, end, tail)
    ensures var payload, (r', res) := data + Payload(ps), ReadChunks(r, amt, got);
            if payload != [] && amt.Some? && amt.value <= |payload|
            then res == Ok(got + payload[..amt.value]) && Carries(r', payload[amt.value..], tail)
            else r' == Reader(tail, None, false) && res == Ok(got + payload)
    decreases |ps|, |data|
  {
    var payload := data + Payload(ps);
    if data == [] && ps == [] {
      ClosesBody(r, end, tail);
      hide NextChunk;
      assert got + payload == got;
    } else {
      var data', ps' := OpenChunk(r, data, ps, end, tail);
      hide ReadChunks, Payload, StandsAt, Carries, NextChunk;
      if amt.Some? && amt.value <= |data'| {
        EndsInChunk(r, data', ps', end, tail, payload, amt.value, got);
      } else {
        TakesChunk(r, data', ps', end, tail, payload, amt, got);
        var r2 := Reader([] + CRLF + Wire(ps', end), Some(0), true);
        ReadsPayload(r2, [], ps', end, tail, if amt.Some? then Some(amt.value - |data'|) else None, got + data');
        ThenRest(got, data', Payload(ps'), amt);
      }
    }
  }

  lemma NextStands(data: seq<Byte>, ps: seq<Part>, end: seq<Byte>, tail: seq<Byte>)
    requires AllValid(ps) && Ends(end, tail)
    ensures StandsAt(Reader([] + CRLF + Wire(ps, end), Some(0), true), [], ps, end, tail)
    ensures (data + CRLF + Wire(ps, end))[|data|..] == [] + CRLF + Wire(ps, end)
  {
    hide Wire, Ends;
  }

  /** Such a body has no negative sizes, so on it the two readers agree. */
  lemma {:induction false} BodyNotNegative(r: Reader, data: seq<Byte>, ps: seq<Part>, end: seq<Byte>, tail: seq<Byte>,
                                           amt: nat)
    requires StandsAt(r, data, ps, end, tail)
    ensures !MeetsNegative(r, amt)
    decreases |ps|, |data|
  {
    if data == [] && ps == [] {
      ClosesBody(r, end, tail);
      hide NextChunk;
    } else {
      var data', ps' := OpenChunk(r, data, ps, end, tail);
      NextStands(data', ps', end, tail);
      hide NextChunk, Wire, Payload, Ends, AllValid, StandsAt;
      if |data'| < amt {
        BodyNotNegative(Reader([] + CRLF + Wire(ps', end), Some(0), true), [], ps', end, tail, amt - |data'|);
      }
    }
  }

  /** `readinto` on a body delivers what `read` of the buffer's length does. */
  lemma ReadIntoAgrees(r: Reader, payload: seq<Byte>, tail: seq<Byte>, amt: nat)
    requires Carries(r, payload, tail)
    ensures IntoChunks(r, amt, []) == ReadChunks(r, Some(amt), [])
  {
    var data, ps, end :| StandsAt(r, data, ps, end, tail) && payload == data + Payload(ps);
    BodyNotNegative(r, data, ps, end, tail, amt);
    ReadersAgreeIff(r, amt, []);
  }

  // ---------------------------------------------------------------- sequences of reads

  /** `read(n)`, or `readinto` a buffer of `n` bytes. */
  datatype Request = ByAmount(n: nat) | IntoBuffer(n: nat)

  function Serve(r: Reader, q: Request): (Reader, Result<seq<Byte>>) {
    if !r.open then (r, Ok([]))
    else match q
      case ByAmount(n) => ReadChunks(r, Some(n), [])
      case IntoBuffer(n) => IntoChunks(r, n, [])
  }

  /** Successive requests; the bytes they return, joined, up to the first error. */
  function ReadMany(r: Reader, qs: seq<Request>): (Reader, Result<seq<Byte>>)
    decreases |qs|
  {
    if qs == [] then (r, Ok([]))
    else
      var (r1, first) := Serve(r, qs[0]);
      if !first.Ok? then (r1, first)
      else
        var (r2, rest) := ReadMany(r1, qs[1..]);
        if !rest.Ok? then (r2, rest) else (r2, Ok(first.value + rest.value))
  }

  function Sum(qs: seq<Request>): nat { if qs == [] then 0 else qs[0].n + Sum(qs[1..]) }

  lemma {:induction false} ReadManyClosed(r: Reader, qs: seq<Request>)
    requires !r.open
    ensures ReadMany(r, qs) == (r, Ok([]))
  {
    if qs != [] {
      ReadManyClosed(r, qs[1..]);
      var empty: seq<Byte> := [];
      assert empty + empty == empty;
    }
  }

  lemma NothingBefore(s: seq<Byte>, a: nat)
    ensures [] + s == s && (a <= |s| ==> [] + s[..a] == s[..a])
  {
  }

  lemma CutTwice(s: seq<Byte>, a: nat, b: nat)
    requires a <= |s|
    ensures s[..a] + s[a..] == s
    ensures b <= |s| - a ==> s[..a] + s[a..][..b] == s[..a + b]
  {
  }

  lemma ServesPayload(r: Reader, payload: seq<Byte>, tail: seq<Byte>, q: Request)
    requires Carries(r, payload, tail)
    ensures var (r', res) := Serve(r, q);
            if payload != [] && q.n <= |payload|
            then res == Ok(payload[..q.n]) && Carries(r', payload[q.n..], tail)
            else r' == Reader(tail, None, false) && res == Ok(payload)
  {
    var data, ps, end :| StandsAt(r, data, ps, end, tail) && payload == data + Payload(ps);
    ReadsPayload(r, data, ps, end, tail, Some(q.n), []);
    ReadIntoAgrees(r, payload, tail, q.n);
    hide ReadChunks, IntoChunks, Carries, Payload, StandsAt;
    NothingBefore(payload, q.n);
  }

  /** However the reader's requests cut it up, the payload arrives in order and complete. */
  lemma {:induction false} ReadManyDelivers(r: Reader, payload: seq<Byte>, tail: seq<Byte>, qs: seq<Request>)
    requires Carries(r, payload, tail)
    ensures var (r', res) := ReadMany(r, qs);
            && (Sum(qs) <= |payload| ==> res == Ok(payload[..Sum(qs)]))
            && (Sum(qs) > |payload| ==> res == Ok(payload) && r' == Reader(tail, None, false))
    decreases |qs|
  {
    if qs != [] {
      var a := qs[0].n;
      ServesPayload(r, payload, tail, qs[0]);
      var (r1, first) := Serve(r, qs[0]);
      hide Serve, Carries, ReadChunks, IntoChunks;
      if payload != [] && a <= |payload| {
        ReadManyDelivers(r1, payload[a..], tail, qs[1..]);
        CutTwice(payload, a, Sum(qs[1..]));
      } else {
        ReadManyClosed(r1, qs[1..]);
        assert payload + [] == payload;
        assert Sum(qs) <= |payload| ==> payload[..Sum(qs)] == payload;
      }
    }
  }

  lemma BodyCarries(ps: seq<Part>, end: seq<Byte>, tail: seq<Byte>)
    requires AllValid(ps) && Ends(end, tail)
    ensures Carries(Reader(Wire(ps, end), None, true), Payload(ps), tail)
  {
    hide Wire, Ends, Payload;
    assert StandsAt(Reader(Wire(ps, end), None, true), [], ps, end, tail) && [] + Payload(ps) == Payload(ps);
  }

  /** Every body arrives, whatever the case of its sizes, with chunk extensions and a trailer or
      without: for any sequence of `read` and `readinto` calls that asks for more than it holds,
      exactly the payload is returned and exactly the body is consumed. */
  lemma BodyArrives(ps: seq<Part>, end: seq<Byte>, tail: seq<Byte>, qs: seq<Request>)
    requires AllValid(ps) && Ends(end, tail)
    ensures var (r', res) := ReadMany(Reader(Wire(ps, end), None, true), qs);
            && (Sum(qs) <= |Payload(ps)| ==> res == Ok(Payload(ps)[..Sum(qs)]))
            && (Sum(qs) > |Payload(ps)| ==> res == Ok(Payload(ps)) && r' == Reader(tail, None, false))
  {
    BodyCarries(ps, end, tail);
    hide *;
    ReadManyDelivers(Reader(Wire(ps, end), None, true), Payload(ps), tail, qs);
  }

  /** `read()` without an amount returns the whole of such a body. */
  lemma BodyReadAll(ps: seq<Part>, end: seq<Byte>, tail: seq<Byte>)
    requires AllValid(ps) && Ends(end, tail)
    ensures Read(Reader(Wire(ps, end), None, true), None) == (Reader(tail, None, false), Ok(Payload(ps)))
  {
    var r := Reader(Wire(ps, end), None, true);
    hide Wire, Ends, Payload, ReadChunks, Carries;
    assert StandsAt(r, [], ps, end, tail) && [] + ([] + Payload(ps)) == Payload(ps);
    ReadsPayload(r, [], ps, end, tail, None, []);
  }

  /** The parts the writer sends for nonempty chunks. */
  function Written(cs: seq<seq<Byte>>): seq<Part> {
    if cs == [] then [] else [Part(SizeLine(Hex(|cs[0]|), [CR], []), cs[0])] + Written(cs[1..])
  }

  lemma WrittenFirst(cs: seq<seq<Byte>>, end: seq<Byte>)
    requires cs != []
    ensures var ps := Written(cs);
            && Wire(ps, end) == Hex(|cs[0]|) + CRLF + (cs[0] + CRLF + Wire(Written(cs[1..]), end))
            && Payload(ps) == cs[0] + Payload(Written(cs[1..]))
  {
    var c, ps := cs[0], Written(cs);
    WrittenLine(|c|);
    hide Hex;
    assert ps[0] == Part(SizeLine(Hex(|c|), [CR], []), c) && ps[1..] == Written(cs[1..]);
  }

  lemma {:induction false} WrittenIsWire(cs: seq<seq<Byte>>, tail: seq<Byte>)
    requires NonEmpty(cs) && Fits(cs)
    ensures Encode(cs) + tail == Wire(Written(cs), Encode([]) + tail)
    ensures Payload(Written(cs)) == Concat(cs) && AllValid(Written(cs))
  {
    if cs != [] {
      assert NonEmpty(cs[1..]) && Fits(cs[1..]);
      WrittenIsWire(cs[1..], tail);
      EncodeSplit(cs, tail);
      WrittenFirst(cs, Encode([]) + tail);
      WrittenLine(|cs[0]|);
      hide Hex, Encode, Wire;
      var ps := Written(cs);
      forall i | 0 <= i < |ps| ensures ps[i].Valid() { assert i > 0 ==> ps[i] == Written(cs[1..])[i - 1]; }
    }
  }

  lemma WrittenEnds(tail: seq<Byte>)
    ensures Ends(Encode([]) + tail, tail)
  {
    var line, fields := SizeLine([ZERO], [CR], []), [];
    assert Hex(0) == [ZERO];
    WrittenLine(0);
    assert AllFields(fields) && IsBlank(CRLF) && Trailer(fields, CRLF + tail) == CRLF + tail;
    assert Encode([]) + tail == line.Bytes() + (CRLF + tail);
  }

  /** Decoding inverts encoding: for any chunks and any sequence of `read` and `readinto` calls that
      asks for more than the body holds, exactly the concatenation arrives and exactly the body is
      consumed. */
  lemma ChunkedRoundTrip(cs: seq<seq<Byte>>, tail: seq<Byte>, qs: seq<Request>)
    requires Fits(cs)
    ensures var (r', res) := ReadMany(Reader(Encode(cs) + tail, None, true), qs);
            && (Sum(qs) <= |Concat(cs)| ==> res == Ok(Concat(cs)[..Sum(qs)]))
            && (Sum(qs) > |Concat(cs)| ==> res == Ok(Concat(cs)) && r' == Reader(tail, None, false))
  {
    hide *;
    var ds := DropEmpty(cs);
    WrittenIsWire(ds, tail);
    WrittenEnds(tail);
    BodyArrives(Written(ds), Encode([]) + tail, tail, qs);
  }

  /** `read()` without an amount returns the whole body. */
  lemma ReadAllRoundTrip(cs: seq<seq<Byte>>, tail: seq<Byte>)
    requires Fits(cs)
    ensures Read(Reader(Encode(cs) + tail, None, true), None) == (Reader(tail, None, false), Ok(Concat(cs)))
  {
    hide *;
    var ds := DropEmpty(cs);
    WrittenIsWire(ds, tail);
    WrittenEnds(tail);
    BodyReadAll(Written(ds), Encode([]) + tail, tail);
  }

  // ---------------------------------------------------------------- the response object

  /** The result of the buffer form, with the bytes filled in. */
  function Into(r: Result<nat>, filled: seq<Byte>): Result<seq<Byte>> {
    match r
    case Ok(_) => Ok(filled)
    case IncompleteRead(p) => IncompleteRead(p)
    case LineTooLong => LineTooLong
  }

  class HTTPResponse {
    var fp: seq<Byte>
    var chunkLeft: Option<int>
    var open: bool

    function View(): Reader
      reads this
    {
      Reader(fp, chunkLeft, open)
    }

    constructor (wire: seq<Byte>)
      ensures View() == Reader(wire, None, true)
    {
      fp, chunkLeft, open := wire, None, true;
    }

    /** `fp.readline(limit)`. */
    method ReadLine(limit: nat) returns (line: seq<Byte>)
      modifies this`fp
      ensures line == old(fp)[..LineLength(old(fp), limit)] && fp == old(fp)[LineLength(old(fp), limit)..]
    {
      var n := 0;
      while n < |fp| && n < limit && (n == 0 || fp[n - 1] != LF)
        invariant n <= |fp| && n <= limit
        invariant LineLength(fp, limit) == n + (if n > 0 && fp[n - 1] == LF then 0 else LineLength(fp[n..], limit - n))
      {
        assert fp[n..][1..] == fp[n + 1..];
        n := n + 1;
      }
      line := fp[..n];
      fp := fp[n..];
    }

    method DiscardTrailer() returns (ok: bool)
      modifies this`fp
      ensures (fp, ok) == AfterTrailer(old(fp))
    {
      while true
        invariant AfterTrailer(fp) == AfterTrailer(old(fp))
        decreases |fp|
      {
        var line := ReadLine(MAXLINE + 1);
        if |line| > MAXLINE { return false; }
        if line == [] { return true; }
        if line == CRLF || line == [LF] { return true; }
      }
    }

    method GetChunkLeft() returns (r: Result<Option<int>>)
      modifies this
      ensures (View(), r) == NextChunk(old(View()))
    {
      var left := chunkLeft;
      if left.Some? && left.value != 0 { return Ok(left); }
      if left.Some? {
        // the chunk's data is followed by a line end
        if |fp| < 2 { fp := []; return IncompleteRead([]); }
        fp := fp[2..];
      }
      var line := ReadLine(MAXLINE + 1);
      if |line| > MAXLINE { return LineTooLong; }
      var size := ParseSize(line);
      if size.None? { open := false; return IncompleteRead([]); }
      if size.value == 0 {
        var ok := DiscardTrailer();
        if !ok { return LineTooLong; }
        open, size := false, None;
      }
      chunkLeft := size;
      r := Ok(size);
    }

    /** `_get_chunk_left` as both readers use it: 0 after the last chunk. */
    method OpenChunk() returns (left: int, failed: Option<Result<Option<int>>>)
      modifies this
      ensures View() == NextChunk(old(View())).0 && |fp| <= old(|fp|)
      ensures Negative(View()) && !Negative(old(View())) && failed.None? ==> |fp| < old(|fp|)
      ensures match NextChunk(old(View())).1
              case Ok(None) => left == 0 && failed.None?
              case Ok(Some(n)) => left == n != 0 && failed.None? && chunkLeft == Some(n)
              case x => failed == Some(x)
    {
      NextChunkShrinks(View());
      hide NextChunk;
      left, failed := 0, None;
      var r := GetChunkLeft();
      if !r.Ok? { failed := Some(r); } else if r.value.Some? { left := r.value.value; }
    }

    /** `_read_chunked(amt)`; a negative amount is no amount. */
    method ReadChunked(amt0: Option<int>) returns (r: Result<seq<Byte>>)
      modifies this
      ensures (View(), r) == ReadChunks(old(View()), Requested(amt0), [])
    {
      var amt: Option<nat>, value := Requested(amt0), [];
      hide NextChunk, Requested;
      while true
        invariant ReadChunks(View(), amt, value) == ReadChunks(old(View()), Requested(amt0), [])
        decreases |fp|, if Negative(View()) then 1 else 0
      {
        var left, failed := OpenChunk();
        if failed.Some? { return match failed.value case LineTooLong => LineTooLong case _ => IncompleteRead(value); }
        if left == 0 { break; }
        if amt.Some? && amt.value <= left {
          if |fp| < amt.value { fp := []; return IncompleteRead(value); }
          value := value + fp[..amt.value];
          fp := fp[amt.value..];
          chunkLeft := Some(left - amt.value);
          break;
        }
        if |fp| < left { fp := []; return IncompleteRead(value); }
        var taken := if left < 0 then |fp| else left;
        value := value + fp[..taken];
        fp := fp[taken..];
        if amt.Some? { amt := Some(amt.value - left); }
        chunkLeft := Some(0);
      }
      r := Ok(value);
    }

    /** `fp.readinto` of the part of `b` from `at` on. */
    method Fill(b: array<Byte>, at: nat, n: nat)
      requires at + n <= b.Length && n <= |fp|
      modifies this`fp, b
      ensures fp == old(fp)[n..] && b[..at + n] == old(b[..at]) + old(fp)[..n]
    {
      forall i | 0 <= i < n { b[at + i] := fp[i]; }
      fp := fp[n..];
    }

    /** One turn of the loop in `_readinto_chunked`. */
    method IntoTurn(b: array<Byte>, total: nat) returns (going: bool, total': nat, r: Result<nat>)
      requires total <= b.Length
      modifies this, b
      ensures total' <= b.Length
      ensures IntoChunks(old(View()), b.Length - total, old(b[..total]))
              == if going then IntoChunks(View(), b.Length - total', b[..total'])
                 else (View(), Into(r, b[..total']))
      ensures r.Ok? ==> r.value == total'
      ensures r.IncompleteRead? ==> r.partial == b[..total']
      ensures going ==> !Negative(View()) && (|fp| < old(|fp|) || (|fp| == old(|fp|) && Negative(old(View()))))
    {
      going, total', r := false, total, Ok(total);
      hide NextChunk;
      var left, failed := OpenChunk();
      if failed.Some? { r := if failed.value.LineTooLong? then LineTooLong else IncompleteRead(b[..total]); return; }
      if left == 0 { return; }
      var want := Slice(b.Length - total, left);
      if |fp| < want { fp := []; r := IncompleteRead(b[..total]); return; }
      going := b.Length - total > left;
      Fill(b, total, want);
      chunkLeft := Some(if going then 0 else left - want);
      total' := total + want;
      r := Ok(total');
    }

    /** `_readinto_chunked(b)`: fills `b` from the front. */
    method ReadIntoChunked(b: array<Byte>) returns (r: Result<nat>)
      modifies this, b
      ensures var (v, res) := IntoChunks(old(View()), b.Length, []);
              && View() == v
              && match res
                 case Ok(bytes) => r == Ok(|bytes|) && |bytes| <= b.Length && b[..|bytes|] == bytes
                 case IncompleteRead(p) => r == IncompleteRead(p)
                 case LineTooLong => r == LineTooLong
    {
      var total: nat := 0;
      r := Ok(0);
      var going := true;
      hide IntoChunks;
      while going
        invariant total <= b.Length
        invariant going ==> IntoChunks(View(), b.Length - total, b[..total])
                            == IntoChunks(old(View()), b.Length, [])
        invariant !going ==> (View(), Into(r, b[..total])) == IntoChunks(old(View()), b.Length, [])
        invariant r.Ok? ==> r.value == total
        invariant r.IncompleteRead? ==> r.partial == b[..total]
        decreases going, |fp|, if Negative(View()) then 1 else 0
      {
        going, total, r := IntoTurn(b, total);
      }
    }
  }
}

/** A chunked body that the connection cuts short: `read()` reports the cut exactly when it falls
    before the last chunk's `0`, and never hands out bytes that were not sent. */
module ChunkedTruncation {
  import opened Common
  import opened Chunked

  /** The reader is between chunks with `p` left to read, after the CRLF that may be pending. */
  predicate Between(r: Reader, p: seq<Byte>) {
    r.open && ((r.left == None && r.fp == p) || (r.left == Some(0) && r.fp == CRLF + p))
  }

  /** A chunk is open and nothing more will come. */
  predicate Starved(r: Reader) { r.open && r.fp == [] && r.left.Some? && r.left.value > 0 }

  // ---------------------------------------------------------------- a cut in a size line

  /** A positive size never starts with 0, so no part of it reads as the last chunk. */
  lemma {:induction false} HexPrefix(n: nat, k: nat)
    requires n > 0 && 0 < k <= |Hex(n)|
    ensures HexValue(Hex(n)[..k]).Some? && HexValue(Hex(n)[..k]).value > 0
  {
    if n < 16 {
      assert Hex(n)[..k] == Hex(n);
    } else if k == |Hex(n)| {
      HexRoundTrip(n);
      assert Hex(n)[..k] == Hex(n);
    } else {
      HexPrefix(n / 16, k);
      assert Hex(n)[..k] == Hex(n / 16)[..k];
    }
  }

  lemma ParseDigits(s: seq<Byte>)
    requires s != [] && forall i :: 0 <= i < |s| ==> DigitValue(s[i]).Some?
    ensures ParseSize(s) == ParseSize(s + [CR]) == Signed(s)
    ensures Signed(s) == match HexValue(s) { case None => None case Some(v) => Some(v) }
  {
    var line := s + [CR];
    forall i | 0 <= i < |line| ensures line[i] != SEMICOLON { assert i < |s| ==> DigitValue(s[i]).Some?; }
    forall i | 0 <= i < |s| ensures s[i] != SEMICOLON { assert DigitValue(s[i]).Some?; }
    NoExtension(line);
    NoExtension(s);
    assert line[..|s|] == s && DigitValue(s[|s| - 1]).Some? && DigitValue(s[0]).Some?;
    PlainDigits(s);
    hide HexValue, Signed;
    assert StripRight(line) == StripRight(s) == s && StripLeft(s) == s;
  }

  lemma {:induction false} LastLine(s: seq<Byte>, limit: nat)
    requires LF !in s && |s| <= limit
    ensures LineLength(s, limit) == |s|
    decreases |s|
  {
    if s != [] { LastLine(s[1..], limit - 1); }
  }

  /** What is left of a size line that was cut: nothing, or a positive number and no data. */
  lemma CutSize(n: nat, p: seq<Byte>)
    requires n > 0 && p <= Hex(n) + [CR] && |Hex(n)| + 2 <= MAXLINE
    ensures LineLength(p, MAXLINE + 1) == |p|
    ensures ParseSize(p).Some? ==> ParseSize(p).value > 0
  {
    HexRoundTrip(n);
    var h := Hex(n);
    var k := if |p| <= |h| then |p| else |h|;
    assert p == h[..k] || p == h + [CR];
    forall i | 0 <= i < |p| ensures p[i] != LF { assert i < |h| ==> DigitValue(h[i]).Some?; }
    LastLine(p, MAXLINE + 1);
    hide LineLength, ParseSize;
    if p == [] {
      NoSize();
    } else {
      HexPrefix(n, k);
      ParseDigits(h[..k]);
      assert h[..|h|] == h;
    }
  }

  /** A cut size line: no chunk, or one of which nothing has arrived. */
  lemma CutInSizeLine(r: Reader, p: seq<Byte>, n: nat)
    requires Between(r, p) && n > 0 && p <= Hex(n) + [CR] && |Hex(n)| + 2 <= MAXLINE
    ensures NextChunk(r).1 == IncompleteRead([]) || Starved(NextChunk(r).0)
    ensures NextChunk(r).1 != IncompleteRead([]) ==> NextChunk(r).1 == Ok(NextChunk(r).0.left)
  {
    CutSize(n, p);
    hide LineLength, ParseSize, Hex, AfterTrailer;
    assert r.left.Some? ==> r.fp[2..] == p;
    assert p[..|p|] == p && p[|p|..] == [];
  }

  // ---------------------------------------------------------------- a cut in a chunk

  lemma SizeLineArrived(r: Reader, n: nat, q: seq<Byte>)
    requires n > 0 && |Hex(n)| + 2 <= MAXLINE && Between(r, Hex(n) + CRLF + q)
    ensures NextChunk(r) == (Reader(q, Some(n), true), Ok(Some(n)))
  {
    var p := Hex(n) + CRLF + q;
    HexLine(n, q);
    SizeRoundTrip(n);
    hide LineLength, ParseSize, Hex;
    var k := |Hex(n)| + 2;
    assert p[..k] == Hex(n) + CRLF && p[k..] == q;
    assert r.left.Some? ==> r.fp[2..] == p;
  }

  // ---------------------------------------------------------------- a cut in the last chunk

  lemma TrailerCut(p: seq<Byte>)
    requires p <= CRLF
    ensures AfterTrailer(p) == ([], true)
  {
    if p == CRLF {
      BlankEnds([]);
      assert CRLF + [] == CRLF;
    } else if p != [] {
      assert p == [CR] && p[1..] == [];
      LastLine(p, MAXLINE + 1);
      assert LineLength([], MAXLINE + 1) == 0;
    }
  }

  lemma LastLineCut(p: seq<Byte>)
    requires p != [] && p <= [ZERO] + CRLF + CRLF
    ensures var n := LineLength(p, MAXLINE + 1);
            n <= 3 && ParseSize(p[..n]) == Some(0) && p[n..] <= CRLF
  {
    assert Hex(0) == [ZERO] && HexValue([ZERO]) == Some(0);
    if |p| >= 3 {
      var q := p[3..];
      assert p == Hex(0) + CRLF + q;
      HexLine(0, q);
      SizeRoundTrip(0);
      assert p[..3] == Hex(0) + CRLF;
    } else {
      assert p == [ZERO] || p == [ZERO] + [CR];
      LastLine(p, MAXLINE + 1);
      ParseDigits([ZERO]);
      assert p[..|p|] == p;
    }
  }

  /** The blank line after the last chunk may be missing. */
  lemma LastChunkCut(r: Reader, p: seq<Byte>)
    requires Between(r, p) && p <= Encode([])
    ensures if p == [] then NextChunk(r).1 == IncompleteRead([])
            else NextChunk(r) == (Reader([], None, false), Ok(None))
  {
    assert r.left.Some? ==> r.fp[2..] == p;
    if p == [] {
      NoSize();
      assert LineLength(p, MAXLINE + 1) == 0;
      hide ParseSize, AfterTrailer, LineLength;
    } else {
      LastLineCut(p);
      TrailerCut(p[LineLength(p, MAXLINE + 1)..]);
      hide ParseSize, AfterTrailer, LineLength;
    }
  }

  // ---------------------------------------------------------------- a cut anywhere

  lemma {:induction false} AtLeastLast(cs: seq<seq<Byte>>)
    ensures |Encode(cs)| >= 5
  {
    if cs != [] { AtLeastLast(cs[1..]); }
  }

  lemma EncodeFirst(cs: seq<seq<Byte>>)
    requires cs != [] && cs[0] != []
    ensures Encode(cs) == Hex(|cs[0]|) + CRLF + (cs[0] + CRLF + Encode(cs[1..]))
    ensures Concat(cs) == cs[0] + Concat(cs[1..])
    ensures |Encode(cs[1..])| >= 5
  {
    hide Hex;
    EncodeSplit(cs, []);
    assert Encode(cs) + [] == Encode(cs) && Encode(cs[1..]) + [] == Encode(cs[1..]);
    AtLeastLast(cs[1..]);
  }

  lemma PrefixSplit(p: seq<Byte>, a: seq<Byte>, b: seq<Byte>)
    requires p <= a + b && |p| >= |a|
    ensures p == a + p[|a|..] && p[|a|..] <= b
  {
    assert p[..|a|] == a;
  }

  lemma SizeCut(p: seq<Byte>, size: seq<Byte>, rest: seq<Byte>)
    requires p <= size + rest && |p| < |size| && |size| >= 2 && size[|size| - 2] == CR
    ensures p <= size[..|size| - 2] + [CR]
  {
    assert size[..|size| - 2] + [CR] == size[..|size| - 1];
  }

  /** What was sent from here on: the rest of the open chunk, if any, and the chunks `cs`. */
  function Sent(left: Option<int>, data: seq<Byte>, cs: seq<seq<Byte>>): seq<Byte> {
    if left.None? then Encode(cs) else data + (CRLF + Encode(cs))
  }

  /** The reader stands inside an encoded body that lacks its last `missing` bytes: `data` is left
      of the current chunk, `cs` are the chunks after it. */
  predicate CutAt(r: Reader, data: seq<Byte>, cs: seq<seq<Byte>>, missing: nat) {
    && r.open && NonEmpty(cs) && Fits(cs)
    && (if r.left.None? then data == [] else r.left.value == |data|)
    && r.fp <= Sent(r.left, data, cs) && |r.fp| + missing == |Sent(r.left, data, cs)|
  }

  /** `payload` was still to be delivered when the body was cut. */
  ghost predicate Cut(r: Reader, payload: seq<Byte>, missing: nat) {
    || (Starved(r) && missing > 4 && payload != [])
    || exists data, cs :: CutAt(r, data, cs, missing) && payload == data + Concat(cs)
  }

  /** How `res` and the reader after it relate to a body cut by `missing` bytes, for a request of
      `amt` bytes with `got` read before: the bytes asked for, all of them at a body that misses no
      more than its last line ends, or an error that hands out nothing that was not sent. */
  ghost predicate Served(r': Reader, res: Result<seq<Byte>>, payload: seq<Byte>, missing: nat,
                         amt: Option<nat>, got: seq<Byte>)
  {
    match res
    case Ok(b) =>
      if payload != [] && amt.Some? && amt.value <= |payload|
      then b == got + payload[..amt.value] && Cut(r', payload[amt.value..], missing)
      else b == got + payload && !r'.open && missing <= 4
    case IncompleteRead(part) => got <= part <= got + payload && missing > 4
    case LineTooLong => false
  }

  /** Opening a chunk first and then reading is reading. */
  lemma ReadOpened(r: Reader, amt: Option<nat>, got: seq<Byte>)
    requires NextChunk(r).1.Ok? && NextChunk(r).1.value.Some?
    ensures ReadChunks(NextChunk(r).0, amt, got) == ReadChunks(r, amt, got)
  {
    OpenStays(r);
    hide NextChunk;
  }

  lemma ServedStarved(r: Reader, payload: seq<Byte>, missing: nat, amt: Option<nat>, got: seq<Byte>)
    requires Starved(r) && missing > 4 && payload != []
    ensures var (r', res) := ReadChunks(r, amt, got); Served(r', res, payload, missing, amt, got)
  {
    assert NextChunk(r) == (r, Ok(r.left));
    hide NextChunk;
    assert payload[..0] == [] && payload[0..] == payload && got + [] == got;
    assert amt == Some(0) ==> r.(fp := r.fp[0..], left := Some(r.left.value - 0)) == r;
    assert got + r.fp[..0] == got;
  }

  lemma ServedNothing(r: Reader, r': Reader, payload: seq<Byte>, missing: nat, amt: Option<nat>, got: seq<Byte>)
    requires missing > 4
    ensures Served(r', IncompleteRead(got), payload, missing, amt, got)
  {
  }

  /** The request ends within the open chunk, or the cut comes before. */
  lemma ServedInChunk(r: Reader, data: seq<Byte>, cs: seq<seq<Byte>>, missing: nat, a: nat, got: seq<Byte>)
    requires CutAt(r, data, cs, missing) && data != [] && a <= |data|
    ensures var (r', res) := ReadChunks(r, Some(a), got); Served(r', res, data + Concat(cs), missing, Some(a), got)
  {
    AtLeastLast(cs);
    assert NextChunk(r) == (r, Ok(Some(|data|)));
    hide NextChunk, Encode, Concat, NonEmpty, Fits;
    var payload, after := data + Concat(cs), CRLF + Encode(cs);
    if |r.fp| >= a {
      CutInside(data, Concat(cs), a);
      CutInside(data, after, a);
      assert r.fp[..a] == (data + after)[..a];
      assert r.fp[a..] <= (data + after)[a..];
      assert CutAt(r.(fp := r.fp[a..], left := Some(|data| - a)), data[a..], cs, missing);
    }
  }

  lemma ReadTakes(r: Reader, n: nat, amt: Option<nat>, got: seq<Byte>)
    requires n > 0 && r.left == Some(n) && (amt.Some? ==> amt.value > n)
    ensures |r.fp| < n ==> ReadChunks(r, amt, got).1 == IncompleteRead(got)
    ensures |r.fp| >= n ==>
              ReadChunks(r, amt, got)
              == ReadChunks(r.(fp := r.fp[n..], left := Some(0)), if amt.Some? then Some(amt.value - n) else None,
                            got + r.fp[..n])
  {
    assert NextChunk(r) == (r, Ok(Some(n)));
    hide NextChunk;
  }

  /** The whole chunk is taken, or the cut comes before its end. */
  lemma TakeCut(r: Reader, data: seq<Byte>, cs: seq<seq<Byte>>, missing: nat, amt: Option<nat>, got: seq<Byte>)
    requires CutAt(r, data, cs, missing) && data != [] && (amt.Some? ==> amt.value > |data|)
    ensures |r.fp| < |data| ==> missing > 4 && ReadChunks(r, amt, got).1 == IncompleteRead(got)
    ensures |r.fp| >= |data| ==>
              var r2 := Reader(r.fp[|data|..], Some(0), true);
              && CutAt(r2, [], cs, missing)
              && ReadChunks(r, amt, got)
                 == ReadChunks(r2, if amt.Some? then Some(amt.value - |data|) else None, got + data)
  {
    AtLeastLast(cs);
    hide ReadChunks, Encode, NonEmpty, Fits;
    ReadTakes(r, |data|, amt, got);
    if |r.fp| >= |data| {
      PrefixSplit(r.fp, data, CRLF + Encode(cs));
      assert r.fp[..|data|] == data;
      assert [] + (CRLF + Encode(cs)) == CRLF + Encode(cs);
    }
  }

  /** Between chunks: what is left to read of the next ones, or the line end itself is cut. */
  lemma BetweenCut(r: Reader, cs: seq<seq<Byte>>, missing: nat)
    requires CutAt(r, [], cs, missing)
    ensures |r.fp| < 2 && r.left.Some? ==> missing > 4 && NextChunk(r).1 == IncompleteRead([])
    ensures |r.fp| >= 2 || r.left.None? ==>
              var p := if r.left.Some? then r.fp[2..] else r.fp;
              Between(r, p) && p <= Encode(cs) && |p| + missing == |Encode(cs)|
  {
    AtLeastLast(cs);
    hide Encode, ParseSize, LineLength, AfterTrailer;
    if r.left.Some? {
      assert [] + (CRLF + Encode(cs)) == CRLF + Encode(cs);
      if |r.fp| >= 2 { PrefixSplit(r.fp, CRLF, Encode(cs)); }
    }
  }

  /** The next chunk, if its size line arrived whole. */
  lemma OpenCut(r: Reader, p: seq<Byte>, cs: seq<seq<Byte>>, missing: nat)
    requires Between(r, p) && p <= Encode(cs) && |p| + missing == |Encode(cs)| && cs != [] && NonEmpty(cs) && Fits(cs)
    ensures var (r1, left) := NextChunk(r);
            || (missing > 4 && left == IncompleteRead([]))
            || (missing > 4 && Starved(r1) && left == Ok(r1.left))
            || (CutAt(r1, cs[0], cs[1..], missing) && left == Ok(Some(|cs[0]|)))
  {
    EncodeFirst(cs);
    hide NextChunk, Encode, Hex, Between;
    var c, more, size := cs[0], Encode(cs[1..]), Hex(|cs[0]|) + CRLF;
    assert Fits(cs[1..]) && NonEmpty(cs[1..]);
    if |p| < |size| {
      SizeCut(p, size, c + CRLF + more);
      CutInSizeLine(r, p, |c|);
    } else {
      PrefixSplit(p, size, c + CRLF + more);
      SizeLineArrived(r, |c|, p[|size|..]);
      Associate(c, CRLF, more);
    }
  }

  lemma ShorterPrefix(a: seq<Byte>, b: seq<Byte>, s: seq<Byte>)
    ensures a + b <= s ==> a <= s
  {
    if a + b <= s { assert s[..|a|] == a; }
  }

  /** From the end of the chunk back to its beginning. */
  lemma ServedLater(r': Reader, res: Result<seq<Byte>>, data: seq<Byte>, rest: seq<Byte>, missing: nat,
                    amt: Option<nat>, got: seq<Byte>)
    requires amt.Some? ==> amt.value > |data|
    requires Served(r', res, [] + rest, missing, if amt.Some? then Some(amt.value - |data|) else None, got + data)
    ensures Served(r', res, data + rest, missing, amt, got)
  {
    hide Cut;
    ThenRest(got, data, rest, amt);
    if res.IncompleteRead? { ShorterPrefix(got, data, res.partial); }
  }

  /** Any request anywhere in a cut body. */
  lemma {:induction false} CutServed(r: Reader, data: seq<Byte>, cs: seq<seq<Byte>>, missing: nat,
                                     amt: Option<nat>, got: seq<Byte>)
    requires CutAt(r, data, cs, missing)
    ensures var (r', res) := ReadChunks(r, amt, got); Served(r', res, data + Concat(cs), missing, amt, got)
    decreases |cs|, |data|, 1
  {
    hide CutAt, Served, Concat, Cut, Encode;
    if data != [] && amt.Some? && amt.value <= |data| {
      hide ReadChunks;
      ServedInChunk(r, data, cs, missing, amt.value, got);
    } else if data != [] {
      hide ReadChunks;
      TakeCut(r, data, cs, missing, amt, got);
      if |r.fp| < |data| {
        ServedNothing(r, ReadChunks(r, amt, got).0, data + Concat(cs), missing, amt, got);
      } else {
        var amt' := if amt.Some? then Some(amt.value - |data|) else None;
        CutServed(Reader(r.fp[|data|..], Some(0), true), [], cs, missing, amt', got + data);
        ServedLater(ReadChunks(r, amt, got).0, ReadChunks(r, amt, got).1, data, Concat(cs), missing, amt, got);
      }
    } else {
      CutServedBetween(r, cs, missing, amt, got);
    }
  }

  lemma {:induction false} CutServedBetween(r: Reader, cs: seq<seq<Byte>>, missing: nat,
                                            amt: Option<nat>, got: seq<Byte>)
    requires CutAt(r, [], cs, missing)
    ensures var (r', res) := ReadChunks(r, amt, got); Served(r', res, [] + Concat(cs), missing, amt, got)
    decreases |cs|, 0, 0
  {
    BetweenCut(r, cs, missing);
    var (r1, left) := NextChunk(r);
    var payload := [] + Concat(cs);
    if |r.fp| < 2 && r.left.Some? {
      ServedNothing(r, r1, payload, missing, amt, got);
    } else {
      var p := if r.left.Some? then r.fp[2..] else r.fp;
      if cs == [] {
        LastChunkCut(r, p);
        assert got + payload == got;
        hide NextChunk, Cut;
      } else {
        OpenCut(r, p, cs, missing);
        hide NextChunk, CutAt, Between, Served;
        assert payload == cs[0] + Concat(cs[1..]);
        if left == IncompleteRead([]) {
          ServedNothing(r, r1, payload, missing, amt, got);
        } else {
          ReadOpened(r, amt, got);
          hide ReadChunks, Concat;
          if Starved(r1) && missing > 4 {
            ServedStarved(r1, payload, missing, amt, got);
          } else {
            CutServed(r1, cs[0], cs[1..], missing, amt, got);
          }
        }
      }
    }
  }

  // ---------------------------------------------------------------- both readers, any requests

  lemma MeetsOpened(r: Reader, amt: nat)
    requires NextChunk(r).1.Ok? && NextChunk(r).1.value.Some?
    ensures MeetsNegative(NextChunk(r).0, amt) == MeetsNegative(r, amt)
  {
    OpenStays(r);
    hide NextChunk;
  }

  lemma StarvedNotNegative(r: Reader, amt: nat)
    requires Starved(r)
    ensures !MeetsNegative(r, amt)
  {
    assert NextChunk(r) == (r, Ok(r.left));
    hide NextChunk;
  }

  /** A cut body has no negative sizes either. */
  lemma {:induction false} CutNotNegative(r: Reader, data: seq<Byte>, cs: seq<seq<Byte>>, missing: nat, amt: nat)
    requires CutAt(r, data, cs, missing)
    ensures !MeetsNegative(r, amt)
    decreases |cs|, |data|
  {
    if data != [] {
      TakeCut(r, data, cs, missing, None, []);
      assert NextChunk(r) == (r, Ok(Some(|data|)));
      hide NextChunk, Encode, ReadChunks, CutAt;
      if |data| < amt && |r.fp| >= |data| {
        CutNotNegative(Reader(r.fp[|data|..], Some(0), true), [], cs, missing, amt - |data|);
      }
    } else {
      BetweenCut(r, cs, missing);
      if |r.fp| >= 2 || r.left.None? {
        var p := if r.left.Some? then r.fp[2..] else r.fp;
        if cs == [] {
          LastChunkCut(r, p);
        } else {
          OpenCut(r, p, cs, missing);
          hide NextChunk, Encode, CutAt, Between;
          if NextChunk(r).1.Ok? {
            MeetsOpened(r, amt);
            if Starved(NextChunk(r).0) && missing > 4 { StarvedNotNegative(NextChunk(r).0, amt); }
            else { CutNotNegative(NextChunk(r).0, cs[0], cs[1..], missing, amt); }
          }
        }
      }
    }
  }

  /** One request, by either reader. */
  lemma ServeCut(r: Reader, payload: seq<Byte>, missing: nat, q: Request)
    requires Cut(r, payload, missing)
    ensures r.open
    ensures var (r', res) := Serve(r, q); Served(r', res, payload, missing, Some(q.n), [])
  {
    if Starved(r) && missing > 4 && payload != [] {
      StarvedNotNegative(r, q.n);
      ServedStarved(r, payload, missing, Some(q.n), []);
    } else {
      var data, cs :| CutAt(r, data, cs, missing) && payload == data + Concat(cs);
      CutNotNegative(r, data, cs, missing, q.n);
      CutServed(r, data, cs, missing, Some(q.n), []);
    }
    ReadersAgreeIff(r, q.n, []);
    hide ReadChunks, IntoChunks, Served, MeetsNegative;
  }

  predicate PieceAt(x: seq<Byte>, s: seq<Byte>, i: nat) { i <= |s| && x <= s[i..] }

  /** `x` is a piece of `s`. */
  ghost predicate PieceOf(x: seq<Byte>, s: seq<Byte>) { exists i: nat :: PieceAt(x, s, i) }

  lemma PieceLater(x: seq<Byte>, s: seq<Byte>, a: nat)
    requires a <= |s| && PieceOf(x, s[a..])
    ensures PieceOf(x, s)
  {
    var i: nat :| PieceAt(x, s[a..], i);
    assert s[a..][i..] == s[a + i..];
    assert PieceAt(x, s, a + i);
  }

  /** What any sequence of requests gives from a cut body. */
  ghost predicate Delivered(res: Result<seq<Byte>>, payload: seq<Byte>, missing: nat, total: nat) {
    match res
    case Ok(b) => if total <= |payload| then b == payload[..total] else b == payload && missing <= 4
    case IncompleteRead(part) => missing > 4 && PieceOf(part, payload)
    case LineTooLong => false
  }

  lemma DeliveredLater(res: Result<seq<Byte>>, payload: seq<Byte>, missing: nat, a: nat, total: nat)
    requires a <= |payload| && Delivered(res, payload[a..], missing, total)
    ensures Delivered(if res.Ok? then Ok(payload[..a] + res.value) else res, payload, missing, a + total)
  {
    CutTwice(payload, a, total);
    if res.IncompleteRead? { PieceLater(res.partial, payload, a); }
  }

  lemma {:induction false} ReadManyCut(r: Reader, payload: seq<Byte>, missing: nat, qs: seq<Request>)
    requires Cut(r, payload, missing)
    ensures Delivered(ReadMany(r, qs).1, payload, missing, Sum(qs))
    decreases |qs|
  {
    if qs != [] {
      var a := qs[0].n;
      ServeCut(r, payload, missing, qs[0]);
      var (r1, first) := Serve(r, qs[0]);
      hide Serve, Cut;
      match first
      case IncompleteRead(part) =>
        assert [] + payload == payload && payload[0..] == payload;
        assert PieceAt(part, payload, 0);
      case Ok(b) =>
        assert [] + payload == payload;
        if payload != [] && a <= |payload| {
          assert [] + payload[..a] == payload[..a];
          ReadManyCut(r1, payload[a..], missing, qs[1..]);
          DeliveredLater(ReadMany(r1, qs[1..]).1, payload, missing, a, Sum(qs[1..]));
        } else {
          ReadManyClosed(r1, qs[1..]);
          assert b + [] == b;
          assert Sum(qs) <= |payload| ==> payload[..Sum(qs)] == payload;
        }
    }
  }

  lemma StartCut(p: seq<Byte>, cs: seq<seq<Byte>>) returns (ds: seq<seq<Byte>>)
    requires Fits(cs) && p <= Encode(cs)
    ensures Encode(ds) == Encode(cs) && Concat(ds) == Concat(cs)
    ensures CutAt(Reader(p, None, true), [], ds, |Encode(cs)| - |p|)
  {
    ds := DropEmpty(cs);
  }

  /** `read()` of any first part `p` of an encoded body: the payload is returned whole exactly when
      everything up to the `0` of the last chunk arrived; otherwise IncompleteRead carries a
      prefix of it. */
  lemma TruncationDetected(p: seq<Byte>, cs: seq<seq<Byte>>)
    requires Fits(cs) && p <= Encode(cs)
    ensures var res := Read(Reader(p, None, true), None).1;
            && (res.Ok? <==> |p| + 4 >= |Encode(cs)|)
            && (res.Ok? ==> res.value == Concat(cs))
            && (!res.Ok? ==> res.IncompleteRead? && res.partial <= Concat(cs))
  {
    var ds := StartCut(p, cs);
    CutServed(Reader(p, None, true), [], ds, |Encode(cs)| - |p|, None, []);
    assert [] + ([] + Concat(ds)) == Concat(cs) && [] + Concat(ds) == Concat(cs);
    hide ReadChunks, Encode, Concat, Cut;
  }

  /** Any sequence of `read` and `readinto` sizes on a first part `p` of an encoded body.  If all up
      to the `0` of the last chunk arrived, they see no difference.  If not, they get the bytes they
      ask for or IncompleteRead with a piece of the payload: no sequence of requests takes the cut
      for the end. */
  lemma TruncationDetectedByRequests(p: seq<Byte>, cs: seq<seq<Byte>>, qs: seq<Request>)
    requires Fits(cs) && p <= Encode(cs)
    ensures var res, payload := ReadMany(Reader(p, None, true), qs).1, Concat(cs);
            if |p| + 4 >= |Encode(cs)|
            then res == Ok(if Sum(qs) <= |payload| then payload[..Sum(qs)] else payload)
            else if res.Ok? then Sum(qs) <= |payload| && res.value == payload[..Sum(qs)]
            else res.IncompleteRead? && PieceOf(res.partial, payload)
  {
    var ds := StartCut(p, cs);
    var r, missing := Reader(p, None, true), |Encode(cs)| - |p|;
    assert Cut(r, Concat(cs), missing) by {
      assert CutAt(r, [], ds, missing) && Concat(cs) == [] + Concat(ds);
    }
    hide Cut, ReadMany, Encode, Concat;
    ReadManyCut(r, Concat(cs), missing, qs);
  }
}

/** Base32, section 6 of RFC 4648, as `base64.b32encode` and `b32decode` implement it. */
module Base32 {
  import opened Common

  const PAD: Byte := 61

  /** `_b32tab`. */
  function Symbol(n: nat): Byte
    requires n < 32
  {
    if n < 26 then 65 + n else 24 + n
  }

  /** `_b32rev.get`. */
  function Value(c: Byte): Option<nat> {
    if 65 <= c <= 90 then Some(c - 65) else if 50 <= c <= 55 then Some(c - 24) else None
  }

  const FIGURES := "234567"

  /** The alphabet of section 6 of RFC 4648, in order, is written and read. */
  lemma Alphabet(n: nat, c: Byte)
    requires n < 32
    ensures var alphabet := CAPITALS + FIGURES;
            && |alphabet| == 32 && Symbol(n) == alphabet[n] as int && PAD == '=' as int
            && (Value(c) == Some(n) <==> c == alphabet[n] as int)
  {
    if n < 26 { CapitalAt(n); } else { assert n - 26 in {0, 1, 2, 3, 4, 5}; }
  }

  /** Five-bit digits. */
  type Digit = d: int | 0 <= d < 32

  datatype Digits = Digits(v0: Digit, v1: Digit, v2: Digit, v3: Digit, v4: Digit, v5: Digit, v6: Digit, v7: Digit)

  /** The eight digits of a quantum, cut out of 16, 17 and 10 bit pieces as the source does. */
  function Cut(a: Byte, b: Byte, c: Byte, d: Byte, e: Byte): Digits {
    var c1 := a * 256 + b;
    var c2 := c * 256 + d + c1 % 2 * 65536;
    var c3 := e + c2 % 4 * 256;
    Digits(c1 / 2048, c1 / 64 % 32, c1 / 2 % 32, c2 / 4096, c2 / 128 % 32, c2 / 4 % 32, c3 / 32, c3 % 32)
  }

  function Number(a: Byte, b: Byte, c: Byte, d: Byte, e: Byte): nat {
    a * 0x1_0000_0000 + b * 0x100_0000 + c * 0x1_0000 + d * 0x100 + e
  }

  /** The 40-bit number that the digits spell. */
  function Sum(v: Digits): nat {
    v.v0 * 0x8_0000_0000 + v.v1 * 0x4000_0000 + v.v2 * 0x200_0000 + v.v3 * 0x10_0000
    + v.v4 * 0x8000 + v.v5 * 0x400 + v.v6 * 0x20 + v.v7
  }

  lemma SplitC1(c1: nat)
    requires c1 < 65536
    ensures c1 == c1 / 2048 * 2048 + c1 / 64 % 32 * 64 + c1 / 2 % 32 * 2 + c1 % 2
  {
  }

  lemma SplitC2(c2: nat)
    requires c2 < 131072
    ensures c2 == c2 / 4096 * 4096 + c2 / 128 % 32 * 128 + c2 / 4 % 32 * 4 + c2 % 4
  {
    var q := c2 / 4;
    assert c2 / 128 == q / 32 && c2 / 4096 == q / 1024;
  }

  /** The pieces spell the quantum's bytes. */
  lemma CutIsExact(a: Byte, b: Byte, c: Byte, d: Byte, e: Byte)
    ensures Sum(Cut(a, b, c, d, e)) == Number(a, b, c, d, e)
  {
    var c1 := a * 256 + b;
    var c2 := c * 256 + d + c1 % 2 * 65536;
    SplitC1(c1);
    SplitC2(c2);
  }

  /** `unhexlify('%010x' % acc)`: the number as five bytes. */
  function Bytes5(acc: nat): seq<Byte>
    requires acc < 0x100_0000_0000
  {
    var q1 := acc / 256;
    var q2 := q1 / 256;
    var q3 := q2 / 256;
    [q3 / 256, q3 % 256, q2 % 256, q1 % 256, acc % 256]
  }

  lemma Divide256(x: nat, q: nat, r: nat)
    requires x == 256 * q + r && r < 256
    ensures x / 256 == q && x % 256 == r
  {
  }

  lemma BytesOfNumber(a: Byte, b: Byte, c: Byte, d: Byte, e: Byte)
    ensures Number(a, b, c, d, e) < 0x100_0000_0000
    ensures Bytes5(Number(a, b, c, d, e)) == [a, b, c, d, e]
  {
    Divide256(Number(a, b, c, d, e), a * 0x100_0000 + b * 0x1_0000 + c * 0x100 + d, e);
    Divide256(a * 0x100_0000 + b * 0x1_0000 + c * 0x100 + d, a * 0x1_0000 + b * 0x100 + c, d);
    Divide256(a * 0x1_0000 + b * 0x100 + c, a * 0x100 + b, c);
    Divide256(a * 0x100 + b, a, b);
  }

  // ---------------------------------------------------------------- encoding

  function Symbols(v: Digits): seq<Byte> {
    [Symbol(v.v0), Symbol(v.v1), Symbol(v.v2), Symbol(v.v3), Symbol(v.v4), Symbol(v.v5), Symbol(v.v6), Symbol(v.v7)]
  }

  function Quantum(s: seq<Byte>): seq<Byte>
    requires |s| == 5
  {
    Symbols(Cut(s[0], s[1], s[2], s[3], s[4]))
  }

  /** How many symbols of the last quantum carry bits of its `n` bytes. */
  function Kept(n: nat): nat
    requires n < 5
  {
    [0, 2, 4, 5, 7][n]
  }

  /** As many as it takes to hold them. */
  lemma KeptIsLeast(n: nat)
    requires n < 5
    ensures 8 * n <= 5 * Kept(n) < 8 * n + 5
  {
    assert n in {0, 1, 2, 3, 4};
  }

  function Fill(x: Byte, n: nat): (r: seq<Byte>)
    ensures |r| == n
  {
    seq(n, i => x)
  }

  /** The reference encoding, five bytes to eight symbols. */
  function Encode(s: seq<Byte>): seq<Byte> {
    if s == [] then []
    else if |s| < 5 then Quantum(s + Fill(0, 5 - |s|))[..Kept(|s|)] + Fill(PAD, 8 - Kept(|s|))
    else Quantum(s[..5]) + Encode(s[5..])
  }

  /** The symbols of `n` whole quanta. */
  function Quanta(s: seq<Byte>, n: nat): seq<Byte>
    requires |s| == 5 * n
  {
    if n == 0 then [] else Quanta(s[..5 * (n - 1)], n - 1) + Quantum(s[5 * (n - 1)..])
  }

  lemma EncodeFirst(q: seq<Byte>, t: seq<Byte>)
    requires |q| == 5
    ensures Encode(q + t) == Quantum(q) + Encode(t)
  {
    hide Quantum;
    assert (q + t)[..5] == q && (q + t)[5..] == t;
  }

  lemma QuantaLast(g: seq<Byte>, n: nat, q: seq<Byte>)
    requires |g| == 5 * n && |q| == 5
    ensures Quanta(g + q, n + 1) == Quanta(g, n) + Quantum(q)
  {
    hide Quantum;
    assert (g + q)[..5 * n] == g && (g + q)[5 * n..] == q;
  }

  lemma {:induction false} EncodeQuanta(g: seq<Byte>, n: nat, t: seq<Byte>)
    requires |g| == 5 * n
    ensures Encode(g + t) == Quanta(g, n) + Encode(t)
    decreases n
  {
    if n == 0 {
      assert g + t == t;
    } else {
      hide *;
      var g', q := g[..5 * (n - 1)], g[5 * (n - 1)..];
      assert g == g' + q;
      Associate(g', q, t);
      EncodeQuanta(g', n - 1, q + t);
      EncodeFirst(q, t);
      QuantaLast(g', n - 1, q);
      Associate(Quanta(g', n - 1), Quantum(q), Encode(t));
    }
  }

  /** The loop over the quanta of a zero-padded input. */
  method EncodeAll(s: seq<Byte>, quanta: nat) returns (encoded: seq<Byte>)
    requires |s| == 5 * quanta
    ensures encoded == Quanta(s, quanta)
  {
    encoded := [];
    hide Quantum;
    for i := 0 to quanta
      invariant encoded == Quanta(s[..5 * i], i)
    {
      assert s[..5 * (i + 1)] == s[..5 * i] + s[5 * i..5 * (i + 1)];
      QuantaLast(s[..5 * i], i, s[5 * i..5 * (i + 1)]);
      encoded := encoded + Quantum(s[5 * i..5 * (i + 1)]);
    }
    assert s[..5 * quanta] == s;
  }

  lemma WholeQuanta(s: seq<Byte>, n: nat)
    requires |s| == 5 * n
    ensures Encode(s) == Quanta(s, n)
  {
    EncodeQuanta(s, n, []);
    assert s + [] == s;
    assert Encode([]) == [];
    hide Quanta, Encode;
    assert Quanta(s, n) + [] == Quanta(s, n);
  }

  lemma CutLast(a: seq<Byte>, b: seq<Byte>, k: nat, pad: seq<Byte>)
    requires |b| == 8 && k <= 8
    ensures (a + b)[..|a + b| - (8 - k)] + pad == a + (b[..k] + pad)
  {
  }

  lemma LastQuantum(t: seq<Byte>)
    requires 0 < |t| < 5
    ensures |Quantum(t + Fill(0, 5 - |t|))| == 8
    ensures Encode(t) == Quantum(t + Fill(0, 5 - |t|))[..Kept(|t|)] + Fill(PAD, 8 - Kept(|t|))
  {
  }

  /** Replacing the symbols of the zero padding by pad characters gives the encoding. */
  lemma Adjusted(g: seq<Byte>, n: nat, t: seq<Byte>)
    requires |g| == 5 * n && 0 < |t| < 5
    ensures var encoded, k := Quanta(g + (t + Fill(0, 5 - |t|)), n + 1), 8 - Kept(|t|);
            |encoded| >= k && Encode(g + t) == encoded[..|encoded| - k] + Fill(PAD, k)
  {
    LastQuantum(t);
    EncodeQuanta(g, n, t);
    var q := t + Fill(0, 5 - |t|);
    hide Quantum, Quanta, Encode, Fill;
    QuantaLast(g, n, q);
    CutLast(Quanta(g, n), Quantum(q), Kept(|t|), Fill(PAD, 8 - Kept(|t|)));
  }

  lemma FifthsOf(n: nat)
    ensures n == 5 * (n / 5) + n % 5 && n % 5 < 5
  {
  }

  /** `b32encode(s)`. */
  method B32Encode(s: seq<Byte>) returns (encoded: seq<Byte>)
    ensures encoded == Encode(s)
  {
    hide Quantum, Encode, Quanta, Fill;
    var quanta, leftover := |s| / 5, |s| % 5;
    FifthsOf(|s|);
    ghost var g, t := s[..5 * quanta], s[5 * quanta..];
    assert s == g + t && |t| == leftover;
    if leftover == 0 {
      encoded := EncodeAll(s, quanta);
      WholeQuanta(s, quanta);
    } else {
      encoded := EncodeAll(s + Fill(0, 5 - leftover), quanta + 1);
      Associate(g, t, Fill(0, 5 - leftover));
      Adjusted(g, quanta, t);
      // adjust for the leftover partial quantum: drop 6, 4, 3 or 1 symbols
      var drop := [0, 6, 4, 3, 1][leftover];
      encoded := encoded[..|encoded| - drop] + Fill(PAD, drop);
    }
  }

  // ---------------------------------------------------------------- decoding

  /** `1 << shift`, for the shifts 35, 30, ..., 0 of the decoder: the weight of digit `k`. */
  function Weight(k: nat): nat
    requires k < 8
  {
    [0x8_0000_0000, 0x4000_0000, 0x200_0000, 0x10_0000, 0x8000, 0x400, 0x20, 1][k]
  }

  /** The accumulator leaves room for the digits still missing. */
  predicate Room(acc: nat, k: nat) { k < 8 && acc + 32 * Weight(k) <= 0x100_0000_0000 }

  /** The loop of `b32decode`, with `k` digits of the quantum in `acc`; None is a digit outside
      the alphabet. */
  function Scan(s: seq<Byte>, acc: nat, k: nat, parts: seq<Byte>): (r: Option<(seq<Byte>, nat)>)
    requires Room(acc, k)
    ensures r.Some? ==> r.value.1 < 0x100_0000_0000
    decreases |s|
  {
    if s == [] then Some((parts, acc))
    else
      var v := Value(s[0]);
      if v.None? then None
      else
        var acc' := acc + v.value * Weight(k);
        if k == 7 then Scan(s[1..], 0, 0, parts + Bytes5(acc')) else Scan(s[1..], acc', k + 1, parts)
  }

  /** `s.find(b"=")`, with -1 when there is none. */
  function FindPad(s: seq<Byte>): (i: int)
    ensures -1 <= i < |s|
    ensures i >= 0 ==> s[i] == PAD && PAD !in s[..i]
    ensures i == -1 <==> PAD !in s
  {
    if s == [] then -1
    else if s[0] == PAD then 0
    else
      var i := FindPad(s[1..]);
      assert i >= 0 ==> s[..i + 1] == [s[0]] + s[1..][..i];
      if i < 0 then -1 else i + 1
  }

  /** Bytes of the last quantum for a number of pad characters; None is incorrect padding. */
  function LastBytes(padchars: nat): Option<nat> {
    match padchars
    case 0 => Some(0)
    case 1 => Some(4)
    case 3 => Some(3)
    case 4 => Some(2)
    case 6 => Some(1)
    case _ => None
  }

  /** The two texts of `binascii.Error`. */
  datatype Decoded = Ok(bytes: seq<Byte>) | IncorrectPadding | NonBase32Digit

  /** What `b32decode` makes of the scanned digits and the number of pad characters. */
  function Finish(scanned: Option<(seq<Byte>, nat)>, padchars: nat): Decoded
    requires scanned.Some? ==> scanned.value.1 < 0x100_0000_0000
  {
    var n := LastBytes(padchars);
    if scanned.None? then NonBase32Digit
    else if n.None? then IncorrectPadding
    else Ok(scanned.value.0 + Bytes5(scanned.value.1)[..n.value])
  }

  /** `b32decode(s)` with its default flags. */
  function Decode(s: seq<Byte>): Decoded {
    if |s| % 8 != 0 then IncorrectPadding
    else
      var p := FindPad(s);
      var padchars := if p > 0 then |s| - p else 0;
      Finish(Scan(s[..|s| - padchars], 0, 0, []), padchars)
  }

  lemma ScanNext(s: seq<Byte>, i: nat, acc: nat, k: nat, parts: seq<Byte>)
    requires i < |s| && Room(acc, k)
    ensures var v := Value(s[i]);
            if v.None? then Scan(s[i..], acc, k, parts) == None
            else
              var acc' := acc + v.value * Weight(k);
              if k == 7
              then acc' < 0x100_0000_0000 && Scan(s[i..], acc, k, parts) == Scan(s[i + 1..], 0, 0, parts + Bytes5(acc'))
              else Room(acc', k + 1) && Scan(s[i..], acc, k, parts) == Scan(s[i + 1..], acc', k + 1, parts)
  {
    assert s[i..][1..] == s[i + 1..] && s[i..][0] == s[i];
    hide Bytes5;
  }

  /** The loop of `b32decode` over the digits. */
  method ScanDigits(s: seq<Byte>) returns (r: Option<(seq<Byte>, nat)>)
    ensures r == Scan(s, 0, 0, [])
  {
    var parts: seq<Byte>, acc: nat, shift := [], 0, 35;
    ghost var k: nat := 0;
    assert Room(0, 0) && Scan([], 0, 0, []) == Some(([], 0));
    for i := 0 to |s|
      invariant Room(acc, k) && shift == 35 - 5 * k
      invariant Scan(s[i..], acc, k, parts) == Scan(s, 0, 0, [])
    {
      ScanNext(s, i, acc, k, parts);
      assert k < 8;
      hide Bytes5, Value, Scan, Weight, Room;
      var val := Value(s[i]);
      assert (35 - shift) / 5 == k;
      if val.None? { return None; }
      acc := acc + val.value * Weight((35 - shift) / 5);
      shift := shift - 5;
      k := k + 1;
      if shift < 0 {
        parts := parts + Bytes5(acc);
        acc, shift, k := 0, 35, 0;
      }
    }
    r := Some((parts, acc));
  }

  /** The `map01` and `casefold` options: 0 is read as O and 1 as the letter given, then lower
      case as upper case. */
  function Prepared(c: Byte, casefold: bool, map01: Option<Byte>): Byte {
    var m := if map01.Some? && c == 48 then 79 else if map01.Some? && c == 49 then map01.value else c;
    if casefold && 97 <= m <= 122 then m - 32 else m
  }

  function PreparedAll(s: seq<Byte>, casefold: bool, map01: Option<Byte>): seq<Byte> {
    seq(|s|, i requires 0 <= i < |s| => Prepared(s[i], casefold, map01))
  }

  /** `b32decode(s, casefold, map01)`. */
  method B32Decode(s0: seq<Byte>, casefold: bool, map01: Option<Byte>) returns (r: Decoded)
    ensures r == Decode(PreparedAll(s0, casefold, map01))
  {
    if |s0| % 8 != 0 { return IncorrectPadding; }
    var s := PreparedAll(s0, casefold, map01);
    ghost var s1 := s;
    hide PreparedAll;
    var padchars := FindPad(s);
    if padchars > 0 {
      padchars := |s| - padchars;
      s := s[..|s| - padchars];
    } else {
      padchars := 0;
    }
    assert s == s1[..|s1| - padchars];
    hide Bytes5, Scan, FindPad;
    var scanned := ScanDigits(s);
    if scanned.None? { return NonBase32Digit; }
    var (parts, acc) := scanned.value;
    var n := LastBytes(padchars);
    if n.None? { return IncorrectPadding; }
    r := Ok(parts + Bytes5(acc)[..n.value]);
  }

  // ---------------------------------------------------------------- round trip

  lemma SymbolValue(n: nat)
    requires n < 32
    ensures Value(Symbol(n)) == Some(n) && Symbol(n) != PAD
  {
  }

  lemma ScanSymbol(v: Digit, rest: seq<Byte>, acc: nat, k: nat, parts: seq<Byte>)
    requires Room(acc, k)
    ensures var acc' := acc + v * Weight(k);
            if k == 7 then
              && acc' < 0x100_0000_0000
              && Scan([Symbol(v)] + rest, acc, k, parts) == Scan(rest, 0, 0, parts + Bytes5(acc'))
            else Room(acc', k + 1) && Scan([Symbol(v)] + rest, acc, k, parts) == Scan(rest, acc', k + 1, parts)
  {
    SymbolValue(v);
    assert ([Symbol(v)] + rest)[1..] == rest;
    hide Symbol, Value, Bytes5;
  }

  /** Scanning the first five digits of a quantum. */
  lemma ScanFive(v: Digits, rest: seq<Byte>, parts: seq<Byte>)
    ensures var acc := v.v0 * 0x8_0000_0000 + v.v1 * 0x4000_0000 + v.v2 * 0x200_0000 + v.v3 * 0x10_0000 + v.v4 * 0x8000;
            Room(acc, 5)
            && Scan([Symbol(v.v0)] + ([Symbol(v.v1)] + ([Symbol(v.v2)] + ([Symbol(v.v3)] + ([Symbol(v.v4)] + rest)))),
                    0, 0, parts)
               == Scan(rest, acc, 5, parts)
  {
    hide Scan, Symbol;
    var r4 := [Symbol(v.v4)] + rest;
    var r3 := [Symbol(v.v3)] + r4;
    var r2 := [Symbol(v.v2)] + r3;
    var r1 := [Symbol(v.v1)] + r2;
    ScanSymbol(v.v0, r1, 0, 0, parts);
    ScanSymbol(v.v1, r2, v.v0 * 0x8_0000_0000, 1, parts);
    ScanSymbol(v.v2, r3, v.v0 * 0x8_0000_0000 + v.v1 * 0x4000_0000, 2, parts);
    ScanSymbol(v.v3, r4, v.v0 * 0x8_0000_0000 + v.v1 * 0x4000_0000 + v.v2 * 0x200_0000, 3, parts);
    ScanSymbol(v.v4, rest, v.v0 * 0x8_0000_0000 + v.v1 * 0x4000_0000 + v.v2 * 0x200_0000 + v.v3 * 0x10_0000, 4, parts);
  }

  lemma SumFits(v: Digits)
    ensures Sum(v) < 0x100_0000_0000
  {
  }

  /** Scanning the last three digits. */
  lemma ScanThree(v: Digits, rest: seq<Byte>, parts: seq<Byte>)
    ensures var acc := v.v0 * 0x8_0000_0000 + v.v1 * 0x4000_0000 + v.v2 * 0x200_0000 + v.v3 * 0x10_0000 + v.v4 * 0x8000;
            && Room(acc, 5) && Sum(v) < 0x100_0000_0000
            && Scan([Symbol(v.v5)] + ([Symbol(v.v6)] + ([Symbol(v.v7)] + rest)), acc, 5, parts)
               == Scan(rest, 0, 0, parts + Bytes5(Sum(v)))
  {
    SumFits(v);
    hide Scan, Symbol, Bytes5;
    var r7 := [Symbol(v.v7)] + rest;
    var r6 := [Symbol(v.v6)] + r7;
    var acc := v.v0 * 0x8_0000_0000 + v.v1 * 0x4000_0000 + v.v2 * 0x200_0000 + v.v3 * 0x10_0000 + v.v4 * 0x8000;
    ScanSymbol(v.v5, r6, acc, 5, parts);
    ScanSymbol(v.v6, r7, acc + v.v5 * 0x400, 6, parts);
    ScanSymbol(v.v7, rest, acc + v.v5 * 0x400 + v.v6 * 0x20, 7, parts);
  }

  lemma SymbolsOneByOne(v: Digits, rest: seq<Byte>)
    ensures Symbols(v) + rest
         == [Symbol(v.v0)] + ([Symbol(v.v1)] + ([Symbol(v.v2)] + ([Symbol(v.v3)] + ([Symbol(v.v4)]
          + ([Symbol(v.v5)] + ([Symbol(v.v6)] + ([Symbol(v.v7)] + rest)))))))
  {
    hide Symbol;
  }

  /** A whole quantum of digits yields its five bytes. */
  lemma ScanQuantum(v: Digits, rest: seq<Byte>, parts: seq<Byte>)
    ensures Sum(v) < 0x100_0000_0000
    ensures Scan(Symbols(v) + rest, 0, 0, parts) == Scan(rest, 0, 0, parts + Bytes5(Sum(v)))
  {
    hide Scan, Symbol, Bytes5, Symbols, Sum, Room;
    SymbolsOneByOne(v, rest);
    ScanThree(v, rest, parts);
    ScanFive(v, [Symbol(v.v5)] + ([Symbol(v.v6)] + ([Symbol(v.v7)] + rest)), parts);
  }

  /** The digits of the zero padding are zero, so dropping them loses nothing. */
  lemma DroppedAfter1(a: Byte)
    ensures var v := Cut(a, 0, 0, 0, 0); v.v2 == v.v3 == v.v4 == v.v5 == v.v6 == v.v7 == 0
  {
    assert (a * 256) % 2 == 0 && a * 256 / 2 % 32 == 0;
  }

  lemma DroppedAfter2(a: Byte, b: Byte)
    ensures var v := Cut(a, b, 0, 0, 0); v.v4 == v.v5 == v.v6 == v.v7 == 0
  {
    var bit := (a * 256 + b) % 2;
    assert bit == 0 || bit == 1;
  }

  lemma ThirdByteOnly(x: nat, c: nat, bit: nat)
    requires x == c * 256 + bit * 65536
    ensures x % 4 == 0 && x / 4 % 32 == 0
  {
    var y := 2 * c + 512 * bit;
    assert x == 4 * (32 * y);
  }

  lemma DroppedAfter3(a: Byte, b: Byte, c: Byte)
    ensures var v := Cut(a, b, c, 0, 0); v.v5 == v.v6 == v.v7 == 0
  {
    var bit := (a * 256 + b) % 2;
    ThirdByteOnly(c * 256 + bit * 65536, c, bit);
  }

  lemma DroppedAfter4(a: Byte, b: Byte, c: Byte, d: Byte)
    ensures Cut(a, b, c, d, 0).v7 == 0
  {
  }

  /** The bytes `t` of a last, partial quantum, filled up with zeros. */
  function LastDigits(t: seq<Byte>): Digits
    requires 0 < |t| < 5
  {
    var s := t + Fill(0, 5 - |t|);
    Cut(s[0], s[1], s[2], s[3], s[4])
  }

  /** Only the kept digits of a partial quantum count. */
  predicate ZeroFrom(v: Digits, m: nat) {
    && (m <= 2 ==> v.v2 == v.v3 == 0)
    && (m <= 4 ==> v.v4 == 0)
    && (m <= 5 ==> v.v5 == v.v6 == 0)
    && (m <= 7 ==> v.v7 == 0)
  }

  lemma LastZeros(t: seq<Byte>)
    requires 0 < |t| < 5
    ensures ZeroFrom(LastDigits(t), Kept(|t|))
    ensures Sum(LastDigits(t)) < 0x100_0000_0000 && Bytes5(Sum(LastDigits(t))) == t + Fill(0, 5 - |t|)
  {
    var s := t + Fill(0, 5 - |t|);
    hide Cut, Sum, Bytes5, Number;
    match |t| {
      case 1 => DroppedAfter1(t[0]);
      case 2 => DroppedAfter2(t[0], t[1]);
      case 3 => DroppedAfter3(t[0], t[1], t[2]);
      case _ => DroppedAfter4(t[0], t[1], t[2], t[3]);
    }
    CutIsExact(s[0], s[1], s[2], s[3], s[4]);
    BytesOfNumber(s[0], s[1], s[2], s[3], s[4]);
  }

  lemma ScanEmpty(acc: nat, k: nat, parts: seq<Byte>)
    requires Room(acc, k)
    ensures Scan([], acc, k, parts) == Some((parts, acc))
  {
  }

  lemma ScanTwo(v: Digits, parts: seq<Byte>)
    requires ZeroFrom(v, 2)
    ensures Scan(Symbols(v)[..2], 0, 0, parts) == Some((parts, Sum(v)))
  {
    var s0, s1 := Symbol(v.v0), Symbol(v.v1);
    hide Symbol, Scan;
    assert Symbols(v)[..2] == [s0] + ([s1] + []);
    ScanSymbol(v.v0, [s1] + [], 0, 0, parts);
    ScanSymbol(v.v1, [], v.v0 * 0x8_0000_0000, 1, parts);
    ScanEmpty(Sum(v), 2, parts);
  }

  lemma FirstFour(v: Digits)
    ensures Symbols(v)[..4] == [Symbol(v.v0)] + ([Symbol(v.v1)] + ([Symbol(v.v2)] + ([Symbol(v.v3)] + [])))
  {
    hide Symbol;
  }

  lemma ScanFour(v: Digits, parts: seq<Byte>)
    requires ZeroFrom(v, 4)
    ensures Scan(Symbols(v)[..4], 0, 0, parts) == Some((parts, Sum(v)))
  {
    var a0 := v.v0 * 0x8_0000_0000;
    var a1 := a0 + v.v1 * 0x4000_0000;
    var r3 := [Symbol(v.v3)] + [];
    var r2 := [Symbol(v.v2)] + r3;
    var r1 := [Symbol(v.v1)] + r2;
    FirstFour(v);
    hide Symbol, Scan, Symbols;
    ScanSymbol(v.v0, r1, 0, 0, parts);
    ScanSymbol(v.v1, r2, a0, 1, parts);
    ScanSymbol(v.v2, r3, a1, 2, parts);
    ScanSymbol(v.v3, [], a1 + v.v2 * 0x200_0000, 3, parts);
    ScanEmpty(Sum(v), 4, parts);
  }

  lemma ScanSeven(v: Digits, m: nat, parts: seq<Byte>)
    requires (m == 5 || m == 7) && ZeroFrom(v, m)
    ensures Scan(Symbols(v)[..m], 0, 0, parts) == Some((parts, Sum(v)))
  {
    var acc := v.v0 * 0x8_0000_0000 + v.v1 * 0x4000_0000 + v.v2 * 0x200_0000 + v.v3 * 0x10_0000 + v.v4 * 0x8000;
    var r6 := [Symbol(v.v6)] + [];
    var r5 := if m == 5 then [] else [Symbol(v.v5)] + r6;
    hide Symbol, Scan;
    assert Symbols(v)[..m]
        == [Symbol(v.v0)] + ([Symbol(v.v1)] + ([Symbol(v.v2)] + ([Symbol(v.v3)] + ([Symbol(v.v4)] + r5))));
    ScanFive(v, r5, parts);
    if m == 5 {
      ScanEmpty(Sum(v), 5, parts);
    } else {
      ScanSymbol(v.v5, r6, acc, 5, parts);
      ScanSymbol(v.v6, [], acc + v.v5 * 0x400, 6, parts);
      ScanEmpty(Sum(v), 7, parts);
    }
  }

  lemma ScanKept(v: Digits, m: nat, parts: seq<Byte>)
    requires m in {2, 4, 5, 7} && ZeroFrom(v, m)
    ensures Scan(Symbols(v)[..m], 0, 0, parts) == Some((parts, Sum(v)))
  {
    hide Scan, Symbols, ZeroFrom, Sum;
    if m == 2 { ScanTwo(v, parts); } else if m == 4 { ScanFour(v, parts); } else { ScanSeven(v, m, parts); }
  }

  lemma NoPad(v: Digits)
    ensures |Symbols(v)| == 8 && PAD !in Symbols(v)
  {
  }

  lemma QuantumBytes(q: seq<Byte>, rest: seq<Byte>, parts: seq<Byte>)
    requires |q| == 5
    ensures Scan(Quantum(q) + rest, 0, 0, parts) == Scan(rest, 0, 0, parts + q)
    ensures |Quantum(q)| == 8 && PAD !in Quantum(q)
  {
    var v := Cut(q[0], q[1], q[2], q[3], q[4]);
    ScanQuantum(v, rest, parts);
    CutIsExact(q[0], q[1], q[2], q[3], q[4]);
    BytesOfNumber(q[0], q[1], q[2], q[3], q[4]);
    NoPad(v);
    hide Scan, Cut, Sum, Number, Bytes5, Symbols;
    assert q == [q[0], q[1], q[2], q[3], q[4]];
  }

  lemma NotInEither(a: seq<Byte>, b: seq<Byte>)
    ensures PAD !in a && PAD !in b ==> PAD !in a + b
  {
  }

  lemma {:induction false} ScanQuanta(g: seq<Byte>, n: nat, rest: seq<Byte>, parts: seq<Byte>)
    requires |g| == 5 * n
    ensures Scan(Quanta(g, n) + rest, 0, 0, parts) == Scan(rest, 0, 0, parts + g)
    ensures |Quanta(g, n)| == 8 * n && PAD !in Quanta(g, n)
    decreases n
  {
    if n == 0 {
      assert Quanta(g, n) + rest == rest && parts + g == parts;
    } else {
      hide *;
      var g', q := g[..5 * (n - 1)], g[5 * (n - 1)..];
      assert g == g' + q && |q| == 5;
      QuantaLast(g', n - 1, q);
      ScanQuanta(g', n - 1, Quantum(q) + rest, parts);
      QuantumBytes(q, rest, parts + g');
      var quanta := Quanta(g', n - 1);
      Associate(quanta, Quantum(q), rest);
      Associate(parts, g', q);
      NotInEither(quanta, Quantum(q));
    }
  }

  lemma FindFirstPad(a: seq<Byte>, n: nat)
    requires PAD !in a
    ensures FindPad(a + Fill(PAD, n)) == if n == 0 then -1 else |a|
  {
    var s := a + Fill(PAD, n);
    if n > 0 { assert s[|a|] == PAD; }
    assert forall i :: 0 <= i < |a| ==> s[i] == a[i];
  }

  lemma Multiple(x: nat, q: nat)
    requires x == 8 * q
    ensures x % 8 == 0
  {
  }

  /** Decoding digits followed by their pad characters. */
  lemma DecodeParts(body: seq<Byte>, pad: nat, q: nat)
    requires PAD !in body && |body| + pad == 8 * q && (pad > 0 ==> body != [])
    ensures Decode(body + Fill(PAD, pad)) == Finish(Scan(body, 0, 0, []), pad)
  {
    hide Scan, FindPad, Finish, Fill;
    FindFirstPad(body, pad);
    var e := body + Fill(PAD, pad);
    assert e[..|body|] == body && |e| == |body| + pad;
    Multiple(|e|, q);
    if pad == 0 { assert e[..|e|] == body; }
  }

  lemma RoundTripWhole(s: seq<Byte>, n: nat)
    requires |s| == 5 * n
    ensures Decode(Encode(s)) == Ok(s)
  {
    hide Encode, Quanta, Bytes5, Decode, Scan;
    WholeQuanta(s, n);
    var e := Quanta(s, n);
    ScanQuanta(s, n, [], []);
    ScanEmpty(0, 0, [] + s);
    assert e + [] == e && [] + s == s;
    DecodeParts(e, 0, n);
    assert e + Fill(PAD, 0) == e;
    assert s + Bytes5(0)[..0] == s;
  }

  /** Scanning whole quanta and the kept digits of a partial one. */
  lemma ScanBody(g: seq<Byte>, n: nat, t: seq<Byte>)
    requires |g| == 5 * n && 0 < |t| < 5
    ensures var v, m := LastDigits(t), Kept(|t|);
            var body := Quanta(g, n) + Symbols(v)[..m];
            PAD !in body && |body| == 8 * n + m && Scan(body, 0, 0, []) == Some((g, Sum(v)))
  {
    var v, m := LastDigits(t), Kept(|t|);
    hide Quanta, Scan, Sum, Symbols, Bytes5, LastDigits, ZeroFrom, Fill;
    NoPad(v);
    LastZeros(t);
    var last := Symbols(v)[..m];
    ScanQuanta(g, n, last, []);
    assert [] + g == g;
    ScanKept(v, m, g);
  }

  lemma FinishPartial(g: seq<Byte>, t: seq<Byte>)
    requires 0 < |t| < 5
    ensures Sum(LastDigits(t)) < 0x100_0000_0000
    ensures Finish(Some((g, Sum(LastDigits(t)))), 8 - Kept(|t|)) == Ok(g + t)
  {
    LastZeros(t);
    hide Sum, Bytes5, LastDigits, ZeroFrom;
    assert (t + Fill(0, 5 - |t|))[..|t|] == t;
  }

  lemma EncodePartial(t: seq<Byte>)
    requires 0 < |t| < 5
    ensures Encode(t) == Symbols(LastDigits(t))[..Kept(|t|)] + Fill(PAD, 8 - Kept(|t|))
  {
    hide Cut, Symbols, Fill;
  }

  lemma RoundTripPartial(g: seq<Byte>, n: nat, t: seq<Byte>)
    requires |g| == 5 * n && 0 < |t| < 5
    ensures Decode(Encode(g + t)) == Ok(g + t)
  {
    var m, v := Kept(|t|), LastDigits(t);
    hide Encode, Quanta, Scan, Sum, Symbols, LastDigits, Decode, Fill, Finish;
    NoPad(v);
    var last := Symbols(v)[..m];
    var body := Quanta(g, n) + last;
    EncodePartial(t);
    EncodeQuanta(g, n, t);
    assert Encode(g + t) == body + Fill(PAD, 8 - m);
    ScanBody(g, n, t);
    DecodeParts(body, 8 - m, n + 1);
    FinishPartial(g, t);
  }

  /** `b32decode` inverts `b32encode`, whatever is left over after whole quanta. */
  lemma Base32RoundTrip(s: seq<Byte>)
    ensures Decode(Encode(s)) == Ok(s)
  {
    var n := |s| / 5;
    var g, t := s[..5 * n], s[5 * n..];
    assert s == g + t;
    if t == [] {
      assert s == g;
      RoundTripWhole(s, n);
    } else {
      RoundTripPartial(g, n, t);
    }
  }

  // ---------------------------------------------------------------- options

  /** What an encoding consists of. */
  predicate Encoded(c: Byte) { 65 <= c <= 90 || 50 <= c <= 55 || c == PAD }

  function Lower(s: seq<Byte>): seq<Byte> {
    seq(|s|, i requires 0 <= i < |s| => if 65 <= s[i] <= 90 then s[i] + 32 else s[i])
  }

  lemma QuantumEncoded(s: seq<Byte>)
    requires |s| == 5
    ensures |Quantum(s)| == 8 && forall i :: 0 <= i < 8 ==> Encoded(Quantum(s)[i])
  {
  }

  lemma {:induction false} EncodeEncoded(s: seq<Byte>)
    ensures forall i :: 0 <= i < |Encode(s)| ==> Encoded(Encode(s)[i])
    decreases |s|
  {
    if 0 < |s| < 5 {
      QuantumEncoded(s + Fill(0, 5 - |s|));
    } else if |s| >= 5 {
      QuantumEncoded(s[..5]);
      EncodeEncoded(s[5..]);
      hide Quantum;
    }
  }

  /** `t` is `e` with some letters O written as 0 and some letters `l` written as 1. */
  predicate Confused(t: seq<Byte>, e: seq<Byte>, l: Byte) {
    && |t| == |e|
    && forall i :: 0 <= i < |e| ==>
         t[i] == e[i] || (t[i] == '0' as int && e[i] == 'O' as int) || (t[i] == '1' as int && e[i] == l)
  }

  /** With `map01` the digits 0 and 1 are read as the letter O and the letter given. */
  lemma Map01RoundTrip(s: seq<Byte>, t: seq<Byte>, casefold: bool, l: Byte)
    requires Confused(t, Encode(s), l)
    ensures Decode(PreparedAll(t, casefold, Some(l))) == Ok(s)
  {
    Base32RoundTrip(s);
    EncodeEncoded(s);
    var e, p := Encode(s), PreparedAll(t, casefold, Some(l));
    hide Encode, Decode;
    forall i | 0 <= i < |p| ensures p[i] == e[i] { assert Encoded(e[i]); }
    assert p == e;
  }

  // ---------------------------------------------------------------- malformed input

  predicate InAlphabet(s: seq<Byte>) { forall i :: 0 <= i < |s| ==> Value(s[i]).Some? }

  lemma {:induction false} ScanSome(s: seq<Byte>, acc: nat, k: nat, parts: seq<Byte>)
    requires Room(acc, k)
    ensures Scan(s, acc, k, parts).Some? <==> InAlphabet(s)
    decreases |s|
  {
    hide Bytes5;
    if s != [] && Value(s[0]).Some? {
      var acc' := acc + Value(s[0]).value * Weight(k);
      if k == 7 { ScanSome(s[1..], 0, 0, parts + Bytes5(acc')); } else { ScanSome(s[1..], acc', k + 1, parts); }
      assert InAlphabet(s) <==> InAlphabet(s[1..]) by {
        assert forall i :: 0 < i < |s| ==> s[i] == s[1..][i - 1];
      }
    }
  }

  lemma {:induction false} FirstPad(digits: seq<Byte>, rest: seq<Byte>)
    requires PAD !in digits && rest != [] && rest[0] == PAD
    ensures FindPad(digits + rest) == |digits|
  {
    var s := digits + rest;
    if digits != [] {
      assert s[1..] == digits[1..] + rest && s[0] == digits[0];
      FirstPad(digits[1..], rest);
    }
  }

  /** Which inputs are refused, and as what: a length that is no multiple of 8, a digit outside the
      alphabet before the first pad, or a number of bytes from that pad on, whatever they are, that no
      encoding ends in.  A pad in the first place is such a digit. */
  lemma DecodeErrors(digits: seq<Byte>, rest: seq<Byte>)
    requires PAD !in digits && (rest != [] ==> rest[0] == PAD)
    ensures var r := Decode(digits + rest);
            if |digits + rest| % 8 != 0 then r == IncorrectPadding
            else if !InAlphabet(digits) || (digits == [] && rest != []) then r == NonBase32Digit
            else if |rest| !in {0, 1, 3, 4, 6} then r == IncorrectPadding
            else r.Ok?
  {
    var s := digits + rest;
    var p := FindPad(s);
    if |s| % 8 == 0 {
      if rest == [] { assert s == digits; } else { FirstPad(digits, rest); }
      assert rest != [] && digits != [] ==> s[..|digits|] == digits;
      assert s[..|s|] == s;
      ScanSome(digits, 0, 0, []);
      ScanSome(s, 0, 0, []);
      assert digits == [] && rest != [] ==> Value(s[0]).None?;
      hide Scan, Bytes5, FindPad;
    }
  }

  // ---------------------------------------------------------------- options on encodings

  /** The options do not disturb an encoding, and with `casefold` one in lower case is read too. */
  lemma Base32OptionsRoundTrip(s: seq<Byte>, casefold: bool, map01: Option<Byte>)
    ensures Decode(PreparedAll(Encode(s), casefold, map01)) == Ok(s)
    ensures Decode(PreparedAll(Lower(Encode(s)), true, map01)) == Ok(s)
  {
    Base32RoundTrip(s);
    EncodeEncoded(s);
    var e := Encode(s);
    hide Encode, Decode;
    assert PreparedAll(e, casefold, map01) == e;
    assert PreparedAll(Lower(e), true, map01) == e;
  }
}

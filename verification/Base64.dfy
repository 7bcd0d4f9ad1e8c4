/** Base64, section 4 of RFC 4648, as `binascii` and `base64` implement it.

    Shifts and masks of the source are written as division, multiplication and remainder by
    powers of two; the encoder's accumulator is never masked and grows with the input. */
module Base64 {
  import opened Common

  const PAD: Byte := 61
  const NEWLINE: Byte := 10

  /** `table_b2a_base64`. */
  function Symbol(n: nat): Byte
    requires n < 64
  {
    if n < 26 then 65 + n else if n < 52 then 71 + n else if n < 62 then n - 4 else if n == 62 then 43 else 47
  }

  /** `table_a2b_base64`; None for the entries that hold 0xFF. */
  function Value(c: Byte): Option<nat> {
    if 65 <= c <= 90 then Some(c - 65)
    else if 97 <= c <= 122 then Some(c - 71)
    else if 48 <= c <= 57 then Some(c + 4)
    else if c == 43 then Some(62)
    else if c == 47 then Some(63)
    else None
  }

  const SMALL := "abcdefghijklmnopqrstuvwxyz"
  const OTHERS := "0123456789+/"

  lemma SmallAt(n: nat)
    requires n < 26
    ensures SMALL[n] as int == 97 + n
  {
    assert n in {0, 1, 2, 3, 4, 5, 6, 7, 8, 9, 10, 11, 12}
           || n in {13, 14, 15, 16, 17, 18, 19, 20, 21, 22, 23, 24, 25};
  }

  lemma OtherAt(n: nat)
    requires n < 12
    ensures OTHERS[n] as int == if n < 10 then 48 + n else if n == 10 then 43 else 47
  {
    assert n in {0, 1, 2, 3, 4, 5, 6, 7, 8, 9, 10, 11};
  }

  /** The alphabet of section 4 of RFC 4648, in order, is written and read. */
  lemma Alphabet(n: nat, c: Byte)
    requires n < 64
    ensures var alphabet := CAPITALS + SMALL + OTHERS;
            && |alphabet| == 64 && Symbol(n) == alphabet[n] as int && PAD == '=' as int
            && (Value(c) == Some(n) <==> c == alphabet[n] as int)
  {
    if n < 26 { CapitalAt(n); } else if n < 52 { SmallAt(n - 26); } else { OtherAt(n - 52); }
  }

  function Quad(a: Byte, b: Byte, c: Byte): seq<Byte> {
    [Symbol(a / 4), Symbol(a % 4 * 16 + b / 16), Symbol(b % 16 * 4 + c / 64), Symbol(c % 64)]
  }

  /** The reference encoding, three bytes to four symbols. */
  function Encode(s: seq<Byte>): seq<Byte> {
    if s == [] then []
    else if |s| == 1 then [Symbol(s[0] / 4), Symbol(s[0] % 4 * 16), PAD, PAD]
    else if |s| == 2 then [Symbol(s[0] / 4), Symbol(s[0] % 4 * 16 + s[1] / 16), Symbol(s[1] % 16 * 4), PAD]
    else Quad(s[0], s[1], s[2]) + Encode(s[3..])
  }

  /** The number that symbols spell, six bits each. */
  function Spelled(cs: seq<Byte>): nat {
    if cs == [] then 0
    else 64 * Spelled(cs[..|cs| - 1]) + (match Value(cs[|cs| - 1]) case Some(n) => n case None => 0)
  }

  lemma SpelledNext(cs: seq<Byte>, n: nat)
    requires n < 64
    ensures Spelled(cs + [Symbol(n)]) == 64 * Spelled(cs) + n
  {
    assert (cs + [Symbol(n)])[..|cs|] == cs;
  }

  lemma Spelled2(m: nat, n: nat)
    requires m < 64 && n < 64
    ensures Spelled([Symbol(m), Symbol(n)]) == 64 * m + n
  {
    SpelledNext([], m);
    assert [] + [Symbol(m)] == [Symbol(m)];
    SpelledNext([Symbol(m)], n);
    assert [Symbol(m)] + [Symbol(n)] == [Symbol(m), Symbol(n)];
  }

  /** A group of symbols spells its bytes, most significant bits first; in the last group, zero bits
      fill up the last symbol and pads stand for missing bytes. */
  lemma GroupSpells(a: Byte, b: Byte, c: Byte)
    ensures |Quad(a, b, c)| == 4 && Spelled(Quad(a, b, c)) == a * 65536 + b * 256 + c
    ensures |Encode([a])| == 4 && Encode([a])[2..] == [PAD, PAD] && Spelled(Encode([a])[..2]) == a * 16
    ensures |Encode([a, b])| == 4 && Encode([a, b])[3..] == [PAD]
    ensures Spelled(Encode([a, b])[..3]) == (a * 256 + b) * 4
  {
    var m, n, p := a / 4, a % 4 * 16 + b / 16, b % 16 * 4;
    Spelled2(m, a % 4 * 16);
    Spelled2(m, n);
    SpelledNext([Symbol(m), Symbol(n)], p);
    SpelledNext([Symbol(m), Symbol(n)], p + c / 64);
    SpelledNext([Symbol(m), Symbol(n)] + [Symbol(p + c / 64)], c % 64);
    hide Symbol, Spelled;
    assert Quad(a, b, c) == [Symbol(m), Symbol(n)] + [Symbol(p + c / 64)] + [Symbol(c % 64)];
    assert Encode([a])[..2] == [Symbol(m), Symbol(a % 4 * 16)];
    assert Encode([a, b])[..3] == [Symbol(m), Symbol(n)] + [Symbol(p)];
  }

  lemma {:induction false} EncodeConcat(a: seq<Byte>, b: seq<Byte>)
    requires |a| % 3 == 0
    ensures Encode(a + b) == Encode(a) + Encode(b)
    decreases |a|
  {
    if a == [] {
      assert a + b == b;
    } else {
      assert (a + b)[3..] == a[3..] + b;
      EncodeConcat(a[3..], b);
    }
  }

  // ---------------------------------------------------------------- the encoder's loop

  /** The symbols the loop of `b2a_base64` has emitted for the bytes of an unfinished group. */
  function Partial(t: seq<Byte>): seq<Byte>
    requires |t| < 3
  {
    if t == [] then []
    else if |t| == 1 then [Symbol(t[0] / 4)]
    else [Symbol(t[0] / 4), Symbol(t[0] % 4 * 16 + t[1] / 16)]
  }

  lemma EncodeThree(a: Byte, b: Byte, c: Byte)
    ensures Encode([a, b, c]) == Quad(a, b, c)
  {
    var s := [a, b, c];
    hide Symbol;
    assert s[3..] == [];
    assert Encode(s[3..]) == [];
  }

  lemma QuadDone(g: seq<Byte>, t: seq<Byte>, c: Byte)
    requires |g| % 3 == 0 && |t| == 2
    ensures Encode(g + t + [c]) == Encode(g) + Partial(t) + [Symbol(t[1] % 16 * 4 + c / 64), Symbol(c % 64)]
  {
    hide Symbol, Encode;
    assert g + t + [c] == g + [t[0], t[1], c];
    EncodeConcat(g, [t[0], t[1], c]);
    EncodeThree(t[0], t[1], c);
  }

  lemma EncodeEnd(g: seq<Byte>, t: seq<Byte>)
    requires |g| % 3 == 0 && |t| < 3
    ensures Encode(g + t) == Encode(g) + Partial(t)
              + (if t == [] then [] else if |t| == 1 then [Symbol(t[0] % 4 * 16), PAD, PAD]
                 else [Symbol(t[1] % 16 * 4), PAD])
  {
    EncodeConcat(g, t);
    hide Symbol;
  }

  lemma Divide4(x: nat, q: nat, r: nat)
    requires x == 4 * q + r && r < 4
    ensures x / 4 == q && x % 4 == r
  {
  }

  lemma Divide16(x: nat, q: nat, r: nat)
    requires x == 16 * q + r && r < 16
    ensures x / 16 == q && x % 16 == r
  {
  }

  lemma Divide64(x: nat, q: nat, r: nat)
    requires x == 64 * q + r && r < 64
    ensures x / 64 == q && x % 64 == r
  {
  }

  /** The bits taken from the unmasked accumulator are those of the current group only. */
  lemma Take6(left: nat, c: Byte)
    ensures (left * 256 + c) / 4 % 64 == c / 4 && (left * 256 + c) % 4 == c % 4
  {
    Divide4(left * 256 + c, 64 * left + c / 4, c % 4);
    Divide64(64 * left + c / 4, left, c / 4);
  }

  lemma Take4(left: nat, c: Byte)
    ensures (left * 256 + c) / 16 % 64 == left % 4 * 16 + c / 16 && (left * 256 + c) % 16 == c % 16
  {
    Divide16(left * 256 + c, 16 * left + c / 16, c % 16);
    Divide64(16 * left + c / 16, left / 4, left % 4 * 16 + c / 16);
  }

  lemma Take2(left: nat, c: Byte)
    ensures (left * 256 + c) / 64 % 64 == left % 16 * 4 + c / 64 && (left * 256 + c) % 64 == c % 64
  {
    Divide64(left * 256 + c, 4 * left + c / 64, c % 64);
    Divide64(4 * left + c / 64, left / 16, left % 16 * 4 + c / 64);
  }

  lemma TakeBits(left: nat, c: Byte, bits: nat)
    requires bits == 0 || bits == 2 || bits == 4
    ensures bits == 0 ==> (left * 256 + c) / 4 % 64 == c / 4
    ensures bits == 2 ==> (left * 256 + c) / 16 % 64 == left % 4 * 16 + c / 16
    ensures bits == 4 ==> (left * 256 + c) / 64 % 64 == left % 16 * 4 + c / 64
    ensures (left * 256 + c) % 4 == c % 4 && (left * 256 + c) % 16 == c % 16 && (left * 256 + c) % 64 == c % 64
  {
    Take6(left, c);
    Take4(left, c);
    Take2(left, c);
  }

  function Pow2(n: nat): (r: nat)
    ensures r > 0
  {
    if n == 0 then 1 else 2 * Pow2(n - 1)
  }

  /** `g` holds the finished groups, `t` the unfinished one, `leftchar` its pending bits. */
  predicate Pending(t: seq<Byte>, leftchar: nat, leftbits: nat) {
    match |t|
    case 0 => leftbits == 0
    case 1 => leftbits == 2 && leftchar % 4 == t[0] % 4
    case 2 => leftbits == 4 && leftchar % 16 == t[1] % 16
    case _ => false
  }

  /** What the accumulator yields once byte `c` has come in after those of `t`. */
  lemma Emitted(t: seq<Byte>, leftchar: nat, leftbits: nat, c: Byte)
    requires Pending(t, leftchar, leftbits)
    ensures var x := leftchar * 256 + c;
            && x / Pow2(leftbits + 2) % 64
               == (if |t| == 0 then c / 4 else if |t| == 1 then t[0] % 4 * 16 + c / 16 else t[1] % 16 * 4 + c / 64)
            && x / Pow2(0) % 64 == c % 64
            && (|t| < 2 ==> Pending(t + [c], x, leftbits + 2))
  {
    TakeBits(leftchar, c, leftbits);
    assert Pow2(2) == 4 && Pow2(4) == 16 && Pow2(6) == 64 && Pow2(0) == 1;
  }

  /** One turn of the loop of `b2a_base64`. */
  method EncodeByte(leftchar: nat, leftbits: nat, c: Byte, ghost t: seq<Byte>)
    returns (leftchar': nat, leftbits': nat, out: seq<Byte>)
    requires Pending(t, leftchar, leftbits)
    ensures |t| < 2 ==> Pending(t + [c], leftchar', leftbits') && Partial(t) + out == Partial(t + [c])
    ensures |t| == 2 ==> Pending([], leftchar', leftbits')
                         && out == [Symbol(t[1] % 16 * 4 + c / 64), Symbol(c % 64)]
  {
    Emitted(t, leftchar, leftbits, c);
    assert leftbits == 2 * |t| && |t| <= 2 && (|t| == 2 ==> Pending([], leftchar * 256 + c, 0));
    hide Symbol, Pow2, Pending;
    leftchar' := leftchar * 256 + c;
    leftbits' := leftbits + 8;
    out := [Symbol(leftchar' / Pow2(leftbits' - 6) % 64)];
    leftbits' := leftbits' - 6;
    if leftbits' >= 6 {
      out := out + [Symbol(leftchar' / Pow2(leftbits' - 6) % 64)];
      leftbits' := leftbits' - 6;
    }
  }

  lemma ThreeMore(n: nat)
    requires n % 3 == 0
    ensures (n + 3) % 3 == 0
  {
  }

  /** One byte more: `g` and `t` are the finished groups and the unfinished one before it. */
  method EncodeNext(leftchar: nat, leftbits: nat, c: Byte, ghost g: seq<Byte>, ghost t: seq<Byte>)
    returns (leftchar': nat, leftbits': nat, out: seq<Byte>, ghost g': seq<Byte>, ghost t': seq<Byte>)
    requires |g| % 3 == 0 && Pending(t, leftchar, leftbits)
    ensures |g'| % 3 == 0 && Pending(t', leftchar', leftbits') && g' + t' == g + t + [c]
    ensures Encode(g') + Partial(t') == Encode(g) + Partial(t) + out
  {
    assert Partial([]) == [] && |t| <= 2;
    hide Symbol, Encode, Partial, Pending;
    leftchar', leftbits', out := EncodeByte(leftchar, leftbits, c, t);
    if |t| == 2 {
      QuadDone(g, t, c);
      ThreeMore(|g|);
      g', t' := g + t + [c], [];
      assert Encode(g') + Partial([]) == Encode(g') && g' + [] == g';
    } else {
      g', t' := g, t + [c];
      Associate(Encode(g), Partial(t), out);
    }
  }

  /** `b2a_base64(bin, newline)`. */
  method B2aBase64(bin: seq<Byte>, newline: bool) returns (res: seq<Byte>)
    ensures res == Encode(bin) + (if newline then [NEWLINE] else [])
  {
    res := [];
    var leftchar: nat, leftbits: nat := 0, 0;
    ghost var g: seq<Byte>, t: seq<Byte> := [], [];
    assert Encode(g) + Partial(t) == [];
    for i := 0 to |bin|
      invariant bin[..i] == g + t && |g| % 3 == 0 && Pending(t, leftchar, leftbits)
      invariant res == Encode(g) + Partial(t)
    {
      hide Symbol, Encode, Partial, Pending;
      var out;
      assert bin[..i + 1] == g + t + [bin[i]];
      leftchar, leftbits, out, g, t := EncodeNext(leftchar, leftbits, bin[i], g, t);
      res := res + out;
    }
    assert bin[..|bin|] == bin;
    EncodeEnd(g, t);
    hide Encode, Partial, Symbol;
    if leftbits == 2 {
      res := res + [Symbol(leftchar % 4 * 16), PAD, PAD];
    } else if leftbits == 4 {
      res := res + [Symbol(leftchar % 16 * 4), PAD];
    }
    if newline { res := res + [NEWLINE]; }
  }

  // ---------------------------------------------------------------- the decoder

  /** The variables of `a2b_base64`: position in the quad, pending bits and their number, whether
      the last symbol was a pad, and the output so far. */
  datatype Decoder = Decoder(quadPos: nat, leftchar: nat, leftbits: nat, lastPad: bool, out: seq<Byte>)

  const START := Decoder(0, 0, 0, false, [])

  predicate Ok(d: Decoder) { d.quadPos < 4 && d.leftbits < 8 && d.leftchar < Pow2(d.leftbits) }

  lemma PowerTable()
    ensures Pow2(0) == 1 && Pow2(1) == 2 && Pow2(2) == 4 && Pow2(3) == 8 && Pow2(4) == 16 && Pow2(5) == 32
    ensures Pow2(6) == 64 && Pow2(7) == 128 && Pow2(8) == 256 && Pow2(9) == 512 && Pow2(10) == 1024
    ensures Pow2(11) == 2048 && Pow2(12) == 4096 && Pow2(13) == 8192
  {
    assert Pow2(3) == 8;
    assert Pow2(6) == 64;
    assert Pow2(9) == 512;
    assert Pow2(11) == 2048;
  }

  lemma ShiftFits(left: nat, bits: nat, n: nat)
    requires left < Pow2(bits) && n < 64 && bits < 8
    ensures left * 64 + n < Pow2(bits + 6)
    ensures bits + 6 >= 8 ==> 0 <= (left * 64 + n) / Pow2(bits + 6 - 8) < 256
    ensures bits + 6 >= 8 ==> (left * 64 + n) % Pow2(bits + 6 - 8) < Pow2(bits + 6 - 8)
  {
    PowerTable();
    hide Pow2;
  }

  /** Shift one symbol in on the low end; output a byte if there is one. */
  function Shift(d: Decoder, n: nat): (r: Decoder)
    requires Ok(d) && n < 64
    ensures Ok(r)
  {
    var quadPos, left, bits := (d.quadPos + 1) % 4, d.leftchar * 64 + n, d.leftbits + 6;
    if bits >= 8 then
      ShiftFits(d.leftchar, d.leftbits, n);
      Decoder(quadPos, left % Pow2(bits - 8), bits - 8, false, d.out + [left / Pow2(bits - 8)])
    else
      ShiftFits(d.leftchar, d.leftbits, n);
      Decoder(quadPos, left, bits, false, d.out)
  }

  /** `a2b_base64` from state `d` on; None is the "Incorrect padding" exception. */
  function Decode(d: Decoder, s: seq<Byte>): Option<seq<Byte>>
    requires Ok(d)
    decreases |s|
  {
    if s == [] then (if d.leftbits != 0 then None else Some(d.out))
    else if s[0] == PAD then
      if d.quadPos > 2 || (d.quadPos == 2 && d.lastPad) then Some(d.out)
      else Decode(d.(lastPad := true), s[1..])
    else
      var n := Value(s[0]);
      if n.None? then Decode(d, s[1..]) else Decode(Shift(d, n.value), s[1..])
  }

  function A2b(s: seq<Byte>): Option<seq<Byte>> {
    PowerTable();
    Decode(START, s)
  }

  /** `a2b_base64(ascii)`. */
  method A2bBase64(ascii: seq<Byte>) returns (r: Option<seq<Byte>>)
    ensures r == A2b(ascii)
  {
    PowerTable();
    var d := START;
    for i := 0 to |ascii|
      invariant Ok(d) && Decode(d, ascii[i..]) == Decode(START, ascii)
    {
      hide Shift;
      assert ascii[i..][1..] == ascii[i + 1..];
      var c := ascii[i];
      if c == PAD {
        if d.quadPos > 2 || (d.quadPos == 2 && d.lastPad) { return Some(d.out); }
        d := d.(lastPad := true);
      } else {
        var n := Value(c);
        if n.None? { continue; }
        d := Shift(d, n.value);
      }
    }
    assert ascii[|ascii|..] == [];
    r := if d.leftbits != 0 then None else Some(d.out);
  }

  // ---------------------------------------------------------------- noise

  predicate Strange(c: Byte) { c != PAD && Value(c).None? }

  function WithoutStrange(s: seq<Byte>): seq<Byte> {
    if s == [] then [] else (if Strange(s[0]) then [] else [s[0]]) + WithoutStrange(s[1..])
  }

  lemma {:induction false} StrangeIgnored(d: Decoder, s: seq<Byte>)
    requires Ok(d)
    ensures Decode(d, s) == Decode(d, WithoutStrange(s))
    decreases |s|
  {
    if s != [] {
      hide Shift, Value;
      var rest := WithoutStrange(s[1..]);
      if Strange(s[0]) {
        StrangeIgnored(d, s[1..]);
        assert WithoutStrange(s) == rest;
      } else {
        assert WithoutStrange(s)[0] == s[0] && WithoutStrange(s)[1..] == rest;
        if s[0] == PAD {
          StrangeIgnored(d.(lastPad := true), s[1..]);
        } else {
          StrangeIgnored(Shift(d, Value(s[0]).value), s[1..]);
        }
      }
    }
  }

  /** Bytes outside the alphabet never change the decoded result, wherever they stand. */
  lemma NoiseInvariant(s: seq<Byte>, t: seq<Byte>)
    requires WithoutStrange(s) == WithoutStrange(t)
    ensures A2b(s) == A2b(t)
  {
    PowerTable();
    StrangeIgnored(START, s);
    StrangeIgnored(START, t);
  }

  // ---------------------------------------------------------------- round trip

  lemma SymbolValue(n: nat)
    requires n < 64
    ensures Value(Symbol(n)) == Some(n) && Symbol(n) != PAD
  {
  }

  lemma DecodeSymbol(d: Decoder, n: nat, rest: seq<Byte>)
    requires Ok(d) && n < 64
    ensures Decode(d, [Symbol(n)] + rest) == Decode(Shift(d, n), rest)
  {
    SymbolValue(n);
    hide Symbol, Value, Shift;
    assert ([Symbol(n)] + rest)[1..] == rest;
  }

  /** Between quads nothing is pending. */
  function Between(out: seq<Byte>): Decoder { Decoder(0, 0, 0, false, out) }

  /** The states of the decoder inside a quad whose bytes are `a`, `b`, `c`. */
  lemma QuadStates(out: seq<Byte>, a: Byte, b: Byte, c: Byte)
    ensures Ok(Between(out))
    ensures Shift(Between(out), a / 4) == Decoder(1, a / 4, 6, false, out)
    ensures Ok(Decoder(1, a / 4, 6, false, out))
         && Shift(Decoder(1, a / 4, 6, false, out), a % 4 * 16 + b / 16) == Decoder(2, b / 16, 4, false, out + [a])
    ensures Ok(Decoder(2, b / 16, 4, false, out + [a]))
         && Shift(Decoder(2, b / 16, 4, false, out + [a]), b % 16 * 4 + c / 64)
            == Decoder(3, c / 64, 2, false, out + [a, b])
    ensures Ok(Decoder(3, c / 64, 2, false, out + [a, b]))
         && Shift(Decoder(3, c / 64, 2, false, out + [a, b]), c % 64) == Between(out + [a, b, c])
  {
    PowerTable();
    hide Pow2;
    Divide16(a / 4 * 64 + (a % 4 * 16 + b / 16), a, b / 16);
    Divide4(b / 16 * 64 + (b % 16 * 4 + c / 64), b, c / 64);
    assert out + [a] + [b] == out + [a, b] && out + [a, b] + [c] == out + [a, b, c];
  }

  lemma DecodeQuad(out: seq<Byte>, a: Byte, b: Byte, c: Byte, rest: seq<Byte>)
    ensures Ok(Between(out)) && Ok(Between(out + [a, b, c]))
    ensures Decode(Between(out), Quad(a, b, c) + rest) == Decode(Between(out + [a, b, c]), rest)
  {
    QuadStates(out, a, b, c);
    QuadStates(out + [a, b, c], 0, 0, 0);
    hide Shift, Decode, Ok, Symbol;
    var s0, s1, s2, s3 := Symbol(a / 4), Symbol(a % 4 * 16 + b / 16), Symbol(b % 16 * 4 + c / 64), Symbol(c % 64);
    assert Quad(a, b, c) + rest == [s0] + ([s1] + ([s2] + ([s3] + rest)));
    DecodeSymbol(Between(out), a / 4, [s1] + ([s2] + ([s3] + rest)));
    DecodeSymbol(Decoder(1, a / 4, 6, false, out), a % 4 * 16 + b / 16, [s2] + ([s3] + rest));
    DecodeSymbol(Decoder(2, b / 16, 4, false, out + [a]), b % 16 * 4 + c / 64, [s3] + rest);
    DecodeSymbol(Decoder(3, c / 64, 2, false, out + [a, b]), c % 64, rest);
  }

  /** A last group of one or two bytes ends the decoding at its padding. */
  lemma DecodeOne(out: seq<Byte>, a: Byte, rest: seq<Byte>)
    ensures Ok(Between(out)) && Decode(Between(out), Encode([a]) + rest) == Some(out + [a])
  {
    QuadStates(out, a, 0, 0);
    var s0, s1 := Symbol(a / 4), Symbol(a % 4 * 16);
    assert Encode([a]) + rest == [s0] + ([s1] + ([PAD, PAD] + rest));
    hide Shift, Symbol;
    DecodeSymbol(Between(out), a / 4, [s1] + ([PAD, PAD] + rest));
    DecodeSymbol(Decoder(1, a / 4, 6, false, out), a % 4 * 16, [PAD, PAD] + rest);
    var pads := [PAD, PAD] + rest;
    assert pads[1..] == [PAD] + rest && pads[0] == PAD && ([PAD] + rest)[0] == PAD;
  }

  lemma DecodeTwo(out: seq<Byte>, a: Byte, b: Byte, rest: seq<Byte>)
    ensures Ok(Between(out)) && Decode(Between(out), Encode([a, b]) + rest) == Some(out + [a, b])
  {
    QuadStates(out, a, b, 0);
    var s0, s1, s2 := Symbol(a / 4), Symbol(a % 4 * 16 + b / 16), Symbol(b % 16 * 4);
    assert Encode([a, b]) + rest == [s0] + ([s1] + ([s2] + ([PAD] + rest)));
    hide Shift, Symbol;
    DecodeSymbol(Between(out), a / 4, [s1] + ([s2] + ([PAD] + rest)));
    DecodeSymbol(Decoder(1, a / 4, 6, false, out), a % 4 * 16 + b / 16, [s2] + ([PAD] + rest));
    DecodeSymbol(Decoder(2, b / 16, 4, false, out + [a]), b % 16 * 4, [PAD] + rest);
    assert ([PAD] + rest)[0] == PAD;
  }

  lemma BetweenOk(out: seq<Byte>)
    ensures Ok(Between(out)) && Decode(Between(out), []) == Some(out)
  {
  }

  lemma NewlineIgnored(d: Decoder, rest: seq<Byte>)
    requires Ok(d)
    ensures Decode(d, [NEWLINE] + rest) == Decode(d, rest)
  {
    assert ([NEWLINE] + rest)[1..] == rest;
  }

  lemma EncodeEmpty()
    ensures Encode([]) == []
  {
  }

  lemma EncodeMore(s: seq<Byte>)
    requires |s| >= 3
    ensures Encode(s) == Quad(s[0], s[1], s[2]) + Encode(s[3..])
  {
    hide Quad, Symbol;
  }

  lemma EncodeParts(s: seq<Byte>, rest: seq<Byte>)
    requires |s| >= 3
    ensures Encode(s) + rest == Quad(s[0], s[1], s[2]) + (Encode(s[3..]) + rest)
  {
    hide *;
    EncodeMore(s);
    Associate(Quad(s[0], s[1], s[2]), Encode(s[3..]), rest);
  }

  /** Decoding an encoding yields its bytes; unless it was padded, decoding then goes on. */
  lemma {:induction false} DecodeEncoded(out: seq<Byte>, s: seq<Byte>, rest: seq<Byte>)
    ensures Ok(Between(out)) && Ok(Between(out + s))
    ensures Decode(Between(out), Encode(s) + rest)
         == if |s| % 3 == 0 then Decode(Between(out + s), rest) else Some(out + s)
    decreases |s|
  {
    BetweenOk(out);
    BetweenOk(out + s);
    hide *;
    if s == [] {
      EncodeEmpty();
      assert out + s == out && Encode(s) + rest == rest;
    } else if |s| == 1 {
      assert s == [s[0]];
      DecodeOne(out, s[0], rest);
    } else if |s| == 2 {
      assert s == [s[0], s[1]];
      DecodeTwo(out, s[0], s[1], rest);
    } else {
      var t := out + [s[0], s[1], s[2]];
      EncodeParts(s, rest);
      DecodeQuad(out, s[0], s[1], s[2], Encode(s[3..]) + rest);
      DecodeEncoded(t, s[3..], rest);
      assert t + s[3..] == out + s;
    }
  }

  /** `a2b_base64` inverts `b2a_base64` on every byte string, with or without the newline. */
  lemma Base64RoundTrip(s: seq<Byte>, newline: bool)
    ensures A2b(Encode(s) + (if newline then [NEWLINE] else [])) == Some(s)
  {
    PowerTable();
    var rest := if newline then [NEWLINE] else [];
    DecodeEncoded([], s, rest);
    assert [] + s == s;
  }

  // ---------------------------------------------------------------- cut encodings

  /** One to three characters of a group leave bits behind. */
  lemma CutGroup(out: seq<Byte>, a: Byte, b: Byte, c: Byte)
    ensures Ok(Between(out)) && Decode(Between(out), [Symbol(a / 4)]) == None
    ensures var two := [Symbol(a / 4), Symbol(a % 4 * 16 + b / 16)];
            && Decode(Between(out), two) == None && Decode(Between(out), two + [PAD]) == None
            && Decode(Between(out), two + [Symbol(b % 16 * 4 + c / 64)]) == None
  {
    QuadStates(out, a, b, c);
    hide Shift, Symbol;
    var m, n, p := a / 4, a % 4 * 16 + b / 16, b % 16 * 4 + c / 64;
    var d1, d2 := Decoder(1, m, 6, false, out), Decoder(2, b / 16, 4, false, out + [a]);
    DecodeSymbol(Between(out), m, []);
    assert [Symbol(m)] + [] == [Symbol(m)];
    DecodeSymbol(Between(out), m, [Symbol(n)]);
    assert [Symbol(m)] + [Symbol(n)] == [Symbol(m), Symbol(n)];
    DecodeSymbol(d1, n, []);
    assert [Symbol(n)] + [] == [Symbol(n)];
    DecodeSymbol(Between(out), m, [Symbol(n)] + [PAD]);
    assert [Symbol(m), Symbol(n)] + [PAD] == [Symbol(m)] + ([Symbol(n)] + [PAD]);
    DecodeSymbol(d1, n, [PAD]);
    assert [PAD][1..] == [];
    DecodeSymbol(Between(out), m, [Symbol(n)] + [Symbol(p)]);
    assert [Symbol(m), Symbol(n)] + [Symbol(p)] == [Symbol(m)] + ([Symbol(n)] + [Symbol(p)]);
    DecodeSymbol(d1, n, [Symbol(p)]);
    DecodeSymbol(d2, p, []);
    assert [Symbol(p)] + [] == [Symbol(p)];
  }

  lemma CutFirst(out: seq<Byte>, s: seq<Byte>, k: nat)
    requires s != [] && 0 < k < 4
    ensures |Encode(s)| >= 4 && Ok(Between(out)) && Decode(Between(out), Encode(s)[..k]) == None
  {
    var a, b, c := s[0], if |s| > 1 then s[1] else 0, if |s| > 2 then s[2] else 0;
    CutGroup(out, a, b, c);
    if |s| >= 3 { EncodeMore(s); }
    hide Decode, Symbol;
    var two := [Symbol(a / 4), Symbol(a % 4 * 16 + b / 16)];
    var e := Encode(s);
    assert e[..1] == [Symbol(a / 4)] && e[..2] == two;
    assert e[..3] == two + (if |s| == 1 then [PAD] else [Symbol(b % 16 * 4 + c / 64)]);
  }

  lemma Thirds(n: nat)
    requires n >= 3
    ensures (n + 2) / 3 == (n - 3 + 2) / 3 + 1
  {
  }

  lemma QuadSymbols(a: Byte, b: Byte, c: Byte)
    ensures |Quad(a, b, c)| == 4 && NEWLINE !in Quad(a, b, c)
  {
  }

  /** Four symbols for every three bytes begun. */
  lemma {:induction false} EncodeLength(s: seq<Byte>)
    ensures |Encode(s)| == (|s| + 2) / 3 * 4 && NEWLINE !in Encode(s)
    decreases |s|
  {
    if |s| >= 3 {
      EncodeLength(s[3..]);
      EncodeMore(s);
      hide Quad, Encode;
      QuadSymbols(s[0], s[1], s[2]);
      Thirds(|s|);
    }
  }

  /** An encoding that is cut short is refused, unless the cut falls between groups of four; then
      it decodes to the bytes of the groups that are left. */
  lemma {:induction false} DecodeCut(out: seq<Byte>, s: seq<Byte>, k: nat)
    requires k < |Encode(s)|
    ensures Ok(Between(out)) && k / 4 * 3 <= |s|
    ensures Decode(Between(out), Encode(s)[..k]) == if k % 4 == 0 then Some(out + s[..k / 4 * 3]) else None
    decreases |s|
  {
    EncodeLength(s);
    BetweenOk(out);
    if k == 0 {
      assert Encode(s)[..0] == [] && out + s[..0] == out;
    } else if k < 4 {
      CutFirst(out, s, k);
    } else {
      CutLater(out, s, k);
    }
  }

  lemma Quarters(k: nat, n: nat)
    requires 4 <= k
    ensures (k - 4) / 4 == k / 4 - 1 && (k - 4) % 4 == k % 4
    ensures k < (n + 2) / 3 * 4 ==> n >= 3
  {
  }

  lemma {:induction false} CutLater(out: seq<Byte>, s: seq<Byte>, k: nat)
    requires 4 <= k < |Encode(s)|
    ensures Ok(Between(out)) && k / 4 * 3 <= |s|
    ensures Decode(Between(out), Encode(s)[..k]) == if k % 4 == 0 then Some(out + s[..k / 4 * 3]) else None
    decreases |s|, 0
  {
    hide Decode, Encode, Quad, Ok;
    EncodeLength(s);
    Quarters(k, |s|);
    EncodeMore(s);
    QuadSymbols(s[0], s[1], s[2]);
    var t, q, rest := out + [s[0], s[1], s[2]], Quad(s[0], s[1], s[2]), s[3..];
    DecodeQuad(out, s[0], s[1], s[2], Encode(rest)[..k - 4]);
    DecodeCut(t, rest, k - 4);
    assert (q + Encode(rest))[..k] == q + Encode(rest)[..k - 4];
    var n := k / 4 * 3;
    assert t + rest[..n - 3] == out + s[..n];
  }

  lemma CutRefusedIff(s: seq<Byte>, k: nat)
    requires k < |Encode(s)|
    ensures k / 4 * 3 <= |s| && A2b(Encode(s)[..k]) == if k % 4 == 0 then Some(s[..k / 4 * 3]) else None
  {
    PowerTable();
    DecodeCut([], s, k);
    hide Decode, Encode;
    assert k / 4 * 3 <= |s| ==> [] + s[..k / 4 * 3] == s[..k / 4 * 3];
  }

  // ---------------------------------------------------------------- lines

  const MAXBINSIZE := 57

  /** `encodebytes`: lines of at most 57 bytes, each with its newline. */
  function Lines(s: seq<Byte>): seq<Byte> {
    if s == [] then []
    else if |s| <= MAXBINSIZE then Encode(s) + [NEWLINE]
    else Encode(s[..MAXBINSIZE]) + [NEWLINE] + Lines(s[MAXBINSIZE..])
  }

  method EncodeBytes(s: seq<Byte>) returns (r: seq<Byte>)
    ensures r == Lines(s)
  {
    r := [];
    var i := 0;
    hide Encode;
    while i < |s|
      invariant 0 <= i && (i <= |s| ==> r + Lines(s[i..]) == Lines(s)) && (i > |s| ==> r == Lines(s))
    {
      var n := if i + MAXBINSIZE < |s| then i + MAXBINSIZE else |s|;
      var line := B2aBase64(s[i..n], true);
      assert i + MAXBINSIZE < |s| ==> s[i..][..MAXBINSIZE] == s[i..n] && s[i..][MAXBINSIZE..] == s[n..];
      assert i + MAXBINSIZE >= |s| ==> s[i..n] == s[i..];
      r := r + line;
      i := i + MAXBINSIZE;
      assert i == |s| ==> s[i..] == [];
    }
  }

  lemma LinesSplit(s: seq<Byte>)
    ensures s == [] ==> Lines(s) == []
    ensures 0 < |s| <= MAXBINSIZE ==> Lines(s) == Encode(s) + [NEWLINE]
    ensures |s| > MAXBINSIZE ==>
              Lines(s) == Encode(s[..MAXBINSIZE]) + ([NEWLINE] + Lines(s[MAXBINSIZE..]))
  {
    hide Encode;
  }

  lemma LineSymbols(s: seq<Byte>)
    requires |s| <= MAXBINSIZE
    ensures |Encode(s)| <= 76 && (|s| == MAXBINSIZE ==> |Encode(s)| == 76) && NEWLINE !in Encode(s)
  {
    EncodeLength(s);
    hide Encode;
  }

  /** A newline stands after every 76 symbols and at the end, and nowhere else. */
  predicate BreakAt(lines: seq<Byte>, i: nat)
    requires i < |lines|
  {
    lines[i] == NEWLINE <==> i % 77 == 76 || i == |lines| - 1
  }

  lemma LastBreak(line: seq<Byte>, i: nat)
    requires |line| <= 76 && NEWLINE !in line && i <= |line|
    ensures BreakAt(line + [NEWLINE], i)
  {
    if i < |line| { assert line[i] in line; }
  }

  lemma NextBreak(line: seq<Byte>, rest: seq<Byte>, i: nat)
    requires |line| == 76 && NEWLINE !in line && rest != [] && i < 77 + |rest| && (i >= 77 ==> BreakAt(rest, i - 77))
    ensures BreakAt(line + ([NEWLINE] + rest), i)
  {
    if i < 76 { assert line[i] in line; }
  }

  /** Every line has 76 symbols and its newline; only the last may be shorter. */
  lemma {:induction false} LineBreaks(s: seq<Byte>, i: nat)
    requires i < |Lines(s)|
    ensures BreakAt(Lines(s), i)
    decreases |s|
  {
    LinesSplit(s);
    hide Encode, Lines, BreakAt;
    if |s| <= MAXBINSIZE {
      LineSymbols(s);
      LastBreak(Encode(s), i);
    } else {
      var line, rest := s[..MAXBINSIZE], s[MAXBINSIZE..];
      LineSymbols(line);
      LinesSplit(rest);
      if i >= 77 { LineBreaks(rest, i - 77); }
      NextBreak(Encode(line), Lines(rest), i);
    }
  }

  /** `decodebytes` inverts `encodebytes`, however many lines there are. */
  lemma {:induction false} LinesRoundTrip(out: seq<Byte>, s: seq<Byte>)
    ensures Ok(Between(out)) && Decode(Between(out), Lines(s)) == Some(out + s)
    decreases |s|
  {
    BetweenOk(out);
    LinesSplit(s);
    hide Encode, Decode, Ok, Between, Lines;
    if s == [] {
      assert out + s == out;
    } else if |s| <= MAXBINSIZE {
      BetweenOk(out + s);
      DecodeEncoded(out, s, [NEWLINE]);
      assert [NEWLINE] + [] == [NEWLINE];
      NewlineIgnored(Between(out + s), []);
    } else {
      var line, more := s[..MAXBINSIZE], s[MAXBINSIZE..];
      DecodeEncoded(out, line, [NEWLINE] + Lines(more));
      NewlineIgnored(Between(out + line), Lines(more));
      LinesRoundTrip(out + line, more);
      assert out + line + more == out + s;
    }
  }

  lemma EncodeBytesRoundTrip(s: seq<Byte>)
    ensures A2b(Lines(s)) == Some(s)
  {
    LinesRoundTrip([], s);
    assert [] + s == s;
  }
}

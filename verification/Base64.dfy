/** The lenient base64 decoder used on token payloads: both alphabets, padding optional. */
module Base64 {
  import opened Text

  const U32_LIMIT := 0x1_0000_0000

  type Octet = x: int | 0 <= x < 256

  type Sextet = x: int | 0 <= x < 64

  function Pow2(n: nat): (p: nat)
    ensures p > 0
  {
    if n == 0 then 1 else 2 * Pow2(n - 1)
  }

  const PAD: Octet := 0x3D

  /** The value of a symbol of section 4 or section 5 of RFC 4648. */
  function SymbolValue(b: Octet): Option<Sextet> {
    if 0x41 <= b <= 0x5A then Some(b - 0x41)
    else if 0x61 <= b <= 0x7A then Some(b - 0x61 + 26)
    else if 0x30 <= b <= 0x39 then Some(b - 0x30 + 52)
    else if b == 0x2D || b == 0x2B then Some(62)
    else if b == 0x5F || b == 0x2F then Some(63)
    else None
  }

  datatype Alphabet = Standard | UrlSafe

  function Symbol(a: Alphabet, v: Sextet): (b: Octet)
    ensures SymbolValue(b) == Some(v) && b != PAD
  {
    if v < 26 then 0x41 + v
    else if v < 52 then 0x61 + v - 26
    else if v < 62 then 0x30 + v - 52
    else if v == 62 then (if a.UrlSafe? then 0x2D else 0x2B)
    else (if a.UrlSafe? then 0x5F else 0x2F)
  }

  /** The bit accumulator: `bits` pending bits, worth `buffer`. */
  datatype Accumulator = Accumulator(buffer: nat, bits: nat)

  /** At most one pending bit pair short of an octet, and no value beyond the pending bits. */
  predicate Small(a: Accumulator) {
    a.bits in {0, 2, 4, 6} && a.buffer < Pow2(a.bits)
  }

  /** One symbol: the accumulator after it, and the octet it completes. */
  function Absorb(a: Accumulator, v: Sextet): (Accumulator, seq<int>)
  {
    var buffer, bits := a.buffer * 64 + v, a.bits + 6;
    if bits >= 8 then (Accumulator(buffer % Pow2(bits - 8), bits - 8), [buffer / Pow2(bits - 8) % 256])
    else (Accumulator(buffer, bits), [])
  }

  /** Decoding from a given accumulator. */
  function DecodeFrom(a: Accumulator, input: seq<Octet>): Option<seq<int>>
    decreases |input|
  {
    if input == [] || input[0] == PAD then Some([])
    else
      match SymbolValue(input[0])
      case None => None
      case Some(v) =>
        var (a', out) := Absorb(a, v);
        match DecodeFrom(a', input[1..])
        case None => None
        case Some(rest) => Some(out + rest)
  }

  function Decode(input: seq<Octet>): Option<seq<int>> { DecodeFrom(Accumulator(0, 0), input) }

  lemma SmallPowers()
    ensures Pow2(0) == 1 && Pow2(2) == 4 && Pow2(4) == 16 && Pow2(6) == 64
  {
    assert Pow2(1) == 2 && Pow2(3) == 8 && Pow2(5) == 32;
  }

  /** The accumulator stays small: the 32-bit buffer never overflows and every output is an octet. */
  lemma AbsorbStaysSmall(a: Accumulator, v: Sextet)
    requires Small(a)
    ensures a.buffer * 64 + v < U32_LIMIT && a.bits + 6 < 256
    ensures Small(Absorb(a, v).0) && forall x :: x in Absorb(a, v).1 ==> 0 <= x < 256
  {
    SmallPowers();
  }

  method DecodeBase64Url(input: seq<Octet>) returns (r: Option<seq<int>>)
    ensures r == Decode(input)
  {
    hide Absorb, Pow2, SymbolValue;
    var output: seq<int> := [];
    var buffer: nat, bits: nat := 0, 0;
    Start();
    ghost var all := Decode(input);
    assert all.Some? ==> [] + all.value == all.value;
    for i := 0 to |input|
      invariant Small(Accumulator(buffer, bits))
      invariant var rest := DecodeFrom(Accumulator(buffer, bits), input[i..]);
                && (all.Some? <==> rest.Some?)
                && (all.Some? ==> all.value == output + rest.value)
    {
      assert input[i..][0] == input[i] && input[i..][1..] == input[i + 1..];
      var byte := input[i];
      if byte == PAD {
        assert output + [] == output;
        return Some(output);
      }
      var value := SymbolValue(byte);
      if value.None? { return None; }
      ghost var before, from := output, Accumulator(buffer, bits);
      AbsorbStaysSmall(from, value.value);
      AbsorbIs(from, value.value);
      // The source keeps these in a u32 and a u8; neither overflows here.
      assert buffer * 64 + value.value < U32_LIMIT && bits + 6 < 256;
      buffer := buffer * 64 + value.value;
      bits := bits + 6;
      if bits >= 8 {
        bits := bits - 8;
        output := output + [buffer / Pow2(bits) % 256];
        buffer := buffer % Pow2(bits);
      }
      ghost var step := Absorb(from, value.value);
      assert output == before + step.1;
      ghost var rest := DecodeFrom(step.0, input[i + 1..]);
      if rest.Some? { assert before + (step.1 + rest.value) == (before + step.1) + rest.value; }
    }
    assert input[|input|..] == [] && output + [] == output;
    r := Some(output);
  }

  lemma Start()
    ensures Small(Accumulator(0, 0))
  {
    SmallPowers();
  }

  lemma AbsorbIs(a: Accumulator, v: Sextet)
    ensures var buffer, bits := a.buffer * 64 + v, a.bits + 6;
            Absorb(a, v) ==
              if bits >= 8 then (Accumulator(buffer % Pow2(bits - 8), bits - 8), [buffer / Pow2(bits - 8) % 256])
              else (Accumulator(buffer, bits), [])
  {}

  // ---- Round trip ----

  /** The symbols of one group of one to three octets, as RFC 4648 lays out their bits. */
  function Group(a: Alphabet, data: seq<Octet>): seq<Octet>
    requires 1 <= |data| <= 3
  {
    var second: int := if |data| > 1 then data[1] else 0;
    var third: int := if |data| > 2 then data[2] else 0;
    var value: int := data[0] * 65536 + second * 256 + third;
    [Symbol(a, value / 262144), Symbol(a, value / 4096 % 64)]
    + (if |data| > 1 then [Symbol(a, value / 64 % 64)] else [])
    + (if |data| > 2 then [Symbol(a, value % 64)] else [])
  }

  function Padding(n: nat): seq<Octet> {
    if n == 1 then [PAD, PAD] else if n == 2 then [PAD] else []
  }

  function Encode(a: Alphabet, padded: bool, data: seq<Octet>): seq<Octet>
    decreases |data|
  {
    if data == [] then []
    else if |data| < 3 then Group(a, data) + if padded then Padding(|data|) else []
    else Group(a, data[..3]) + Encode(a, padded, data[3..])
  }

  lemma DecodeSymbol(acc: Accumulator, a: Alphabet, v: Sextet, rest: seq<Octet>)
    ensures var (acc', out) := Absorb(acc, v);
            DecodeFrom(acc, [Symbol(a, v)] + rest) ==
            match DecodeFrom(acc', rest) case None => None case Some(more) => Some(out + more)
  {
    assert ([Symbol(a, v)] + rest)[1..] == rest;
  }

  /** The four sextets of a group, octet by octet. */
  lemma Sextets(x: Octet, y: Octet, z: Octet)
    ensures var value: int := x * 65536 + y * 256 + z;
            && value / 262144 == x / 4
            && value / 4096 % 64 == x % 4 * 16 + y / 16
            && value / 64 % 64 == y % 16 * 4 + z / 64
            && value % 64 == z % 64
  {
    Quotient(x / 4, x % 4 * 65536 + y * 256 + z, 262144);
    Quotient(x * 16 + y / 16, y % 16 * 256 + z, 4096);
    Quotient(x / 4, x % 4 * 16 + y / 16, 64);
    Quotient(x * 1024 + y * 4 + z / 64, z % 64, 64);
    Quotient(x * 16 + y / 16, y % 16 * 4 + z / 64, 64);
  }

  lemma Quotient(q: nat, r: nat, d: nat)
    requires r < d
    ensures (q * d + r) / d == q && (q * d + r) % d == r
  {
    var n := q * d + r;
    var k, m := n / d, n % d;
    assert n == k * d + m;
    Gap(q, k, d);
    Gap(k, q, d);
  }

  lemma Gap(a: nat, b: nat, d: nat)
    ensures a > b ==> a * d - b * d >= d
  {
    if a > b {
      assert a * d - b * d == (a - b) * d;
      assert (a - b) * d == (a - b - 1) * d + d;
    }
  }

  /** Feeding them in turn gives the octets back. */
  lemma FullGroup(x: Octet, y: Octet, z: Octet)
    ensures var value: int := x * 65536 + y * 256 + z;
            var s0, s1, s2, s3 := value / 262144, value / 4096 % 64, value / 64 % 64, value % 64;
            && Absorb(Accumulator(0, 0), s0) == (Accumulator(s0, 6), [])
            && Absorb(Accumulator(s0, 6), s1) == (Accumulator(y / 16, 4), [x])
            && Absorb(Accumulator(y / 16, 4), s2) == (Accumulator(z / 64, 2), [y])
            && Absorb(Accumulator(z / 64, 2), s3) == (Accumulator(0, 0), [z])
  {
    hide Absorb;
    Sextets(x, y, z);
    FirstSymbol(x / 4);
    SecondSymbol(x, y / 16);
    ThirdSymbol(y, z / 64);
    FourthSymbol(z);
  }

  lemma FirstSymbol(v: Sextet)
    ensures Absorb(Accumulator(0, 0), v) == (Accumulator(v, 6), [])
  {}

  lemma SecondSymbol(x: Octet, high: nat)
    requires high < 16
    ensures Absorb(Accumulator(x / 4, 6), x % 4 * 16 + high) == (Accumulator(high, 4), [x])
  {
    SmallPowers();
    assert x / 4 * 64 + (x % 4 * 16 + high) == x * 16 + high;
    Quotient(x, high, 16);
  }

  lemma ThirdSymbol(y: Octet, high: nat)
    requires high < 4
    ensures Absorb(Accumulator(y / 16, 4), y % 16 * 4 + high) == (Accumulator(high, 2), [y])
  {
    SmallPowers();
    assert y / 16 * 64 + (y % 16 * 4 + high) == y * 4 + high;
    Quotient(y, high, 4);
  }

  lemma FourthSymbol(z: Octet)
    ensures Absorb(Accumulator(z / 64, 2), z % 64) == (Accumulator(0, 0), [z])
  {
    SmallPowers();
    assert z / 64 * 64 + z % 64 == z;
  }

  lemma DecodeGroup(a: Alphabet, data: seq<Octet>, rest: seq<Octet>)
    requires |data| == 3 && Decode(rest).Some?
    ensures Decode(Group(a, data) + rest) == Some(data + Decode(rest).value)
  {
    hide Absorb, SymbolValue, Symbol, DecodeFrom;
    var x, y, z := data[0], data[1], data[2];
    var value: int := x * 65536 + y * 256 + z;
    var s0, s1, s2, s3 := value / 262144, value / 4096 % 64, value / 64 % 64, value % 64;
    FullGroup(x, y, z);
    var t3 := [Symbol(a, s3)] + rest;
    var t2 := [Symbol(a, s2)] + t3;
    var t1 := [Symbol(a, s1)] + t2;
    assert Group(a, data) + rest == [Symbol(a, s0)] + t1;
    DecodeSymbol(Accumulator(0, 0), a, s0, t1);
    DecodeSymbol(Accumulator(s0, 6), a, s1, t2);
    DecodeSymbol(Accumulator(y / 16, 4), a, s2, t3);
    DecodeSymbol(Accumulator(z / 64, 2), a, s3, rest);
    var more := Decode(rest).value;
    assert [] + ([x] + ([y] + ([z] + more))) == data + more;
  }

  /** A short last group, padded or not, carries its one or two octets. */
  lemma DecodeTail(a: Alphabet, padded: bool, data: seq<Octet>)
    requires 1 <= |data| <= 2
    ensures Decode(Encode(a, padded, data)) == Some(data)
  {
    hide Absorb, SymbolValue, Symbol;
    var x: Octet, y: Octet := data[0], if |data| > 1 then data[1] else 0;
    var value: int := x * 65536 + y * 256;
    var s0, s1, s2 := value / 262144, value / 4096 % 64, value / 64 % 64;
    FullGroup(x, y, 0);
    var pad := if padded then Padding(|data|) else [];
    var t2 := if |data| > 1 then [Symbol(a, s2)] + pad else pad;
    var t1 := [Symbol(a, s1)] + t2;
    assert Encode(a, padded, data) == [Symbol(a, s0)] + t1;
    DecodeSymbol(Accumulator(0, 0), a, s0, t1);
    DecodeSymbol(Accumulator(s0, 6), a, s1, t2);
    if |data| > 1 {
      DecodeSymbol(Accumulator(y / 16, 4), a, s2, pad);
      assert [] + ([x] + ([y] + [])) == data;
    } else {
      assert [] + ([x] + []) == data;
    }
  }

  /** Decoding undoes encoding, in either alphabet, with or without padding. */
  lemma {:induction false} RoundTrip(a: Alphabet, padded: bool, data: seq<Octet>)
    ensures Decode(Encode(a, padded, data)) == Some(data)
    decreases |data|
  {
    hide Group, DecodeFrom, Padding;
    if data == [] {
      NothingDecodes();
    } else if |data| < 3 {
      DecodeTail(a, padded, data);
    } else {
      RoundTrip(a, padded, data[3..]);
      DecodeGroup(a, data[..3], Encode(a, padded, data[3..]));
      assert data == data[..3] + data[3..];
    }
  }

  lemma NothingDecodes()
    ensures Decode([]) == Some([])
  {}

  /** Decoding fails exactly when a foreign byte comes before any padding. */
  lemma {:induction false} FailsOnForeignByte(acc: Accumulator, input: seq<Octet>)
    ensures DecodeFrom(acc, input).None? <==>
            exists i :: 0 <= i < |input| && SymbolValue(input[i]).None? && input[i] != PAD && PAD !in input[..i]
    decreases |input|
  {
    hide Absorb, SymbolValue;
    if input != [] && input[0] != PAD && SymbolValue(input[0]).Some? {
      var rest := input[1..];
      FailsOnForeignByte(Absorb(acc, SymbolValue(input[0]).value).0, rest);
      if i :| 0 <= i < |rest| && SymbolValue(rest[i]).None? && rest[i] != PAD && PAD !in rest[..i] {
        assert input[..i + 1] == [input[0]] + rest[..i];
        assert input[i + 1] == rest[i];
      }
      if i :| 0 <= i < |input| && SymbolValue(input[i]).None? && input[i] != PAD && PAD !in input[..i] {
        assert rest[i - 1] == input[i];
        assert input[..i] == [input[0]] + rest[..i - 1];
      }
    } else if input != [] && input[0] == PAD {
      assert forall i :: 0 < i <= |input| ==> input[..i][0] == PAD;
    } else if input != [] {
      assert PAD !in input[..0];
    }
  }

  /** Padding ends the input: what follows it is not looked at. */
  lemma {:induction false} PaddingEnds(acc: Accumulator, input: seq<Octet>, rest: seq<Octet>)
    ensures DecodeFrom(acc, input + [PAD] + rest) == DecodeFrom(acc, input)
    decreases |input|
  {
    hide Absorb, SymbolValue;
    var all := input + [PAD] + rest;
    if input == [] {
      assert all[0] == PAD;
    } else if input[0] != PAD && SymbolValue(input[0]).Some? {
      assert all[0] == input[0] && all[1..] == input[1..] + [PAD] + rest;
      PaddingEnds(Absorb(acc, SymbolValue(input[0]).value).0, input[1..], rest);
    } else {
      assert all[0] == input[0];
    }
  }

  const UPPER := "ABCDEFGHIJKLMNOPQRSTUVWXYZ"
  const LOWER := "abcdefghijklmnopqrstuvwxyz"
  const DIGITS := "0123456789"

  /** The tables of sections 4 and 5 of RFC 4648. */
  const STANDARD := UPPER + LOWER + DIGITS + "+/"
  const URL_SAFE := UPPER + LOWER + DIGITS + "-_"

  lemma LettersAreInOrder(i: nat)
    ensures |UPPER| == |LOWER| == 26 && |DIGITS| == 10
    ensures i < 26 ==> UPPER[i] as int == 0x41 + i && LOWER[i] as int == 0x61 + i
    ensures i < 10 ==> DIGITS[i] as int == 0x30 + i
  {}

  /** A byte has a value exactly if one of the tables lists it, and then its value is its place there. */
  lemma SymbolsAre(b: Octet, v: Sextet)
    ensures |STANDARD| == |URL_SAFE| == 64
    ensures SymbolValue(b) == Some(v) <==> b == STANDARD[v] as int || b == URL_SAFE[v] as int
  {
    LettersAreInOrder(if v < 26 then v else if v < 52 then v - 26 else if v < 62 then v - 52 else 0);
  }
}

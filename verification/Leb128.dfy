/** Signed LEB128 (section 7.6 of DWARF Version 4) as the binary serializer writes and reads it, over
    byte streams. */
module Leb128 {
  import opened Values
  import Levels

  type Byte = b: int | 0 <= b < 256

  /** An output stream. */
  class Output {
    var bytes: seq<Byte>

    constructor ()
      ensures bytes == []
    {
      bytes := [];
    }

    method Put(b: Byte)
      modifies this
      ensures bytes == old(bytes) + [b]
    {
      bytes := bytes + [b];
    }
  }

  /** An input stream: what has not been read yet. */
  class Input {
    var rest: seq<Byte>

    constructor (s: seq<Byte>)
      ensures rest == s
    {
      rest := s;
    }

    method Get() returns (b: Byte)
      requires rest != []
      modifies this
      ensures b == old(rest)[0] && rest == old(rest)[1..]
    {
      b := rest[0];
      rest := rest[1..];
    }
  }

  function Pow(k: nat): nat {
    if k == 0 then 1 else 128 * Pow(k - 1)
  }

  /** No more bytes are needed after byte b (7 bits) when v is what remains. */
  predicate Last(b: int, v: int) {
    (v == 0 && b < 64) || (v == -1 && b >= 64)
  }

  function Encode(v: int): seq<Byte>
    decreases Abs(v)
  {
    var b := v % 128;
    if Last(b, v / 128) then [b] else [b + 128] + Encode(v / 128)
  }

  /** The last byte carries the sign. */
  function Signed7(b: int): int {
    if b >= 64 then b - 128 else b
  }

  /** The number a byte sequence starts with, and what follows it; None when it never ends. */
  function Decode(s: seq<Byte>): Option<(int, seq<Byte>)> {
    if s == [] then None
    else if s[0] < 128 then Some((Signed7(s[0]), s[1..]))
    else match Decode(s[1..])
      case None => None
      case Some((n, rest)) => Some((s[0] - 128 + 128 * n, rest))
  }

  /** Decoding inverts encoding, with any bytes behind, and consumes exactly the encoded bytes. */
  lemma {:induction false} RoundTrip(v: int, suffix: seq<Byte>)
    ensures Decode(Encode(v) + suffix) == Some((v, suffix))
    decreases Abs(v)
  {
    var b := v % 128;
    var s := Encode(v) + suffix;
    if Last(b, v / 128) {
      assert s[1..] == suffix;
    } else {
      assert s[1..] == Encode(v / 128) + suffix;
      RoundTrip(v / 128, suffix);
    }
  }

  /** k bytes are enough exactly for the numbers of 7k bits; ten bytes hold every 64-bit integer. */
  lemma {:induction false} Length(v: int, k: nat)
    requires k > 0
    ensures |Encode(v)| <= k <==> -64 * Pow(k - 1) <= v < 64 * Pow(k - 1)
    decreases k
  {
    if k > 1 {
      var w := v / 128;
      assert Pow(k - 1) == 128 * Pow(k - 2);
      if !Last(v % 128, w) { Length(w, k - 1); }
      PowPositive(k - 2);
    } else {
      assert Pow(0) == 1;
      EncodeNotEmpty(v / 128);
    }
  }

  /** The examples of section 7.6 of DWARF Version 4. */
  lemma Examples()
    ensures Encode(2) == [2] && Encode(-2) == [0x7e]
    ensures Encode(127) == [127 + 0x80, 0] && Encode(-127) == [1 + 0x80, 0x7f]
    ensures Encode(128) == [0 + 0x80, 1] && Encode(-128) == [0 + 0x80, 0x7f]
    ensures Encode(129) == [1 + 0x80, 1] && Encode(-129) == [0x7f + 0x80, 0x7e]
  {
    assert Encode(0) == [0] && Encode(-1) == [0x7f] && Encode(1) == [1];
  }

  lemma PowPositive(k: nat)
    ensures Pow(k) >= 1
  {}

  lemma EncodeNotEmpty(v: int)
    ensures |Encode(v)| >= 1
  {}

  lemma AtMostTen(v: int)
    requires Int64(v)
    ensures 1 <= |Encode(v)| <= 10
  {
    Length(v, 10);
    EncodeNotEmpty(v);
    assert Pow(9) == 0x8000_0000_0000_0000 by {
      assert Pow(3) == 0x20_0000;
      assert Pow(6) == 0x20_0000 * 0x20_0000;
    }
  }

  /** serialize_leb128. */
  method Serialize(v: int, output: Output)
    modifies output
    ensures output.bytes == old(output.bytes) + Encode(v)
  {
    var rest, more := v, true;
    while more
      invariant more ==> output.bytes + Encode(rest) == old(output.bytes) + Encode(v)
      invariant !more ==> output.bytes == old(output.bytes) + Encode(v)
      decreases more, Abs(rest)
    {
      var b := rest % 128;
      rest := rest / 128;
      if Last(b, rest) {
        more := false;
      } else {
        b := b + 128;
      }
      output.Put(b);
    }
  }

  const WORD64 := 0x1_0000_0000_0000_0000

  /** The 64 bits n as an INTEGER. */
  function AsSigned(n: nat): int {
    if n < TOP then n else n - WORD64
  }

  const TOP := 0x8000_0000_0000_0000

  lemma MulMono(a: nat, b: nat, c: nat, d: nat)
    requires a <= c && b <= d
    ensures a * b <= c * d
  {
    assert (c - a) * b >= 0;
    assert c * (d - b) >= 0;
  }

  /** The weights of the bytes of a 64-bit encoding. */
  lemma Weights(k: nat)
    requires k <= 9
    ensures Levels.Pow2(7 * k) == Pow(k) && 1 <= Pow(k) <= TOP && (k <= 8 ==> 128 * Pow(k) <= TOP)
    ensures Pow(9) == TOP
    ensures k >= 1 ==> exists q: nat :: q * Pow(k) == WORD64
  {
    PowerOfTwo(k);
    assert Pow(3) == 0x20_0000;
    assert Pow(6) == 0x400_0000_0000 by { assert Pow(6) == 128 * 128 * 128 * Pow(3); }
    assert Pow(9) == TOP by { assert Pow(9) == 128 * 128 * 128 * Pow(6); }
    PowGrows(k, 9);
    if k <= 8 { PowGrows(k + 1, 9); }
    Divides(k);
  }

  lemma {:induction false} PowerOfTwo(k: nat)
    ensures Levels.Pow2(7 * k) == Pow(k)
  {
    if k > 0 {
      PowerOfTwo(k - 1);
      var j := 7 * (k - 1);
      assert Levels.Pow2(j + 1) == 2 * Levels.Pow2(j) && Levels.Pow2(j + 2) == 2 * Levels.Pow2(j + 1);
      assert Levels.Pow2(j + 3) == 2 * Levels.Pow2(j + 2) && Levels.Pow2(j + 4) == 2 * Levels.Pow2(j + 3);
      assert Levels.Pow2(j + 5) == 2 * Levels.Pow2(j + 4) && Levels.Pow2(j + 6) == 2 * Levels.Pow2(j + 5);
      assert Levels.Pow2(j + 7) == 2 * Levels.Pow2(j + 6) && 7 * k == j + 7;
    }
  }

  lemma {:induction false} Divides(k: nat)
    requires k <= 9 && Pow(9) == TOP
    ensures exists q: nat :: q * Pow(k) == WORD64
    decreases 9 - k
  {
    if k == 9 {
      assert 2 * Pow(k) == WORD64;
    } else {
      Divides(k + 1);
      var q: nat :| q * Pow(k + 1) == WORD64;
      assert Pow(k + 1) == 128 * Pow(k);
      assert (q * 128) * Pow(k) == WORD64;
    }
  }

  /** The tenth byte contributes one bit. */
  lemma AddTopBit(result: nat, b: nat)
    requires result < TOP && b < 128
    ensures Levels.BitOr(b * TOP % WORD64, result) == b % 2 * TOP + result
  {
    hide Levels.BitOr, Levels.Pow2, Pow;
    Weights(9);
    assert b * TOP % WORD64 == b % 2 * TOP;
    Levels.OrDisjoint(b % 2, 63, result);
  }

  /** Seven more bits or-ed in at position 7 * k of an accumulator whose bits from there on are clear. */
  lemma AddBits(k: nat, result: nat, b: nat)
    requires k <= 9 && result < Pow(k) && b < 128
    ensures Levels.BitOr(b * Levels.Pow2(7 * k) % WORD64, result) == (if k == 9 then b % 2 else b) * Pow(k) + result
  {
    hide Levels.BitOr, Levels.Pow2, Pow;
    Weights(k);
    if k == 9 {
      AddTopBit(result, b);
    } else {
      var x := b * Pow(k);
      assert x < WORD64 by { MulMono(b, Pow(k), 128, Pow(k)); }
      assert x % WORD64 == x;
      Levels.OrDisjoint(b, 7 * k, result);
    }
  }

  /** Sign extension: all bits from position 7 * k on set. */
  lemma ExtendSign(k: nat, result: nat)
    requires 1 <= k <= 9 && result < Pow(k)
    ensures Levels.Pow2(7 * k) <= WORD64 && Levels.BitOr(WORD64 - Levels.Pow2(7 * k), result) == WORD64 - Pow(k) + result
  {
    Weights(k);
    var q: nat :| q * Pow(k) == WORD64;
    assert q >= 1;
    assert (q - 1) * Pow(k) == WORD64 - Pow(k);
    Levels.OrDisjoint(q - 1, 7 * k, result);
  }

  lemma {:induction false} PowGrows(j: nat, k: nat)
    requires j <= k
    ensures Pow(j) <= Pow(k)
    decreases k
  {
    if j < k { PowGrows(j, k - 1); }
  }

  /** deserialize_leb128: the bytes are or-ed together 7 bits at a time, in 64 bits; a shorter encoding
      is sign-extended by its last byte. */
  method Deserialize(input: Input) returns (r: int)
    requires Decode(input.rest).Some? && |input.rest| - |Decode(input.rest).value.1| <= 10
    modifies input
    ensures r == Wrap64(Decode(old(input.rest)).value.0) && input.rest == Decode(old(input.rest)).value.1
  {
    ghost var (n, suffix) := Decode(input.rest).value;
    ghost var k := 0;
    var result: nat := 0;
    var shift := 0;
    var b: int := 128;
    while b >= 128
      invariant b >= 128 ==>
                  (k <= 9 && shift == 7 * k && result < Pow(k) && Decode(input.rest).Some?
                   && Decode(input.rest).value.1 == suffix && |input.rest| - |suffix| <= 10 - k
                   && n == result + Pow(k) * Decode(input.rest).value.0)
      invariant 0 <= b < 128 ==> Finished(k, shift, result, b, n) && input.rest == suffix
      invariant 0 <= b < 256
      decreases if b >= 128 then |input.rest| + 1 else 0
    {
      ghost var before := input.rest;
      b := input.Get();
      AddBits(k, result, b % 128);
      LastOrNot(before, suffix, k, result, n);
      result := Levels.BitOr(b % 128 * Levels.Pow2(shift) % WORD64, result);
      shift := shift + 7;
      k := k + 1;
    }
    SignExtended(k, result, b, n);
    if shift < 64 && b >= 64 {
      result := Levels.BitOr(WORD64 - Levels.Pow2(shift), result);
    }
    r := AsSigned(result);
  }

  /** All k bytes have been read, the last is b. */
  predicate Finished(k: nat, shift: nat, result: nat, b: int, n: int) {
    1 <= k <= 10 && shift == 7 * k && 0 <= b < 128
    && if k <= 9 then result < Pow(k) && n == result - (if b >= 64 then Pow(k) else 0)
       else result < WORD64 && Wrap64(n) == AsSigned(result)
  }

  /** A byte with more to come. */
  lemma MoreToCome(p: nat, c: nat, m: int, result: nat, n: int)
    requires result < p && c <= 127 && n == result + p * (c + 128 * m)
    ensures c * p + result < 128 * p && n == (c * p + result) + 128 * p * m
  {
    MulMono(c, p, 127, p);
    Distribute(p, c, m);
  }

  /** The last byte, when its bits fit. */
  lemma LastByte(p: nat, b: nat, result: nat, n: int)
    requires result < p && b <= 127 && n == result + p * Signed7(b)
    ensures b * p + result < 128 * p && n == (b * p + result) - (if b >= 64 then 128 * p else 0)
  {
    MulMono(b, p, 127, p);
    Distribute(p, b, -1);
    assert p * b == b * p;
  }

  lemma LastOrNot(s: seq<Byte>, suffix: seq<Byte>, k: nat, result: nat, n: int)
    requires s != [] && Decode(s).Some? && Decode(s).value.1 == suffix && |s| - |suffix| <= 10 - k && k <= 9 && result < Pow(k)
    requires n == result + Pow(k) * Decode(s).value.0
    ensures var b: int := s[0];
            var result' := (if k == 9 then b % 128 % 2 else b % 128) * Pow(k) + result;
            if b >= 128 then
              && k + 1 <= 9 && result' < Pow(k + 1) && Decode(s[1..]).Some? && Decode(s[1..]).value.1 == suffix
              && n == result' + Pow(k + 1) * Decode(s[1..]).value.0
            else Finished(k + 1, 7 * (k + 1), result', b, n) && s[1..] == suffix
  {
    hide Pow, Wrap64, AsSigned;
    var b: int := s[0];
    NextPow(k);
    Weights(k);
    assert b % 128 == if b >= 128 then b - 128 else b;
    if b >= 128 {
      DecodeConsumes(s[1..]);
      assert k < 9;
      MoreToCome(Pow(k), b - 128, Decode(s[1..]).value.0, result, n);
    } else if k == 9 {
      TopBit(result, b, n);
      assert b % 2 * TOP + result < WORD64;
    } else {
      LastByte(Pow(k), b, result, n);
    }
  }

  lemma NextPow(k: nat)
    ensures Pow(k + 1) == 128 * Pow(k)
  {}

  lemma Distribute(p: int, c: int, m: int)
    ensures p * (c + 128 * m) == c * p + 128 * p * m
  {
    assert p * (c + 128 * m) == p * c + p * (128 * m);
    assert p * (128 * m) == 128 * p * m;
  }

  lemma {:induction false} DecodeConsumes(s: seq<Byte>)
    requires Decode(s).Some?
    ensures |Decode(s).value.1| < |s|
  {
    if s[0] >= 128 { DecodeConsumes(s[1..]); }
  }

  lemma TopBit(result: nat, b: int, n: int)
    requires 0 <= b < 128 && result < TOP && n == result + TOP * Signed7(b)
    ensures Wrap64(n) == AsSigned(b % 2 * TOP + result)
  {
    var q, r := Signed7(b) / 2, Signed7(b) % 2;
    assert n + TOP == q * WORD64 + (r * TOP + result + TOP);
  }

  lemma SignExtended(k: nat, result: nat, b: int, n: int)
    requires Finished(k, 7 * k, result, b, n)
    ensures 7 * k < 64 ==> Levels.Pow2(7 * k) <= WORD64
    ensures Wrap64(n) == AsSigned(if 7 * k < 64 && b >= 64 then Levels.BitOr(WORD64 - Levels.Pow2(7 * k), result) else result)
  {
    if k <= 9 {
      Weights(k);
      ExtendSign(k, result);
    }
  }
}

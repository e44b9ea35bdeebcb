/** What the operators compute, in integers. */
module Arithmetic {
  import opened Values
  import BitRanges

  /** The result is the one INTEGER of 64 bits that is congruent to n. */
  predicate Keeps64(r: Result, n: int) {
    && r.Ok? && r.v.Num? && r.v.kind == KInt
    && -0x8000_0000_0000_0000 <= r.v.n < 0x8000_0000_0000_0000 && (r.v.n - n) % 0x1_0000_0000_0000_0000 == 0
  }

  /** Where n fits 64 bits, there is only one such result. */
  lemma Exact(r: Result, n: int)
    requires Keeps64(r, n) && -0x8000_0000_0000_0000 <= n < 0x8000_0000_0000_0000
    ensures r == Ok(Num(KInt, n))
  {
    var q := (r.v.n - n) / 0x1_0000_0000_0000_0000;
    assert r.v.n - n == q * 0x1_0000_0000_0000_0000;
  }

  lemma Wrapped(n: int)
    ensures Keeps64(Ok(Int(n)), n)
  {
    var q := (n + 0x8000_0000_0000_0000) / 0x1_0000_0000_0000_0000;
    assert n == Wrap64(n) + q * 0x1_0000_0000_0000_0000;
    assert (Wrap64(n) - n) % 0x1_0000_0000_0000_0000 == 0 by { Multiple(-q); }
  }

  lemma Multiple(q: int)
    ensures q * 0x1_0000_0000_0000_0000 % 0x1_0000_0000_0000_0000 == 0
  {}

  /** The sum, difference or product, reduced to 64 bits; the types of the operands do not matter. */
  lemma Arithmetics(k: Kind, a: int, l: Kind, b: int)
    ensures Keeps64(ApplyBin(Add, Num(k, a), Num(l, b)), a + b)
    ensures Keeps64(ApplyBin(Sub, Num(k, a), Num(l, b)), a - b)
    ensures Keeps64(ApplyBin(Mul, Num(k, a), Num(l, b)), a * b)
    ensures Keeps64(ApplyUn(UMinus, Num(k, a)), -a)
  {
    hide Keeps64, Wrap64;
    Wrapped(a + b);
    Wrapped(a - b);
    Wrapped(a * b);
    Wrapped(-a);
  }

  /** Quotient and remainder: the quotient is truncated, the remainder has the sign of the dividend. */
  lemma Division(k: Kind, a: int, l: Kind, b: int) returns (q: int, r: int)
    ensures b == 0 ==> ApplyBin(Div, Num(k, a), Num(l, b)) == Err(DivisionByZero) && ApplyBin(Mod, Num(k, a), Num(l, b)) == Err(DivisionByZero)
    ensures b != 0 ==>
              && a == q * b + r && -(if b < 0 then -b else b) < r < (if b < 0 then -b else b) && (r == 0 || (r < 0 <==> a < 0))
              && Keeps64(ApplyBin(Div, Num(k, a), Num(l, b)), q) && Keeps64(ApplyBin(Mod, Num(k, a), Num(l, b)), r)
  {
    hide Keeps64, Wrap64, TruncDiv;
    q, r := 0, 0;
    if b != 0 {
      q := TruncDiv(a, b);
      r := a - b * q;
      Truncated(a, b);
      Wrapped(q);
      Wrapped(r);
    }
  }

  lemma Truncated(a: int, b: int)
    requires b != 0
    ensures var r := a - b * TruncDiv(a, b);
            -(if b < 0 then -b else b) < r < (if b < 0 then -b else b) && (r == 0 || (r < 0 <==> a < 0))
  {
    var m, q := Abs(b), Abs(a) / Abs(b);
    Quotient(Abs(a), m);
    Signs(m, q);
  }

  lemma Quotient(n: nat, m: nat)
    requires m > 0
    ensures 0 <= n - m * (n / m) < m
  {}

  lemma Signs(m: int, q: int)
    ensures -m * -q == m * q && m * -q == -(m * q) && -m * q == -(m * q)
  {}

  /** Comparisons give true or false as the integers compare. */
  lemma Comparisons(k: Kind, a: int, l: Kind, b: int)
    ensures ApplyBin(CmpEq, Num(k, a), Num(l, b)) == Ok(Num(KBool, if a == b then 1 else 0))
    ensures ApplyBin(CmpNe, Num(k, a), Num(l, b)) == Ok(Num(KBool, if a != b then 1 else 0))
    ensures ApplyBin(CmpLt, Num(k, a), Num(l, b)) == Ok(Num(KBool, if a < b then 1 else 0))
    ensures ApplyBin(CmpLe, Num(k, a), Num(l, b)) == Ok(Num(KBool, if a <= b then 1 else 0))
    ensures ApplyBin(CmpGt, Num(k, a), Num(l, b)) == Ok(Num(KBool, if a > b then 1 else 0))
    ensures ApplyBin(CmpGe, Num(k, a), Num(l, b)) == Ok(Num(KBool, if a >= b then 1 else 0))
    ensures ApplyUn(Not, Num(k, a)) == Ok(Num(KBool, if a == 0 then 1 else 0))
  {}

  /** None is equal to itself only, and anything else one does with it is an error. */
  lemma OnNothing(op: BinOp, uop: UnOp, v: Value)
    ensures ApplyBin(CmpEq, v, Nothing) == ApplyBin(CmpEq, Nothing, v) == Ok(Num(KBool, if v == Nothing then 1 else 0))
    ensures ApplyBin(CmpNe, v, Nothing) == ApplyBin(CmpNe, Nothing, v) == Ok(Num(KBool, if v == Nothing then 0 else 1))
    ensures op !in {CmpEq, CmpNe} ==> ApplyBin(op, v, Nothing) == ApplyBin(op, Nothing, v) == Err(IllegalOperation)
    ensures ApplyUn(uop, Nothing) == Err(IllegalOperation)
  {}

  /** Complement: every one of the 64 bits is inverted. */
  lemma Complement(k: Kind, a: int, i: nat)
    requires i < 64
    ensures Keeps64(ApplyUn(Comp, Num(k, a)), -1 - a)
    ensures BitRanges.Bit(ApplyUn(Comp, Num(k, a)).v.n, i) <==> !BitRanges.Bit(a, i)
  {
    hide Keeps64, Wrap64, BitRanges.Bit;
    Wrapped(-a - 1);
    BitRanges.BitWrap(-a - 1, i);
    BitRanges.BitNot(a, i);
  }

  /** The tests: every number but 0 passes both, none passes only the one compiled for conditions. */
  lemma Tests(v: Value)
    ensures ToBool(v) <==> v.Num? && v.n != 0
    ensures Truth(v) <==> !(v.Num? && v.n == 0)
  {}

  /** The integers that 32 and 8 bits leave of n. */
  lemma Narrowed(n: int)
    ensures -0x8000_0000 <= Wrap32(n) < 0x8000_0000 && (Wrap32(n) - n) % 0x1_0000_0000 == 0
    ensures -0x80 <= Wrap8(n) < 0x80 && (Wrap8(n) - n) % 0x100 == 0
  {}
}

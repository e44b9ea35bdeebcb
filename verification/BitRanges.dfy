/** Bit and bit-range subscripts of integral values.  An INTEGER is its two's complement value; bits
    beyond the sign bit repeat it. */
module BitRanges {
  import opened Values
  import opened Levels

  // ----- the operators of C++ -----

  predicate Bit(v: int, i: nat)
    decreases i
  {
    if i == 0 then v % 2 == 1 else Bit(v / 2, i - 1)
  }

  function And(a: int, b: int): int
    decreases Abs(a)
  {
    if a == 0 then 0 else if a == -1 then b else 2 * And(a / 2, b / 2) + (if a % 2 == 1 && b % 2 == 1 then 1 else 0)
  }

  function Or(a: int, b: int): int
    decreases Abs(a)
  {
    if a == 0 then b else if a == -1 then -1 else 2 * Or(a / 2, b / 2) + (if a % 2 == 1 || b % 2 == 1 then 1 else 0)
  }

  function Not(a: int): int {
    -a - 1
  }

  function Shl(v: int, n: nat): int {
    Wrap64(v * Pow2(n))
  }

  /** Each position halves, rounding down: the shift of a signed value. */
  function Shr(v: int, n: nat): int
    decreases n
  {
    if n == 0 then v else Shr(v / 2, n - 1)
  }

  // ----- the operations -----

  /** A subscript operation: its result, a run-time error, or the one width for which the shift of C++
      is undefined. */
  datatype Outcome = Result(v: int) | OutOfRange | Undefined

  /** subscriptok: 64 bits of an integer, 8 of the other types. */
  predicate SubscriptOk(kind: Kind, i: int) {
    0 <= i <= (if kind.KInt? then 63 else 7)
  }

  function GetBit(kind: Kind, v: int, index: int): Outcome {
    var i := Wrap32(index);
    if !SubscriptOk(kind, i) then OutOfRange else Result(And(Shr(v, i), 1))
  }

  function SetBit(kind: Kind, v: int, val: int, index: int): Outcome {
    var i := Wrap32(index);
    if !SubscriptOk(kind, i) then OutOfRange
    else
      var mask := Shl(1, i);
      Result(Or(And(v, Not(mask)), And(Shl(val, i), mask)))
  }

  /** The bounds as C++ ints in ascending order. */
  function Bounds(lo: int, hi: int): (int, int) {
    var ilo, ihi := Wrap32(lo), Wrap32(hi);
    if ilo > ihi then (ihi, ilo) else (ilo, ihi)
  }

  function GetRange(kind: Kind, v: int, lo: int, hi: int): Outcome {
    var (ilo, ihi) := Bounds(lo, hi);
    if !SubscriptOk(kind, ilo) || !SubscriptOk(kind, ihi) then OutOfRange
    else
      var range := ihi - ilo + 1;
      if range > 63 then Undefined
      else
        var mask := Wrap64(Shl(1, range) - 1);
        Result(And(Shr(v, ilo), mask))
  }

  function SetRange(kind: Kind, v: int, val: int, lo: int, hi: int): Outcome {
    var (ilo, ihi) := Bounds(lo, hi);
    if !SubscriptOk(kind, ilo) || !SubscriptOk(kind, ihi) then OutOfRange
    else
      var range := ihi - ilo + 1;
      if range > 63 then Undefined
      else
        var mask := Shl(Wrap64(Shl(1, range) - 1), ilo);
        Result(Or(And(v, Not(mask)), And(Shl(val, ilo), mask)))
  }

  // ----- bits of the operators -----

  lemma {:induction false} BitAnd(a: int, b: int, i: nat)
    ensures Bit(And(a, b), i) <==> Bit(a, i) && Bit(b, i)
    decreases i
  {
    BitConstant(i);
    if i > 0 && a != 0 && a != -1 {
      BitAnd(a / 2, b / 2, i - 1);
    }
  }

  lemma {:induction false} BitOr(a: int, b: int, i: nat)
    ensures Bit(Or(a, b), i) <==> Bit(a, i) || Bit(b, i)
    decreases i
  {
    BitConstant(i);
    if i > 0 && a != 0 && a != -1 {
      BitOr(a / 2, b / 2, i - 1);
    }
  }

  lemma {:induction false} BitConstant(i: nat)
    ensures !Bit(0, i) && Bit(-1, i)
  {
    if i > 0 { BitConstant(i - 1); }
  }

  lemma {:induction false} BitNot(a: int, i: nat)
    ensures Bit(Not(a), i) <==> !Bit(a, i)
    decreases i
  {
    if i > 0 {
      assert Not(a) / 2 == Not(a / 2);
      BitNot(a / 2, i - 1);
    }
  }

  lemma {:induction false} BitTimes(v: int, k: nat, i: nat)
    ensures Bit(v * Pow2(k), i) <==> i >= k && Bit(v, i - k)
    decreases k
  {
    if k > 0 {
      var x := v * Pow2(k - 1);
      assert v * Pow2(k) == 2 * x;
      if i > 0 {
        BitTimes(v, k - 1, i - 1);
        assert 2 * x / 2 == x;
      }
    }
  }

  lemma {:induction false} BitShr(v: int, k: nat, i: nat)
    ensures Bit(Shr(v, k), i) <==> Bit(v, i + k)
    decreases k
  {
    if k > 0 {
      BitShr(v / 2, k - 1, i);
    }
  }

  /** Adding a multiple of 2^m leaves the bits below m. */
  lemma {:induction false} BitAddHigh(x: int, q: int, m: nat, i: nat)
    requires i < m
    ensures Bit(x + q * Pow2(m), i) <==> Bit(x, i)
    decreases i
  {
    var y := q * Pow2(m - 1);
    assert q * Pow2(m) == 2 * y;
    assert (x + 2 * y) / 2 == x / 2 + y && (x + 2 * y) % 2 == x % 2;
    if i > 0 {
      BitAddHigh(x / 2, q, m - 1, i - 1);
    }
  }

  lemma BitWrap(n: int, i: nat)
    requires i < 64
    ensures Bit(Wrap64(n), i) <==> Bit(n, i)
  {
    Pow63();
    var q := (n + 0x8000_0000_0000_0000) / 0x1_0000_0000_0000_0000;
    assert n == Wrap64(n) + q * Pow2(64);
    BitAddHigh(Wrap64(n), q, 64, i);
  }

  lemma {:induction false} PowAdd(j: nat, k: nat)
    ensures Pow2(j + k) == Pow2(j) * Pow2(k)
  {
    if j > 0 { PowAdd(j - 1, k); }
  }

  lemma Pow63()
    ensures Pow2(63) == 0x8000_0000_0000_0000 && Pow2(64) == 0x1_0000_0000_0000_0000
  {
    Powers();
    PowAdd(32, 32);
    assert Pow2(64) == 2 * Pow2(63);
  }

  lemma {:induction false} BitOnes(n: nat, i: nat)
    ensures Pow2(n) >= 1 && (Bit(Pow2(n) - 1, i) <==> i < n)
    decreases n
  {
    if n == 0 {
      BitConstant(i);
    } else {
      PowPositive(n - 1);
      assert (Pow2(n) - 1) / 2 == Pow2(n - 1) - 1 && (Pow2(n) - 1) % 2 == 1;
      if i > 0 { BitOnes(n - 1, i - 1); }
    }
  }

  lemma {:induction false} PowPositive(n: nat)
    ensures Pow2(n) >= 1
  {
    if n > 0 { PowPositive(n - 1); }
  }

  predicate Within(n: int, bound: int) {
    -bound <= n < bound
  }

  /** A 64-bit value is determined by its 64 bits. */
  lemma Determined(a: int, b: int)
    requires Int64(a) && Int64(b) && forall i: nat :: i < 64 ==> Bit(a, i) == Bit(b, i)
    ensures a == b
  {
    Pow63();
    DeterminedBelow(a, b, 63);
  }

  lemma {:induction false} DeterminedBelow(a: int, b: int, k: nat)
    requires Within(a, Pow2(k)) && Within(b, Pow2(k)) && forall i: nat :: i <= k ==> Bit(a, i) == Bit(b, i)
    ensures a == b
    decreases k
  {
    assert Bit(a, 0) == Bit(b, 0);
    if k > 0 {
      forall i: nat | i <= k - 1 ensures Bit(a / 2, i) == Bit(b / 2, i) {
        assert Bit(a, i + 1) == Bit(b, i + 1);
      }
      DeterminedBelow(a / 2, b / 2, k - 1);
    }
  }

  lemma {:induction false} AndBelow(a: int, b: int, k: nat)
    requires Within(a, Pow2(k)) && Within(b, Pow2(k))
    ensures Within(And(a, b), Pow2(k)) && Within(Or(a, b), Pow2(k))
    decreases k
  {
    PowPositive(k);
    if k > 0 && a != 0 && a != -1 {
      AndBelow(a / 2, b / 2, k - 1);
    }
  }

  // ----- masks -----

  lemma Masks(range: nat, lo: nat, i: nat)
    requires range <= 63 && i < 64
    ensures Wrap64(Shl(1, range) - 1) == Pow2(range) - 1
    ensures Bit(Shl(Pow2(range) - 1, lo), i) <==> lo <= i < lo + range
  {
    hide Bit, Wrap64;
    LowMask(range);
    BitWrap((Pow2(range) - 1) * Pow2(lo), i);
    BitTimes(Pow2(range) - 1, lo, i);
    if i >= lo { BitOnes(range, i - lo); }
  }

  /** 1 << 63 is the least INTEGER, and subtracting one wraps around to the greatest. */
  lemma LowMask(range: nat)
    requires range <= 63
    ensures Wrap64(Shl(1, range) - 1) == Pow2(range) - 1
  {
    hide Wrap64, Pow2;
    Pow63();
    Bounded(range);
    LowMaskOf(Pow2(range));
  }

  lemma LowMaskOf(p: nat)
    requires p == 0x8000_0000_0000_0000 || (1 <= p && 2 * p <= 0x8000_0000_0000_0000)
    ensures Wrap64(Wrap64(p) - 1) == p - 1
  {}

  lemma {:induction false} PowGrows(j: nat, k: nat)
    requires j <= k
    ensures Pow2(j) <= Pow2(k)
    decreases k
  {
    if j < k { PowGrows(j, k - 1); }
  }

  lemma Bounded(k: nat)
    requires k <= 63
    ensures 1 <= Pow2(k) <= Pow2(63) && (k < 63 ==> 2 * Pow2(k) <= Pow2(63))
  {
    PowPositive(k);
    PowGrows(k, 63);
    if k < 63 {
      PowGrows(k + 1, 63);
      assert Pow2(k + 1) == 2 * Pow2(k);
    }
  }

  lemma IsInt64(a: int, b: int)
    requires Int64(a) && Int64(b)
    ensures Int64(And(a, b)) && Int64(Or(a, b)) && Int64(Not(a))
  {
    Pow63();
    AndBelow(a, b, 63);
  }

  // ----- what the operations do -----

  /** The bounds of a range that is accepted and defined. */
  predicate Fits(kind: Kind, lo: int, hi: int) {
    var (ilo, ihi) := Bounds(lo, hi);
    SubscriptOk(kind, ilo) && SubscriptOk(kind, ihi) && ihi - ilo < 63
  }

  /** For bounds of 32 bits: a range access is an error exactly when a bound is below 0 or above 63, or above
      7 for a char or boolean, and undefined exactly for all 64 bits of an integer. */
  lemma RangeOutcomes(kind: Kind, v: int, val: int, lo: int, hi: int)
    requires -0x8000_0000 <= lo < 0x8000_0000 && -0x8000_0000 <= hi < 0x8000_0000
    ensures kind.KInt? ==>
              && (GetRange(kind, v, lo, hi).OutOfRange? <==> lo < 0 || hi < 0 || lo > 63 || hi > 63)
              && (SetRange(kind, v, val, lo, hi).OutOfRange? <==> lo < 0 || hi < 0 || lo > 63 || hi > 63)
              && (GetRange(kind, v, lo, hi).Undefined? <==> (lo == 0 && hi == 63) || (lo == 63 && hi == 0))
              && (SetRange(kind, v, val, lo, hi).Undefined? <==> (lo == 0 && hi == 63) || (lo == 63 && hi == 0))
    ensures !kind.KInt? ==>
              && (GetRange(kind, v, lo, hi).OutOfRange? <==> lo < 0 || hi < 0 || lo > 7 || hi > 7)
              && (SetRange(kind, v, val, lo, hi).OutOfRange? <==> lo < 0 || hi < 0 || lo > 7 || hi > 7)
              && !GetRange(kind, v, lo, hi).Undefined? && !SetRange(kind, v, val, lo, hi).Undefined?
  {
    hide And, Or, Not, Shr, Shl, Wrap64;
    Narrow(lo);
    Narrow(hi);
  }

  lemma Narrow(n: int)
    requires -0x8000_0000 <= n < 0x8000_0000
    ensures Wrap32(n) == n
  {}

  /** Bounds that do not fit 32 bits are reduced first. */
  lemma RangeNarrowed(kind: Kind, v: int, val: int, lo: int, hi: int)
    ensures GetRange(kind, v, lo, hi) == GetRange(kind, v, Wrap32(lo), Wrap32(hi))
    ensures SetRange(kind, v, val, lo, hi) == SetRange(kind, v, val, Wrap32(lo), Wrap32(hi))
    ensures GetBit(kind, v, lo) == GetBit(kind, v, Wrap32(lo)) && SetBit(kind, v, val, lo) == SetBit(kind, v, val, Wrap32(lo))
  {
    hide Wrap32, And, Or, Not, Shr, Shl;
    Narrow(Wrap32(lo)) by { Narrows(lo); }
    Narrow(Wrap32(hi)) by { Narrows(hi); }
  }

  lemma Narrows(n: int)
    ensures -0x8000_0000 <= Wrap32(n) < 0x8000_0000
  {}

  /** The bits lo to hi: reading delivers them, writing replaces them by the low bits of the value and
      leaves the others. */
  lemma RangeAccess(kind: Kind, v: int, val: int, lo: nat, hi: nat, i: nat)
    requires lo <= hi && hi - lo < 63 && if kind.KInt? then hi < 64 else hi < 8
    ensures GetRange(kind, v, lo, hi).Result? && (Bit(GetRange(kind, v, lo, hi).v, i) <==> i <= hi - lo && Bit(v, lo + i))
    ensures SetRange(kind, v, val, lo, hi).Result?
    ensures i < 64 ==> (Bit(SetRange(kind, v, val, lo, hi).v, i) <==> if lo <= i <= hi then Bit(val, i - lo) else Bit(v, i))
  {
    hide And, Or, Not, Shr, Shl, Bit, GetRange, SetRange, Wrap32;
    Narrow(lo);
    Narrow(hi);
    RangeRead(kind, v, lo, hi, i);
    RangeWritten(kind, v, val, lo, hi, if i < 64 then i else 0);
  }

  /** One bit: an error exactly when there is no such bit, otherwise 1 or 0; writing replaces it by the low
      bit of the value and leaves the others. */
  lemma BitOutcomes(kind: Kind, v: int, val: int, i: int, j: nat)
    requires -0x8000_0000 <= i < 0x8000_0000 && j < 64
    ensures kind.KInt? ==> (GetBit(kind, v, i).OutOfRange? <==> i < 0 || i > 63) && (SetBit(kind, v, val, i).OutOfRange? <==> i < 0 || i > 63)
    ensures !kind.KInt? ==> (GetBit(kind, v, i).OutOfRange? <==> i < 0 || i > 7) && (SetBit(kind, v, val, i).OutOfRange? <==> i < 0 || i > 7)
    ensures !GetBit(kind, v, i).OutOfRange? && i >= 0 ==> GetBit(kind, v, i) == Result(if Bit(v, i) then 1 else 0)
    ensures !SetBit(kind, v, val, i).OutOfRange? && i >= 0 ==>
              SetBit(kind, v, val, i).Result? && (Bit(SetBit(kind, v, val, i).v, j) <==> if j == i then Bit(val, 0) else Bit(v, j))
  {
    hide And, Or, Not, Shr, Shl, Bit, Wrap64, Wrap32;
    Narrow(i);
    if SubscriptOk(kind, i) {
      BitIs(v, i);
      BitPut(kind, v, val, i, j);
    }
  }

  /** A range access has a result exactly when the bounds fit, and is undefined exactly for all 64 bits of
      an integer. */
  lemma RangeFits(kind: Kind, v: int, val: int, lo: int, hi: int)
    ensures GetRange(kind, v, lo, hi).Undefined? <==> kind.KInt? && Bounds(lo, hi) == (0, 63)
    ensures SetRange(kind, v, val, lo, hi).Undefined? <==> kind.KInt? && Bounds(lo, hi) == (0, 63)
    ensures GetRange(kind, v, lo, hi).Result? <==> Fits(kind, lo, hi)
    ensures SetRange(kind, v, val, lo, hi).Result? <==> Fits(kind, lo, hi)
  {
    hide And, Or, Not, Shr, Shl, Wrap32, Wrap64;
  }

  /** Bit i after val has been written to the bits from l to h. */
  predicate Written(v: int, val: int, l: int, h: int, i: nat) {
    if l <= i <= h && l >= 0 then Bit(val, i - l) else Bit(v, i)
  }

  /** Reading a range: bit i of the result is bit lo + i of the value, and the result has no other bits. */
  lemma RangeRead(kind: Kind, v: int, lo: int, hi: int, i: nat)
    requires Fits(kind, lo, hi)
    ensures var (l, h) := Bounds(lo, hi);
            GetRange(kind, v, lo, hi).Result? && (Bit(GetRange(kind, v, lo, hi).v, i) <==> i <= h - l && Bit(v, l + i))
  {
    hide And, Or;
    var (l, h) := Bounds(lo, hi);
    LowMask(h - l + 1);
    BitAnd(Shr(v, l), Pow2(h - l + 1) - 1, i);
    BitShr(v, l, i);
    BitOnes(h - l + 1, i);
  }

  /** Writing a range: its bits are the low bits of the value written, all other bits stay. */
  lemma RangeWritten(kind: Kind, v: int, val: int, lo: int, hi: int, i: nat)
    requires Fits(kind, lo, hi) && i < 64
    ensures var (l, h) := Bounds(lo, hi);
            SetRange(kind, v, val, lo, hi).Result?
            && (Bit(SetRange(kind, v, val, lo, hi).v, i) <==> if l <= i <= h then Bit(val, i - l) else Bit(v, i))
  {
    hide And, Or, Not, Shr, Bit, Wrap64, Wrap32, Pow2;
    var (l, h) := Bounds(lo, hi);
    Masks(h - l + 1, l, i);
    var mask := Shl(Pow2(h - l + 1) - 1, l);
    assert Bit(mask, i) <==> l <= i <= h;
    Masked(v, val, mask, l, i);
    assert SetRange(kind, v, val, lo, hi) == Result(Or(And(v, Not(mask)), And(Shl(val, l), mask)));
  }

  /** One bit of (v & ~mask) | ((val << l) & mask). */
  lemma Masked(v: int, val: int, mask: int, l: nat, i: nat)
    requires i < 64
    ensures Bit(Or(And(v, Not(mask)), And(Shl(val, l), mask)), i) <==> if Bit(mask, i) then i >= l && Bit(val, i - l) else Bit(v, i)
  {
    hide And, Or, Not;
    BitOr(And(v, Not(mask)), And(Shl(val, l), mask), i);
    BitAnd(v, Not(mask), i);
    BitAnd(Shl(val, l), mask, i);
    BitNot(mask, i);
    BitWrap(val * Pow2(l), i);
    BitTimes(val, l, i);
  }

  /** Swapped bounds mean the same range. */
  lemma SwappedBounds(kind: Kind, v: int, val: int, lo: int, hi: int)
    ensures GetRange(kind, v, lo, hi) == GetRange(kind, v, hi, lo) && SetRange(kind, v, val, lo, hi) == SetRange(kind, v, val, hi, lo)
  {}

  /** Reading the range just written gives the low bits of the value. */
  lemma ReadAfterWrite(kind: Kind, v: int, val: int, lo: int, hi: int, i: nat)
    requires Fits(kind, lo, hi)
    ensures var (l, h) := Bounds(lo, hi);
            var w := SetRange(kind, v, val, lo, hi);
            w.Result? && GetRange(kind, w.v, lo, hi).Result? && (Bit(GetRange(kind, w.v, lo, hi).v, i) <==> i <= h - l && Bit(val, i))
  {
    hide GetRange, SetRange, Bit;
    var (l, h) := Bounds(lo, hi);
    var w := SetRange(kind, v, val, lo, hi);
    RangeWritten(kind, v, val, lo, hi, 0);
    RangeRead(kind, w.v, lo, hi, i);
    if i <= h - l { RangeWritten(kind, v, val, lo, hi, l + i); }
  }

  // ----- a range as single bits -----

  /** The bits of val written to positions l, l + 1, ... one at a time. */
  function SetBits(kind: Kind, v: int, val: int, l: nat, n: nat): Outcome
    decreases n
  {
    if n == 0 then Result(v)
    else match SetBits(kind, v, val, l, n - 1)
      case Result(w) => SetBit(kind, w, Shr(val, n - 1), l + n - 1)
      case o => o
  }

  lemma BitPut(kind: Kind, v: int, val: int, index: nat, i: nat)
    requires SubscriptOk(kind, index) && i < 64
    ensures SetBit(kind, v, val, index).Result?
    ensures Bit(SetBit(kind, v, val, index).v, i) <==> if i == index then Bit(val, 0) else Bit(v, i)
  {
    hide And, Or, Not, Shr;
    var mask := Shl(1, index);
    assert Wrap32(index) == index;
    assert Pow2(1) - 1 == 1;
    Masks(1, index, i);
    Masked(v, val, mask, index, i);
  }

  lemma BitWritten(kind: Kind, v: int, val: int, index: nat, i: nat)
    requires SubscriptOk(kind, index) && i < 64 && Int64(v)
    ensures SetBit(kind, v, val, index).Result? && Int64(SetBit(kind, v, val, index).v)
    ensures Bit(SetBit(kind, v, val, index).v, i) <==> if i == index then Bit(val, 0) else Bit(v, i)
  {
    hide And, Or, Not, Shr;
    BitPut(kind, v, val, index, i);
    WrittenInt64(v, val, Shl(1, index), index);
  }

  /** A bit reads back as it was written, and writing it leaves the others. */
  lemma BitReadAfterWrite(kind: Kind, v: int, val: int, index: nat, j: nat)
    requires SubscriptOk(kind, index) && SubscriptOk(kind, j) && Int64(v)
    ensures var w := SetBit(kind, v, val, index);
            w.Result? && GetBit(kind, w.v, j) == if j == index then Result(val % 2) else GetBit(kind, v, j)
  {
    hide And, Or, Not, Shr, Bit, SetBit;
    BitWritten(kind, v, val, index, j);
    var w := SetBit(kind, v, val, index).v;
    BitIs(v, j);
    BitIs(w, j);
    LowBit(val);
    assert Wrap32(j) == j;
  }

  lemma BitIs(v: int, j: nat)
    ensures And(Shr(v, j), 1) == if Bit(v, j) then 1 else 0
  {
    hide Shr;
    BitShr(v, j, 0);
    var x := Shr(v, j);
    AndZero(x / 2);
  }

  lemma {:induction false} AndZero(a: int)
    ensures And(a, 0) == 0
    decreases Abs(a)
  {
    if a != 0 && a != -1 { AndZero(a / 2); }
  }

  lemma LowBit(v: int)
    ensures Bit(v, 0) <==> v % 2 == 1
  {}

  lemma WrittenInt64(v: int, val: int, mask: int, l: nat)
    requires Int64(v) && Int64(mask)
    ensures Int64(Or(And(v, Not(mask)), And(Shl(val, l), mask)))
  {
    hide And, Or;
    IsInt64(mask, mask);
    IsInt64(v, Not(mask));
    IsInt64(Shl(val, l), mask);
    IsInt64(And(v, Not(mask)), And(Shl(val, l), mask));
  }

  lemma {:induction false} BitsWritten(kind: Kind, v: int, val: int, l: nat, n: nat, i: nat)
    requires Int64(v) && i < 64 && (n > 0 ==> SubscriptOk(kind, l + n - 1))
    ensures SetBits(kind, v, val, l, n).Result? && Int64(SetBits(kind, v, val, l, n).v)
    ensures Bit(SetBits(kind, v, val, l, n).v, i) <==> if l <= i < l + n then Bit(val, i - l) else Bit(v, i)
    decreases n
  {
    hide SetBit, Shr, Bit, Int64;
    if n > 0 {
      BitsWritten(kind, v, val, l, n - 1, i);
      BitWritten(kind, SetBits(kind, v, val, l, n - 1).v, Shr(val, n - 1), l + n - 1, i);
      BitShr(val, n - 1, 0);
    }
  }

  /** A range write is the sequence of its single-bit writes. */
  lemma RangeIsBits(kind: Kind, v: int, val: int, lo: int, hi: int)
    requires Fits(kind, lo, hi) && Int64(v)
    ensures var (l, h) := Bounds(lo, hi); SetRange(kind, v, val, lo, hi) == SetBits(kind, v, val, l, h - l + 1)
  {
    hide And, Or, Not, Shr, Bit, SetBits;
    var (l, h) := Bounds(lo, hi);
    var w := SetRange(kind, v, val, lo, hi);
    var mask := Shl(Wrap64(Shl(1, h - l + 1) - 1), l);
    WrittenInt64(v, val, mask, l);
    forall i: nat | i < 64 ensures SetBits(kind, v, val, l, h - l + 1).Result? && Bit(w.v, i) == Bit(SetBits(kind, v, val, l, h - l + 1).v, i) {
      RangeWritten(kind, v, val, lo, hi, i);
      BitsWritten(kind, v, val, l, h - l + 1, i);
    }
    BitsWritten(kind, v, val, l, h - l + 1, 0);
    Determined(w.v, SetBits(kind, v, val, l, h - l + 1).v);
  }

  // ----- the variable that is subscripted -----

  class Variable {
    var kind: Kind
    var value: int

    constructor (kind: Kind, value: int)
      ensures this.kind == kind && this.value == value
    {
      this.kind, this.value := kind, value;
    }

    /** setsub with a range: the new value, now an integer whatever it was, is stored and is the result. */
    method SetSub(val: int, lo: int, hi: int) returns (o: Outcome)
      modifies this
      ensures Fits(old(kind), lo, hi) ==>
                && kind == KInt && o == Result(value)
                && forall i: nat :: i < 64 ==> (Bit(value, i) <==> Written(old(value), val, Bounds(lo, hi).0, Bounds(lo, hi).1, i))
      ensures !Fits(old(kind), lo, hi) ==>
                && kind == old(kind) && value == old(value)
                && o == if old(kind).KInt? && Bounds(lo, hi) == (0, 63) then Undefined else OutOfRange
    {
      hide Bit;
      RangeFits(kind, value, val, lo, hi);
      o := SetRange(kind, value, val, lo, hi);
      if Fits(kind, lo, hi) {
        forall i: nat | i < 64 ensures Bit(o.v, i) <==> Written(value, val, Bounds(lo, hi).0, Bounds(lo, hi).1, i) {
          RangeWritten(kind, value, val, lo, hi, i);
        }
      }
      if o.Result? {
        kind, value := KInt, o.v;
      }
    }
  }
}

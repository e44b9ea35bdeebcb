/** Run-time values of the core language and the operators the virtual machine applies to them. */
module Values {

  datatype Option<+T> = None | Some(value: T)

  /** The integral type tags: T_INTEGER, T_BOOL and T_CHAR. */
  datatype Kind = KInt | KBool | KChar

  /** A value is the "none" of an uninitialised variable or an integral value with its tag. */
  datatype Value = Nothing | Num(kind: Kind, n: int)

  /** What an exception carries: the operand of a throw statement or a run-time error. */
  datatype Thrown = User(v: Value) | DivisionByZero | IllegalOperation | IllegalForeach

  datatype Result = Ok(v: Value) | Err(t: Thrown)

  datatype UnOp = UMinus | Not | Comp

  datatype BinOp = Add | Sub | Mul | Div | Mod | CmpEq | CmpNe | CmpLt | CmpLe | CmpGt | CmpGe

  predicate IsCompare(op: BinOp) {
    op in {CmpEq, CmpNe, CmpLt, CmpLe, CmpGt, CmpGe}
  }

  predicate Int64(n: int) {
    -0x8000_0000_0000_0000 <= n < 0x8000_0000_0000_0000
  }

  /** Two's complement reduction to the interpreter's 64-bit INTEGER. */
  function Wrap64(n: int): int {
    (n + 0x8000_0000_0000_0000) % 0x1_0000_0000_0000_0000 - 0x8000_0000_0000_0000
  }

  /** Reduction to the C++ int that holds a foreach index. */
  function Wrap32(n: int): int {
    (n + 0x8000_0000) % 0x1_0000_0000 - 0x8000_0000
  }

  /** Conversion to a signed char, the value a foreach over a char or boolean stores. */
  function Wrap8(n: int): int {
    (n + 0x80) % 0x100 - 0x80
  }

  /** C++ division truncates towards zero. */
  function TruncDiv(a: int, b: int): int
    requires b != 0
  {
    if (a < 0) == (b < 0) then Abs(a) / Abs(b) else -(Abs(a) / Abs(b))
  }

  function Abs(a: int): nat {
    if a < 0 then -a else a
  }

  function Int(n: int): Value {
    Num(KInt, Wrap64(n))
  }

  function Bool(b: bool): Value {
    Num(KBool, if b then 1 else 0)
  }

  const ZERO := Num(KInt, 0)

  /** cmpeq: none equals only none, everything else compares by payload. */
  predicate CmpEqual(a: Value, b: Value) {
    match b
    case Nothing => a.Nothing?
    case Num(_, n) => a.Num? && a.n == n
  }

  function ApplyUn(op: UnOp, a: Value): Result {
    match a
    case Nothing => Err(IllegalOperation)
    case Num(_, n) =>
      match op
      case UMinus => Ok(Int(-n))
      case Not => Ok(Bool(n == 0))
      case Comp => Ok(Int(-n - 1))
  }

  function ApplyBin(op: BinOp, a: Value, b: Value): Result {
    match op
    case CmpEq => Ok(Bool(CmpEqual(a, b)))
    case CmpNe => Ok(Bool(!CmpEqual(a, b)))
    case _ =>
      if a.Nothing? || b.Nothing? then Err(IllegalOperation)
      else ApplyNum(op, a.n, b.n)
  }

  function ApplyNum(op: BinOp, a: int, b: int): Result {
    match op
    case Add => Ok(Int(a + b))
    case Sub => Ok(Int(a - b))
    case Mul => Ok(Int(a * b))
    case Div => if b == 0 then Err(DivisionByZero) else Ok(Int(TruncDiv(a, b)))
    case Mod => if b == 0 then Err(DivisionByZero) else Ok(Int(a - b * TruncDiv(a, b)))
    case CmpLt => Ok(Bool(a < b))
    case CmpLe => Ok(Bool(a <= b))
    case CmpGt => Ok(Bool(a > b))
    case CmpGe => Ok(Bool(a >= b))
    case CmpEq => Ok(Bool(a == b))
    case CmpNe => Ok(Bool(a != b))
  }

  /** toBool: the test BT and BF apply to their operand; none is false. */
  predicate ToBool(v: Value) {
    v.Num? && v.n != 0
  }

  /** The test compiled for conditions: a comparison "!= 0".  Unlike ToBool, none passes it. */
  predicate Truth(v: Value) {
    !CmpEqual(v, ZERO)
  }

  /** The compiler drops the "!= 0" after a comparison: on a boolean the two tests agree. */
  lemma TruthOfComparison(op: BinOp, a: Value, b: Value)
    requires IsCompare(op) && ApplyBin(op, a, b).Ok?
    ensures Truth(ApplyBin(op, a, b).v) == ToBool(ApplyBin(op, a, b).v)
  {}

  lemma TruthIsCompareNotZero(v: Value)
    ensures ApplyBin(CmpNe, v, ZERO) == Ok(Bool(Truth(v)))
    ensures ToBool(Bool(Truth(v))) == Truth(v)
  {}

  /** The storage of a program: its variables, and for each catch clause the exception it holds. */
  datatype Store = Store(vars: map<nat, Value>, caught: map<nat, Thrown>) {
    function Get(x: nat): Value {
      if x in vars then vars[x] else Nothing
    }

    function Set(x: nat, v: Value): Store {
      Store(vars[x := v], caught)
    }
  }
}

/** The core language: parse trees of expressions and statements, and what they mean. */
module Source {
  import opened Values

  datatype Expr =
    | Const(v: Value)
    | Var(x: nat)
    | Un(uop: UnOp, a: Expr)
    | Bin(bop: BinOp, a: Expr, b: Expr)
    | And(a: Expr, b: Expr)
    | Or(a: Expr, b: Expr)
    | Cond(c: Expr, a: Expr, b: Expr)

  /** The right side of an assignment: an expression or a further assignment. */
  datatype Rhs = Plain(e: Expr) | Chain(x: nat, r: Rhs)

  datatype Simple = Skip | Evaluate(e: Expr) | Assign(x: nat, r: Rhs)

  datatype CaseOp = CaseEq | CaseNe | CaseLt | CaseLe | CaseGt | CaseGe

  datatype Cases = NoCases | Case(op: CaseOp, e: Expr, body: Stmt, rest: Cases) | Default(body: Stmt, rest: Cases)

  datatype Stmt =
    | Do(simple: Simple)
    | Seq(first: Stmt, second: Stmt)
    | If(c: Expr, yes: Stmt)
    | IfElse(c: Expr, yes: Stmt, no: Stmt)
    | While(c: Expr, body: Stmt)
    | DoWhile(body: Stmt, c: Expr)
    | For(init: Simple, cond: Option<Expr>, incr: Simple, body: Stmt)
    | Switch(e: Expr, cases: Cases)
    | Foreach(x: nat, e: Expr, hi: Option<Expr>, body: Stmt)
    | Compound(inits: seq<nat>, body: Stmt)
    | Break
    | Continue
    | Return(result: Option<Expr>)
    | TryCatch(body: Stmt, x: nat, handler: Stmt)
    | Throw(e: Expr)

  // ----- expressions -----

  /** Expressions have no side effects; && and || yield an operand, not 0 or 1. */
  function Eval(e: Expr, st: Store): Result {
    match e
    case Const(v) => Ok(v)
    case Var(x) => Ok(st.Get(x))
    case Un(op, a) =>
      (match Eval(a, st) case Ok(v) => ApplyUn(op, v) case err => err)
    case Bin(op, a, b) =>
      (match Eval(a, st)
       case Ok(v) => (match Eval(b, st) case Ok(w) => ApplyBin(op, v, w) case err => err)
       case err => err)
    case And(a, b) =>
      (match Eval(a, st) case Ok(v) => if Truth(v) then Eval(b, st) else Ok(v) case err => err)
    case Or(a, b) =>
      (match Eval(a, st) case Ok(v) => if ToBool(v) then Ok(v) else Eval(b, st) case err => err)
    case Cond(c, a, b) =>
      (match Eval(c, st) case Ok(v) => if Truth(v) then Eval(a, st) else Eval(b, st) case err => err)
  }

  // ----- statements -----

  datatype Exit = Normal | Broke | Continued | Return(v: Option<Value>) | Threw(t: Thrown) | Timeout

  datatype Effect = Effect(exit: Exit, store: Store)

  /** Statements have two meanings.  Intended is what the text says.  Actual is what the compiled code
      does, and differs in three places: the destination of && and || doubles as the place where their
      first operand is kept while the second is evaluated, a case with ">=" is compiled as ">", and
      "continue" in a do-loop skips the test of the condition. */
  datatype Mode = Intended | Actual

  function SetTo(st: Store, x: nat, r: Result): Effect {
    match r
    case Ok(v) => Effect(Normal, st.Set(x, v))
    case Err(t) => Effect(Threw(t), st)
  }

  function AssignExpr(m: Mode, x: nat, e: Expr, st: Store): Effect {
    match e
    case And(a, b) =>
      if m.Intended? then SetTo(st, x, Eval(e, st))
      else
        var first := SetTo(st, x, Eval(a, st));
        if first.exit.Normal? && Truth(first.store.Get(x)) then SetTo(first.store, x, Eval(b, first.store)) else first
    case Or(a, b) =>
      if m.Intended? then SetTo(st, x, Eval(e, st))
      else
        var first := SetTo(st, x, Eval(a, st));
        if first.exit.Normal? && !ToBool(first.store.Get(x)) then SetTo(first.store, x, Eval(b, first.store)) else first
    case _ => SetTo(st, x, Eval(e, st))
  }

  function AssignRhs(m: Mode, x: nat, r: Rhs, st: Store): Effect
    decreases r
  {
    match r
    case Plain(e) => AssignExpr(m, x, e, st)
    case Chain(y, r') =>
      var inner := AssignRhs(m, y, r', st);
      if inner.exit.Normal? then Effect(Normal, inner.store.Set(x, inner.store.Get(y))) else inner
  }

  function ExecSimple(m: Mode, s: Simple, st: Store): Effect {
    match s
    case Skip => Effect(Normal, st)
    case Evaluate(e) => (match Eval(e, st) case Ok(_) => Effect(Normal, st) case Err(t) => Effect(Threw(t), st))
    case Assign(x, r) => AssignRhs(m, x, r, st)
  }

  /** The comparison compiled for a case: for ">=" it is ">". */
  function CaseBinOp(op: CaseOp): BinOp {
    match op
    case CaseEq => CmpEq
    case CaseNe => CmpNe
    case CaseLt => CmpLt
    case CaseLe => CmpLe
    case CaseGt => CmpGt
    case CaseGe => CmpGt
  }

  function WrittenOp(op: CaseOp): BinOp {
    match op
    case CaseEq => CmpEq
    case CaseNe => CmpNe
    case CaseLt => CmpLt
    case CaseLe => CmpLe
    case CaseGt => CmpGt
    case CaseGe => CmpGe
  }

  function CaseTest(m: Mode, op: CaseOp): BinOp {
    if m.Intended? then WrittenOp(op) else CaseBinOp(op)
  }

  /** The bodies run from the first matching case on; None when every case fails. */
  function FindCase(m: Mode, v: Value, cs: Cases, st: Store): (r: (Result, Option<Cases>))
    ensures r.1.Some? ==> r.1.value == cs || r.1.value < cs
  {
    match cs
    case NoCases => (Ok(ZERO), None)
    case Default(_, rest) => FindCase(m, v, rest, st)
    case Case(op, e, _, rest) =>
      match Eval(e, st)
      case Err(t) => (Err(t), None)
      case Ok(w) =>
        match ApplyBin(CaseTest(m, op), v, w)
        case Err(t) => (Err(t), None)
        case Ok(b) => if ToBool(b) then (Ok(b), Some(cs)) else FindCase(m, v, rest, st)
  }

  function DefaultOf(cs: Cases): (r: Cases)
    ensures r == cs || r < cs
  {
    match cs
    case NoCases => NoCases
    case Default(_, _) => cs
    case Case(_, _, _, rest) => DefaultOf(rest)
  }

  /** The number of values a foreach from cur to just before end goes through, on a 32-bit index. */
  function Rounds(cur: int, end: int, dir: int): nat {
    if dir < 0 then (cur - end) % 0x1_0000_0000 else (end - cur) % 0x1_0000_0000
  }

  function Countdown(kind: Kind, cur: int, dir: int, n: nat): seq<Value>
    decreases n
  {
    if n == 0 then [] else [if kind.KInt? then Num(KInt, cur) else Num(KChar, Wrap8(cur))] + Countdown(kind, Wrap32(cur + dir), dir, n - 1)
  }

  /** The values that foreach x in v, or foreach x in v .. hi, stores in x. */
  function ForValues(v: Value, hi: Option<Value>): seq<Value>
    requires v.Num? && (hi.Some? ==> hi.value.Num?)
  {
    if hi.None? then
      var n := Wrap32(v.n);
      var d := if n < 0 then -1 else 1;
      Countdown(v.kind, 0, d, Rounds(0, n, d))
    else
      var a, b := Wrap32(v.n), Wrap32(hi.value.n);
      var d := if a > b then -1 else 1;
      Countdown(v.kind, a, d, Rounds(a, Wrap32(b + d), d))
  }

  /** Clear the variables that a compound statement has to initialise. */
  function ClearAll(xs: seq<nat>, st: Store): Store
    decreases |xs|
  {
    if xs == [] then st else ClearAll(xs[1..], st.Set(xs[0], Nothing))
  }

  /** The effect with which a do-loop ends after a round with effect e, or None when it goes on. */
  function DoEnds(m: Mode, c: Expr, e: Effect): Option<Effect> {
    if e.exit.Broke? then Some(Effect(Normal, e.store))
    else if e.exit.Normal? || (m.Intended? && e.exit.Continued?) then
      match Eval(c, e.store)
      case Err(t) => Some(Effect(Threw(t), e.store))
      case Ok(v) => if Truth(v) then None else Some(Effect(Normal, e.store))
    else if e.exit.Continued? then None
    else Some(e)
  }

  /** A statement run with a bound on the number of loop iterations; Timeout means the bound ran out. */
  function Exec(m: Mode, fuel: nat, s: Stmt, st: Store): Effect
    decreases fuel, s, 1
  {
    match s
    case Do(simple) => ExecSimple(m, simple, st)
    case Seq(a, b) =>
      var e := Exec(m, fuel, a, st);
      if e.exit.Normal? then Exec(m, fuel, b, e.store) else e
    case If(c, a) =>
      (match Eval(c, st)
       case Err(t) => Effect(Threw(t), st)
       case Ok(v) => if Truth(v) then Exec(m, fuel, a, st) else Effect(Normal, st))
    case IfElse(c, a, b) =>
      (match Eval(c, st)
       case Err(t) => Effect(Threw(t), st)
       case Ok(v) => if Truth(v) then Exec(m, fuel, a, st) else Exec(m, fuel, b, st))
    case While(c, body) =>
      (match Eval(c, st)
       case Err(t) => Effect(Threw(t), st)
       case Ok(v) =>
         if Truth(v) then Again(m, fuel, s, Exec(m, fuel, body, st)) else Effect(Normal, st))
    case DoWhile(body, c) =>
      var e := Exec(m, fuel, body, st);
      var end := DoEnds(m, c, e);
      if end.Some? then end.value
      else if fuel == 0 then Effect(Timeout, e.store)
      else Exec(m, fuel - 1, s, e.store)
    case For(init, cond, incr, body) =>
      var e := ExecSimple(m, init, st);
      if e.exit.Normal? then ExecFor(m, fuel, cond, incr, body, e.store) else e
    case Switch(e, cs) =>
      (match Eval(e, st)
       case Err(t) => Effect(Threw(t), st)
       case Ok(v) =>
         match FindCase(m, v, cs, st)
         case (Err(t), _) => Effect(Threw(t), st)
         case (_, found) =>
           var e := ExecCases(m, fuel, if found.Some? then found.value else DefaultOf(cs), st);
           if e.exit.Broke? then Effect(Normal, e.store) else e)
    case Foreach(x, e, hi, body) =>
      (match (Eval(e, st), if hi.None? then Ok(ZERO) else Eval(hi.value, st))
       case (Err(t), _) => Effect(Threw(t), st)
       case (Ok(_), Err(t)) => Effect(Threw(t), st)
       case (Ok(v), Ok(w)) =>
         if v.Nothing? || w.Nothing? then Effect(Threw(IllegalForeach), st)
         else ExecEach(m, fuel, x, ForValues(v, if hi.None? then None else Some(w)), body, st))
    case Compound(xs, body) => Exec(m, fuel, body, ClearAll(xs, st))
    case Break => Effect(Broke, st)
    case Continue => Effect(Continued, st)
    case Return(e) =>
      if e.None? then Effect(Exit.Return(None), st)
      else (match Eval(e.value, st) case Ok(v) => Effect(Exit.Return(Some(v)), st) case Err(t) => Effect(Threw(t), st))
    case TryCatch(body, x, handler) =>
      var e := Exec(m, fuel, body, st);
      if e.exit.Threw? then Exec(m, fuel, handler, Store(e.store.vars, e.store.caught[x := e.exit.t])) else e
    case Throw(e) =>
      (match Eval(e, st) case Ok(v) => Effect(Threw(User(v)), st) case Err(t) => Effect(Threw(t), st))
  }

  /** A round of the loop s has ended with effect e: leave the loop or start over. */
  function Again(m: Mode, fuel: nat, s: Stmt, e: Effect): Effect
    decreases fuel, s, 0
  {
    if e.exit.Broke? then Effect(Normal, e.store)
    else if !e.exit.Normal? && !e.exit.Continued? then e
    else if fuel == 0 then Effect(Timeout, e.store)
    else Exec(m, fuel - 1, s, e.store)
  }

  function ExecFor(m: Mode, fuel: nat, cond: Option<Expr>, incr: Simple, body: Stmt, st: Store): Effect
    decreases fuel, body, 2
  {
    match (if cond.None? then Ok(Int(1)) else Eval(cond.value, st))
    case Err(t) => Effect(Threw(t), st)
    case Ok(v) =>
      if !Truth(v) then Effect(Normal, st)
      else
        var e := Exec(m, fuel, body, st);
        if e.exit.Broke? then Effect(Normal, e.store)
        else if !e.exit.Normal? && !e.exit.Continued? then e
        else
          var e' := ExecSimple(m, incr, e.store);
          if !e'.exit.Normal? then e'
          else if fuel == 0 then Effect(Timeout, e'.store)
          else ExecFor(m, fuel - 1, cond, incr, body, e'.store)
  }

  function ExecEach(m: Mode, fuel: nat, x: nat, vs: seq<Value>, body: Stmt, st: Store): Effect
    decreases fuel, body, 2 + |vs|
  {
    if vs == [] then Effect(Normal, st)
    else
      var e := Exec(m, fuel, body, st.Set(x, vs[0]));
      if e.exit.Broke? then Effect(Normal, e.store)
      else if !e.exit.Normal? && !e.exit.Continued? then e
      else ExecEach(m, fuel, x, vs[1..], body, e.store)
  }

  /** Run the bodies of the given clauses, each falling through to the next. */
  function ExecCases(m: Mode, fuel: nat, from: Cases, st: Store): Effect
    decreases fuel, from, 2
  {
    match from
    case NoCases => Effect(Normal, st)
    case Case(_, _, body, rest) =>
      var e := Exec(m, fuel, body, st);
      if e.exit.Normal? then ExecCases(m, fuel, rest, e.store) else e
    case Default(body, rest) =>
      var e := Exec(m, fuel, body, st);
      if e.exit.Normal? then ExecCases(m, fuel, rest, e.store) else e
  }
}

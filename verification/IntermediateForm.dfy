/** The intermediate form: the list of IF nodes that the code generator issues for a parse tree.
    A node is referred to by its position in the list, a label by its number. */
module IntermediateForm {
  import opened Values
  import opened Source
  import Levels

  datatype Opd = OVar(x: nat) | OImm(v: Value) | ONode(n: nat)

  /** The first operand of a MOV: a TEMP node or a variable. */
  datatype MoveTo = MNode(n: nat) | MVar(x: nat)

  /** "dest" is the variable that a store made the destination of an expression node. */
  datatype Node =
    | NTemp(dest: Option<nat>)
    | NUn(uop: UnOp, a: Opd, dest: Option<nat>)
    | NBin(bop: BinOp, a: Opd, b: Opd, dest: Option<nat>)
    | NMov(to: MoveTo, a: Opd)
    | NLabel(l: nat)
    | NB(l: nat)
    | NBT(a: Opd, l: nat)
    | NBF(a: Opd, l: nat)
    | NPushScope
    | NPopScope(ns: int, nt: int, nf: int)
    | NTry(lc: nat, le: nat)
    | NCatch(x: nat)
    | NThrow(a: Opd)
    | NForeach(x: nat, a: Opd, hi: Option<Opd>, l: nat)
    | NNext
    | NRet
    | NRetVal(a: Opd)
    | NEnd

  /** Code, the next unused label, and the operand that denotes the result. */
  datatype Gen = Gen(code: seq<Node>, next: nat, res: Opd)

  // ----- expressions -----

  predicate IsLeaf(e: Expr) {
    e.Const? || e.Var?
  }

  /** compareTrue: nothing is issued after a comparison, otherwise "!= 0" at position at. */
  function TestCode(e: Expr, res: Opd): seq<Node> {
    if e.Bin? && IsCompare(e.bop) then [] else [NBin(CmpNe, res, OImm(ZERO), None)]
  }

  function TestOpd(e: Expr, res: Opd, at: nat): Opd {
    if e.Bin? && IsCompare(e.bop) then res else ONode(at)
  }

  /** What is issued to test a value: nothing after one of the six comparisons, "!= 0" after anything else. */
  lemma Tested(e: Expr, res: Opd, at: nat)
    ensures var compared := e.Bin? && (e.bop.CmpEq? || e.bop.CmpNe? || e.bop.CmpLt? || e.bop.CmpLe? || e.bop.CmpGt? || e.bop.CmpGe?);
            if compared then TestCode(e, res) == [] && TestOpd(e, res, at) == res
            else TestCode(e, res) == [NBin(CmpNe, res, OImm(Num(KInt, 0)), None)] && TestOpd(e, res, at) == ONode(at)
  {}

  function BuildUn(op: UnOp, l: Gen, b: nat, d: Option<nat>): Gen {
    Gen(l.code + [NUn(op, l.res, d)], l.next, ONode(b + |l.code|))
  }

  function BuildBin(op: BinOp, l: Gen, r: Gen, b: nat, d: Option<nat>): Gen {
    Gen(l.code + r.code + [NBin(op, l.res, r.res, d)], r.next, ONode(b + |l.code| + |r.code|))
  }

  /** Between the operands of &&: keep the first, and leave when it fails the test. */
  function AndMid(a: Expr, l: Gen, b: nat, n: nat): seq<Node> {
    [NMov(MNode(b), l.res)] + TestCode(a, l.res) + [NBF(TestOpd(a, l.res, b + 2 + |l.code|), n)]
  }

  /** Between the operands of ||: keep the first, and leave when it is true. */
  function OrMid(l: Gen, b: nat, n: nat): seq<Node> {
    [NMov(MNode(b), l.res), NBT(l.res, n)]
  }

  /** TEMP, first operand, mid, second operand, MOV to the TEMP, end label. */
  function BuildLogical(b: nat, n: nat, d: Option<nat>, l: Gen, mid: seq<Node>, r: Gen): Gen {
    Gen([NTemp(d)] + l.code + mid + r.code + [NMov(MNode(b), r.res), NLabel(n)], r.next, ONode(b))
  }

  /** The test of a condition that stands at position m, and the branch taken when it fails. */
  function TestBranch(c: Expr, res: Opd, m: nat, n: nat): seq<Node> {
    TestCode(c, res) + [NBF(TestOpd(c, res, m), n)]
  }

  function BuildCond(b: nat, d: Option<nat>, l: Gen, mid: seq<Node>, r: Gen, q: Gen): Gen {
    Gen(([NTemp(d)] + l.code + mid + r.code + [NMov(MNode(b), r.res), NB(l.next + 1), NLabel(l.next)])
        + (q.code + [NMov(MNode(b), q.res), NLabel(l.next + 1)]),
        q.next, ONode(b))
  }

  /** The code for e issued from position b with labels from n on, its top node given destination d. */
  function GenExpr(e: Expr, b: nat, n: nat, d: Option<nat>): Gen
    decreases e
  {
    match e
    case Const(v) => Gen([], n, OImm(v))
    case Var(x) => Gen([], n, OVar(x))
    case Un(op, a) => BuildUn(op, GenExpr(a, b, n, None), b, d)
    case Bin(op, a1, a2) =>
      var l := GenExpr(a1, b, n, None);
      BuildBin(op, l, GenExpr(a2, b + |l.code|, l.next, None), b, d)
    case And(a1, a2) =>
      var l := GenExpr(a1, b + 1, n + 1, None);
      var mid := AndMid(a1, l, b, n);
      BuildLogical(b, n, d, l, mid, GenExpr(a2, b + 1 + |l.code| + |mid|, l.next, None))
    case Or(a1, a2) =>
      var l := GenExpr(a1, b + 1, n + 1, None);
      var mid := OrMid(l, b, n);
      BuildLogical(b, n, d, l, mid, GenExpr(a2, b + 1 + |l.code| + |mid|, l.next, None))
    case Cond(c, a1, a2) =>
      var l := GenExpr(c, b + 1, n, None);
      var mid := TestBranch(c, l.res, b + 1 + |l.code|, l.next);
      var r := GenExpr(a1, b + 1 + |l.code| + |mid|, l.next + 2, None);
      BuildCond(b, d, l, mid, r, GenExpr(a2, b + 4 + |l.code| + |mid| + |r.code|, r.next, None))
  }

  /** store: the result of a leaf or of a further assignment is moved, any other expression node
      gets the variable as its destination. */
  function GenRhs(x: nat, r: Rhs, b: nat, n: nat): Gen
    decreases r
  {
    match r
    case Plain(e) =>
      if IsLeaf(e) then Gen([NMov(MVar(x), GenExpr(e, b, n, None).res)], n, OVar(x))
      else GenExpr(e, b, n, Some(x))
    case Chain(y, r') =>
      var g := GenRhs(y, r', b, n);
      Gen(g.code + [NMov(MVar(x), g.res)], g.next, OVar(x))
  }

  function GenSimple(s: Simple, b: nat, n: nat): Gen {
    match s
    case Skip => Gen([], n, OImm(ZERO))
    case Evaluate(e) => GenExpr(e, b, n, None)
    case Assign(x, r) => GenRhs(x, r, b, n)
  }

  // ----- statements -----

  /** The label a break or continue goes to, and the packed depths there. */
  datatype Target = Target(lab: nat, level: nat)

  /** The innermost break and continue targets and the current depths. */
  datatype Context = Context(brk: Option<Target>, cont: Option<Target>, scope: nat, tries: nat, fors: nat) {
    function Level(): nat {
      Levels.Pack(0, tries, scope, fors)
    }

    function InLoop(brkLabel: nat, contLabel: nat): Context {
      this.(brk := Some(Target(brkLabel, Level())), cont := Some(Target(contLabel, Level())))
    }

    function InSwitch(brkLabel: nat): Context {
      this.(brk := Some(Target(brkLabel, Level())))
    }
  }

  const TOP := Context(None, None, 0, 0, 0)

  datatype GenS = GenS(code: seq<Node>, next: nat)

  /** The comparisons of a switch; labels[i] is the label of the i-th clause. */
  datatype GenT = GenT(code: seq<Node>, next: nat, labels: seq<Option<nat>>)

  function ClearCode(xs: seq<nat>): seq<Node> {
    if xs == [] then [] else [NMov(MVar(xs[0]), OImm(Nothing))] + ClearCode(xs[1..])
  }

  predicate HasDefault(cs: Cases) {
    match cs
    case NoCases => false
    case Case(_, _, _, rest) => HasDefault(rest)
    case Default(_, _) => true
  }

  /** A case: its expression c at position b, the comparison with v, the branch to its label n. */
  function BuildTest(op: CaseOp, v: Opd, b: nat, n: nat, c: Gen, g: GenT): GenT {
    GenT(c.code + [NBin(CaseBinOp(op), v, c.res, None), NBT(ONode(b + |c.code|), n)] + g.code, g.next, [Some(n)] + g.labels)
  }

  function GenTests(cs: Cases, v: Opd, b: nat, n: nat): (g: GenT)
    ensures |g.labels| == CountCases(cs)
    decreases cs
  {
    match cs
    case NoCases => GenT([], n, [])
    case Default(_, rest) =>
      var g := GenTests(rest, v, b, n);
      GenT(g.code, g.next, [None] + g.labels)
    case Case(op, e, _, rest) =>
      var c := GenExpr(e, b, n + 1, None);
      BuildTest(op, v, b, n, c, GenTests(rest, v, b + |c.code| + 2, c.next))
  }

  function CountCases(cs: Cases): nat {
    match cs
    case NoCases => 0
    case Case(_, _, _, rest) => 1 + CountCases(rest)
    case Default(_, rest) => 1 + CountCases(rest)
  }

  function BuildClause(l: nat, g: GenS, h: GenS): GenS {
    GenS([NLabel(l)] + g.code + h.code, h.next)
  }

  function ClauseLabel(cs: Cases, labels: seq<Option<nat>>, dflt: nat): nat {
    if cs.Case? && labels != [] && labels[0].Some? then labels[0].value else dflt
  }

  function GenBodies(cs: Cases, labels: seq<Option<nat>>, dflt: nat, b: nat, n: nat, ctx: Context): GenS
    requires |labels| == CountCases(cs)
    decreases cs
  {
    match cs
    case NoCases => GenS([], n)
    case Case(_, _, body, rest) =>
      var g := GenStmt(body, b + 1, n, ctx);
      BuildClause(ClauseLabel(cs, labels, dflt), g, GenBodies(rest, labels[1..], dflt, b + 1 + |g.code|, g.next, ctx))
    case Default(body, rest) =>
      var g := GenStmt(body, b + 1, n, ctx);
      BuildClause(dflt, g, GenBodies(rest, labels[1..], dflt, b + 1 + |g.code|, g.next, ctx))
  }

  /** break and continue: leave the scopes, try blocks and foreach loops entered since the target. */
  function LeaveCode(ctx: Context, t: Option<Target>, popFors: bool): seq<Node> {
    if t.None? then []
    else
      [NPopScope(ctx.scope - Levels.GetScope(t.value.level), ctx.tries - Levels.GetTry(t.value.level),
                 if popFors then ctx.fors - Levels.GetFor(t.value.level) else 0),
       NB(t.value.lab)]
  }

  function BuildSeq(g: GenS, h: GenS): GenS {
    GenS(g.code + h.code, h.next)
  }

  function BuildIf(g: Gen, mid: seq<Node>, h: GenS): GenS {
    GenS(g.code + mid + h.code + [NLabel(g.next)], h.next)
  }

  function BuildIfElse(g: Gen, mid: seq<Node>, h: GenS, k: GenS): GenS {
    GenS(g.code + mid + h.code + [NB(g.next + 1), NLabel(g.next)] + (k.code + [NLabel(g.next + 1)]), k.next)
  }

  function BuildWhile(n: nat, g: Gen, mid: seq<Node>, h: GenS): GenS {
    GenS([NLabel(n)] + g.code + mid + h.code + [NB(n), NLabel(n + 1)], h.next)
  }

  function BuildDo(n: nat, h: GenS, g: Gen, tc: seq<Node>, o: Opd): GenS {
    GenS([NLabel(n)] + h.code + g.code + tc + [NBT(o, n), NLabel(n + 1)], g.next)
  }

  function BuildFor(n: nat, i: Gen, g: GenS, h: GenS, j: Gen): GenS {
    GenS((i.code + [NLabel(n)] + g.code + h.code + [NLabel(n + 2)]) + (j.code + [NB(n), NLabel(n + 1)]), j.next)
  }

  function BuildSwitch(n: nat, g: Gen, t: GenT, dflt: nat, h: GenS): GenS {
    GenS(g.code + t.code + [NB(dflt)] + h.code + [NLabel(n)], h.next)
  }

  function BuildForeach(n: nat, x: nat, g: Gen, hi: Option<Opd>, k: Gen, h: GenS): GenS {
    GenS(g.code + k.code + [NForeach(x, g.res, hi, n + 1)] + h.code + [NLabel(n), NNext, NLabel(n + 2), NLabel(n + 1)], h.next)
  }

  function BuildCompound(clear: seq<Node>, h: GenS): GenS {
    GenS([NPushScope] + clear + h.code + [NPopScope(1, 0, 0)], h.next)
  }

  /** Nothing to pop at the outermost level. */
  function ReturnPop(ctx: Context): seq<Node> {
    if ctx.scope > 0 || ctx.tries > 0 || ctx.fors > 0 then [NPopScope(ctx.scope, ctx.tries, ctx.fors)] else []
  }

  function BuildReturn(g: Gen, pop: seq<Node>, last: Node): GenS {
    GenS(g.code + pop + [last], g.next)
  }

  function BuildTry(n: nat, x: nat, h: GenS, k: GenS): GenS {
    GenS([NTry(n, n + 1)] + h.code + [NEnd, NLabel(n), NCatch(x)] + k.code + [NLabel(n + 1)], k.next)
  }

  function BuildThrow(g: Gen): GenS {
    GenS(g.code + [NThrow(g.res)], g.next)
  }

  function GenOption(e: Option<Expr>, b: nat, n: nat): Gen {
    if e.None? then Gen([], n, OImm(ZERO)) else GenExpr(e.value, b, n, None)
  }

  function GenStmt(s: Stmt, b: nat, n: nat, ctx: Context): GenS
    decreases s
  {
    match s
    case Do(simple) =>
      var g := GenSimple(simple, b, n);
      GenS(g.code, g.next)
    case Seq(s1, s2) =>
      var g := GenStmt(s1, b, n, ctx);
      BuildSeq(g, GenStmt(s2, b + |g.code|, g.next, ctx))
    case If(c, s1) =>
      var g := GenExpr(c, b, n, None);
      var mid := TestBranch(c, g.res, b + |g.code|, g.next);
      BuildIf(g, mid, GenStmt(s1, b + |g.code| + |mid|, g.next + 1, ctx))
    case IfElse(c, s1, s2) =>
      var g := GenExpr(c, b, n, None);
      var mid := TestBranch(c, g.res, b + |g.code|, g.next);
      var h := GenStmt(s1, b + |g.code| + |mid|, g.next + 2, ctx);
      BuildIfElse(g, mid, h, GenStmt(s2, b + |g.code| + |mid| + |h.code| + 2, h.next, ctx))
    case While(c, body) =>
      var g := GenExpr(c, b + 1, n + 2, None);
      var mid := TestBranch(c, g.res, b + 1 + |g.code|, n + 1);
      BuildWhile(n, g, mid, GenStmt(body, b + 1 + |g.code| + |mid|, g.next, ctx.InLoop(n + 1, n)))
    case DoWhile(body, c) =>
      var h := GenStmt(body, b + 1, n + 2, ctx.InLoop(n + 1, n));
      var m := b + 1 + |h.code|;
      var g := GenExpr(c, m, h.next, None);
      BuildDo(n, h, g, TestCode(c, g.res), TestOpd(c, g.res, m + |g.code|))
    case For(init, cond, incr, body) =>
      var i := GenSimple(init, b, n + 3);
      var m := b + |i.code| + 1;
      var g := GenForTest(cond, m, i.next, n + 1);
      var h := GenStmt(body, m + |g.code|, g.next, ctx.InLoop(n + 1, n + 2));
      BuildFor(n, i, g, h, GenSimple(incr, m + |g.code| + |h.code| + 1, h.next))
    case Switch(e, cs) =>
      var g := GenExpr(e, b, n + 1, None);
      var t := GenTests(cs, g.res, b + |g.code|, g.next);
      var dflt := if HasDefault(cs) then t.next else n;
      var n' := if HasDefault(cs) then t.next + 1 else t.next;
      BuildSwitch(n, g, t, dflt, GenBodies(cs, t.labels, dflt, b + |g.code| + |t.code| + 1, n', ctx.InSwitch(n)))
    case Foreach(x, e, hi, body) =>
      var g := GenExpr(e, b, n + 3, None);
      var k := GenOption(hi, b + |g.code|, g.next);
      var h := GenStmt(body, b + |g.code| + |k.code| + 1, k.next, ctx.InLoop(n + 2, n).(fors := ctx.fors + 1));
      BuildForeach(n, x, g, if hi.None? then None else Some(k.res), k, h)
    case Compound(xs, body) =>
      BuildCompound(ClearCode(xs), GenStmt(body, b + 1 + |ClearCode(xs)|, n, ctx.(scope := ctx.scope + 1)))
    case Break => GenS(LeaveCode(ctx, ctx.brk, true), n)
    case Continue => GenS(LeaveCode(ctx, ctx.cont, false), n)
    case Return(e) =>
      var g := GenOption(e, b, n);
      BuildReturn(g, ReturnPop(ctx), if e.None? then NRet else NRetVal(g.res))
    case TryCatch(body, x, handler) =>
      var h := GenStmt(body, b + 1, n + 2, ctx.(tries := ctx.tries + 1));
      BuildTry(n, x, h, GenStmt(handler, b + 4 + |h.code|, h.next, ctx))
    case Throw(e) => BuildThrow(GenExpr(e, b, n, None))
  }

  /** The test of a for loop; nothing when the condition is omitted. */
  function GenForTest(cond: Option<Expr>, b: nat, n: nat, endLabel: nat): GenS {
    match cond
    case None => GenS([], n)
    case Some(c) =>
      var g := GenExpr(c, b, n, None);
      GenS(g.code + TestBranch(c, g.res, b + |g.code|, endLabel), g.next)
  }

  // ----- what the compiler is given -----

  /** The depths that fit into the packed int. */
  predicate DepthFits(scope: nat, tries: nat, fors: nat) {
    scope < Levels.MAX_SCOPE && tries < Levels.MAX_TRY && fors < Levels.MAX_FOR
  }

  /** The parser only lets break and continue through inside a loop (break also in a switch) and
      gives a switch at most one default; loops and switches nest within the packed bounds. */
  predicate Compilable(s: Stmt, brk: bool, cont: bool, scope: nat, tries: nat, fors: nat)
    decreases s
  {
    match s
    case Do(_) => true
    case Seq(s1, s2) => Compilable(s1, brk, cont, scope, tries, fors) && Compilable(s2, brk, cont, scope, tries, fors)
    case If(_, s1) => Compilable(s1, brk, cont, scope, tries, fors)
    case IfElse(_, s1, s2) => Compilable(s1, brk, cont, scope, tries, fors) && Compilable(s2, brk, cont, scope, tries, fors)
    case While(_, body) => DepthFits(scope, tries, fors) && Compilable(body, true, true, scope, tries, fors)
    case DoWhile(body, _) => DepthFits(scope, tries, fors) && Compilable(body, true, true, scope, tries, fors)
    case For(_, _, _, body) => DepthFits(scope, tries, fors) && Compilable(body, true, true, scope, tries, fors)
    case Switch(_, cs) => DepthFits(scope, tries, fors) && OneDefault(cs) && CompilableCases(cs, cont, scope, tries, fors)
    case Foreach(_, _, _, body) => DepthFits(scope, tries, fors) && Compilable(body, true, true, scope, tries, fors + 1)
    case Compound(_, body) => Compilable(body, brk, cont, scope + 1, tries, fors)
    case Break => brk
    case Continue => cont
    case Return(_) => true
    case TryCatch(body, _, handler) =>
      Compilable(body, brk, cont, scope, tries + 1, fors) && Compilable(handler, brk, cont, scope, tries, fors)
    case Throw(_) => true
  }

  predicate CompilableCases(cs: Cases, cont: bool, scope: nat, tries: nat, fors: nat)
    decreases cs
  {
    match cs
    case NoCases => true
    case Case(_, _, body, rest) => Compilable(body, true, cont, scope, tries, fors) && CompilableCases(rest, cont, scope, tries, fors)
    case Default(body, rest) => Compilable(body, true, cont, scope, tries, fors) && CompilableCases(rest, cont, scope, tries, fors)
  }

  predicate OneDefault(cs: Cases) {
    match cs
    case NoCases => true
    case Case(_, _, _, rest) => OneDefault(rest)
    case Default(_, rest) => !HasDefault(rest)
  }

  /** What the parser lets through, without regard to depths: break and continue inside of loops, break
      also in a switch, one default in a switch. */
  predicate Parsed(s: Stmt, brk: bool, cont: bool) {
    match s
    case Seq(s1, s2) => Parsed(s1, brk, cont) && Parsed(s2, brk, cont)
    case If(_, s1) => Parsed(s1, brk, cont)
    case IfElse(_, s1, s2) => Parsed(s1, brk, cont) && Parsed(s2, brk, cont)
    case While(_, body) => Parsed(body, true, true)
    case DoWhile(body, _) => Parsed(body, true, true)
    case For(_, _, _, body) => Parsed(body, true, true)
    case Switch(_, cs) => ParsedCases(cs, cont) && Defaults(cs) <= 1
    case Foreach(_, _, _, body) => Parsed(body, true, true)
    case Compound(_, body) => Parsed(body, brk, cont)
    case Break => brk
    case Continue => cont
    case TryCatch(body, _, handler) => Parsed(body, brk, cont) && Parsed(handler, brk, cont)
    case _ => true
  }

  predicate ParsedCases(cs: Cases, cont: bool) {
    cs.NoCases? || (Parsed(cs.body, true, cont) && ParsedCases(cs.rest, cont))
  }

  function Defaults(cs: Cases): nat {
    if cs.NoCases? then 0 else (if cs.Default? then 1 else 0) + Defaults(cs.rest)
  }

  lemma {:induction false} DefaultsCounted(cs: Cases)
    ensures (HasDefault(cs) <==> Defaults(cs) > 0) && (OneDefault(cs) <==> Defaults(cs) <= 1)
  {
    if !cs.NoCases? { DefaultsCounted(cs.rest); }
  }

  /** How many compounds, try blocks and foreach loops there are around the innermost statement. */
  function Height(s: Stmt): nat {
    match s
    case Seq(s1, s2) => More(Height(s1), Height(s2))
    case If(_, s1) => Height(s1)
    case IfElse(_, s1, s2) => More(Height(s1), Height(s2))
    case While(_, body) => Height(body)
    case DoWhile(body, _) => Height(body)
    case For(_, _, _, body) => Height(body)
    case Switch(_, cs) => HeightOf(cs)
    case Foreach(_, _, _, body) => 1 + Height(body)
    case Compound(_, body) => 1 + Height(body)
    case TryCatch(body, _, handler) => 1 + More(Height(body), Height(handler))
    case _ => 0
  }

  function HeightOf(cs: Cases): nat {
    if cs.NoCases? then 0 else More(Height(cs.body), HeightOf(cs.rest))
  }

  function More(a: nat, b: nat): nat {
    if a < b then b else a
  }

  /** Everything that is accepted is parsed, and everything that is parsed is accepted when it is not nested
      more than 255 deep. */
  lemma {:induction false} Accepts(s: Stmt, brk: bool, cont: bool, scope: nat, tries: nat, fors: nat)
    ensures Compilable(s, brk, cont, scope, tries, fors) ==> Parsed(s, brk, cont)
    ensures Parsed(s, brk, cont) && scope + Height(s) < 0x400 && tries + Height(s) < 0x100 && fors + Height(s) < 0x400 ==>
              Compilable(s, brk, cont, scope, tries, fors)
    decreases s
  {
    match s
    case Seq(s1, s2) =>
      Accepts(s1, brk, cont, scope, tries, fors);
      Accepts(s2, brk, cont, scope, tries, fors);
    case If(_, s1) => Accepts(s1, brk, cont, scope, tries, fors);
    case IfElse(_, s1, s2) =>
      Accepts(s1, brk, cont, scope, tries, fors);
      Accepts(s2, brk, cont, scope, tries, fors);
    case While(_, body) => Accepts(body, true, true, scope, tries, fors);
    case DoWhile(body, _) => Accepts(body, true, true, scope, tries, fors);
    case For(_, _, _, body) => Accepts(body, true, true, scope, tries, fors);
    case Switch(_, cs) =>
      DefaultsCounted(cs);
      AcceptsCases(cs, cont, scope, tries, fors);
    case Foreach(_, _, _, body) => Accepts(body, true, true, scope, tries, fors + 1);
    case Compound(_, body) => Accepts(body, brk, cont, scope + 1, tries, fors);
    case TryCatch(body, _, handler) =>
      Accepts(body, brk, cont, scope, tries + 1, fors);
      Accepts(handler, brk, cont, scope, tries, fors);
    case _ =>
  }

  lemma {:induction false} AcceptsCases(cs: Cases, cont: bool, scope: nat, tries: nat, fors: nat)
    ensures CompilableCases(cs, cont, scope, tries, fors) ==> ParsedCases(cs, cont)
    ensures ParsedCases(cs, cont) && scope + HeightOf(cs) < 0x400 && tries + HeightOf(cs) < 0x100 && fors + HeightOf(cs) < 0x400 ==>
              CompilableCases(cs, cont, scope, tries, fors)
    decreases cs
  {
    if !cs.NoCases? {
      Accepts(cs.body, true, cont, scope, tries, fors);
      AcceptsCases(cs.rest, cont, scope, tries, fors);
    }
  }

  /** The whole list for a program. */
  function GenProgram(s: Stmt): seq<Node> {
    GenStmt(s, 0, 0, TOP).code + [NEnd]
  }
}

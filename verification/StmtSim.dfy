/** The node code of a statement has the effect of the statement. */
module StmtSim {
  import opened Values
  import opened Source
  import opened IntermediateForm
  import opened NodeMachine
  import opened ExprSim
  import opened StmtShape
  import Levels
  import M = Machine

  // ----- contexts and machine states -----

  /** The target is a label of the list, and its packed depths are those of an enclosing statement. */
  ghost predicate TargetOk(p: Nodes, ls: Labels, ctx: Context, t: Option<Target>) {
    t.Some? ==>
      && t.value.lab in ls && ls[t.value.lab] < |p| && p[ls[t.value.lab]] == NLabel(t.value.lab)
      && Levels.GetScope(t.value.level) <= ctx.scope && Levels.GetTry(t.value.level) <= ctx.tries && Levels.GetFor(t.value.level) <= ctx.fors
  }

  ghost predicate Fits(p: Nodes, ls: Labels, ctx: Context, s: M.State) {
    && TargetOk(p, ls, ctx, ctx.brk) && TargetOk(p, ls, ctx, ctx.cont)
    && ctx.scope <= s.scopes && ctx.fors <= |s.fors| && ctx.tries <= |s.tries|
  }

  predicate Allowed(s: Stmt, ctx: Context) {
    Compilable(s, ctx.brk.Some?, ctx.cont.Some?, ctx.scope, ctx.tries, ctx.fors)
  }

  predicate SameDepth(s: M.State, t: M.State) {
    s.scopes == t.scopes && s.fors == t.fors && s.tries == t.tries
  }

  ghost predicate Suffix(fs: seq<M.ForRecord>, gs: seq<M.ForRecord>) {
    |fs| <= |gs| && gs[|gs| - |fs|..] == fs
  }

  /** At the label of a break or continue target, with the stacks cut back to its depths. */
  ghost predicate AtTarget(ls: Labels, ctx: Context, target: Option<Target>, popFors: bool, s: M.State, t: M.State) {
    && target.Some? && target.value.lab in ls && t.pc == ls[target.value.lab]
    && t.scopes == s.scopes - (ctx.scope - Levels.GetScope(target.value.level))
    && 0 <= ctx.tries - Levels.GetTry(target.value.level) <= |s.tries|
    && t.tries == s.tries[ctx.tries - Levels.GetTry(target.value.level)..]
    && 0 <= ctx.fors - Levels.GetFor(target.value.level) <= |s.fors|
    && t.fors == s.fors[if popFors then ctx.fors - Levels.GetFor(target.value.level) else 0..]
  }

  /** Where k rounds from s lead for each way a statement can exit.  Falling out of the statement
      restores all three depths; break and continue cut them back to the target; return cuts them
      back to the outermost level; an exception leaves the try stack as it was. */
  ghost predicate Lands(p: Nodes, ls: Labels, ctx: Context, s: M.State, end: nat, fuel: nat, eff: Effect, k: nat, t: M.State) {
    var c := Code(p, ls);
    && t.store == eff.store
    && match eff.exit
       case Normal => M.Run(c, k, s) == M.Running(t) && t.pc == end && SameDepth(s, t)
       case Broke => M.Run(c, k, s) == M.Running(t) && AtTarget(ls, ctx, ctx.brk, true, s, t)
       case Continued => M.Run(c, k, s) == M.Running(t) && AtTarget(ls, ctx, ctx.cont, false, s, t) && M.Work(c, k, s) > 0
       case Return(v) =>
         && M.Run(c, k, s) == M.Finish(t, M.Returned(v))
         && t.scopes == s.scopes - ctx.scope
         && ctx.tries <= |s.tries| && t.tries == s.tries[ctx.tries..] && ctx.fors <= |s.fors| && t.fors == s.fors[ctx.fors..]
       case Threw(x) => M.Run(c, k, s) == M.Raise(t, x) && t.tries == s.tries && Suffix(s.fors, t.fors)
       case Timeout => M.Run(c, k, s) == M.Running(t) && M.Work(c, k, s) >= fuel
  }

  /** Rounds that keep the depths, followed by a landing.  Their work pays for fuel. */
  lemma LandsAfter(p: Nodes, ls: Labels, ctx: Context, j: nat, s: M.State, s': M.State, end: nat, fuel: nat, fuel': nat, eff: Effect, k: nat, t: M.State)
    requires M.Run(Code(p, ls), j, s) == M.Running(s') && SameDepth(s, s')
    requires Lands(p, ls, ctx, s', end, fuel', eff, k, t) && M.Work(Code(p, ls), j, s) + fuel' >= fuel
    ensures Lands(p, ls, ctx, s, end, fuel, eff, j + k, t)
  {
    M.RunAdd(Code(p, ls), j, k, s);
  }

  /** Rounds after a normal exit that keep the depths and the store. */
  lemma LandsThen(p: Nodes, ls: Labels, ctx: Context, s: M.State, end: nat, fuel: nat, eff: Effect, k: nat, t: M.State, j: nat, u: M.State, end': nat)
    requires Lands(p, ls, ctx, s, end, fuel, eff, k, t) && eff.exit.Normal?
    requires M.Run(Code(p, ls), j, t) == M.Running(u) && SameDepth(t, u) && u.store == t.store && u.pc == end'
    ensures Lands(p, ls, ctx, s, end', fuel, eff, k + j, u)
  {
    M.RunAdd(Code(p, ls), k, j, s);
  }

  /** A landing outside the statement, seen from an enclosing context with the same depths. */
  lemma Escape(p: Nodes, ls: Labels, ctx: Context, ctx': Context, s: M.State, end: nat, end': nat, fuel: nat, eff: Effect, k: nat, t: M.State)
    requires Lands(p, ls, ctx', s, end, fuel, eff, k, t)
    requires ctx'.scope == ctx.scope && ctx'.tries == ctx.tries && ctx'.fors == ctx.fors
    requires !eff.exit.Normal? && !eff.exit.Broke? && (eff.exit.Continued? ==> ctx'.cont == ctx.cont)
    ensures Lands(p, ls, ctx, s, end', fuel, eff, k, t)
  {}

  /** An expression that throws is a statement that throws. */
  lemma ExprThrows(p: Nodes, ls: Labels, ctx: Context, s: M.State, end: nat, fuel: nat, x: Thrown, st: Store, k: nat, t: M.State)
    requires M.Run(Code(p, ls), k, s) == M.Raise(t, x) && SameDepth(s, t) && t.store == st
    ensures Lands(p, ls, ctx, s, end, fuel, Effect(Threw(x), st), k, t)
  {}

  /** The context of a loop body has its targets in place. */
  lemma LoopFits(p: Nodes, ls: Labels, ctx: Context, s: M.State, brk: nat, cont: nat, qb: nat, qc: nat)
    requires LabelsOf(p, ls) && Fits(p, ls, ctx, s) && DepthFits(ctx.scope, ctx.tries, ctx.fors)
    requires qb < |p| && p[qb] == NLabel(brk) && qc < |p| && p[qc] == NLabel(cont)
    ensures Fits(p, ls, ctx.InLoop(brk, cont), s) && Fits(p, ls, ctx.InSwitch(brk), s)
    ensures Levels.GetScope(ctx.Level()) == ctx.scope && Levels.GetTry(ctx.Level()) == ctx.tries && Levels.GetFor(ctx.Level()) == ctx.fors
  {
    Levels.PackRoundTrip(0, ctx.tries, ctx.scope, ctx.fors);
  }

  // ----- simple statements -----

  lemma {:induction false} RhsCode(p: Nodes, ls: Labels, x: nat, r: Rhs, b: nat, n: nat, s: M.State) returns (k: nat, t: M.State)
    requires LabelsOf(p, ls) && At(p, b, GenRhs(x, r, b, n).code) && s.pc == b
    ensures var eff := AssignRhs(Actual, x, r, s.store);
            && SameStacks(s, t) && t.store == eff.store && (eff.exit.Normal? || eff.exit.Threw?)
            && (eff.exit.Threw? ==> M.Run(Code(p, ls), k, s) == M.Raise(t, eff.exit.t))
            && (eff.exit.Normal? ==>
                && M.Run(Code(p, ls), k, s) == M.Running(t) && t.pc == b + |GenRhs(x, r, b, n).code|
                && Resolve(p, GenRhs(x, r, b, n).res) == M.Variable(x))
    decreases r
  {
    hide M.Step, M.Run, M.Raise, M.Work, AssignExpr;
    match r
    case Plain(e) =>
      if IsLeaf(e) {
        k, t := LeafRhs(p, ls, x, e, b, n, s);
      } else {
        hide GenExpr, At;
        DestOfTop(p, e, x, b, n);
        AssignExits(Actual, x, e, s.store);
        k, t := ExprCode(p, ls, e, b, n, Some(x), s);
      }
    case Chain(y, r') =>
      hide GenExpr, At;
      var g := GenRhs(y, r', b, n);
      AtLast(p, b, g.code, NMov(MVar(x), g.res));
      k, t := RhsCode(p, ls, y, r', b, n, s);
      if AssignRhs(Actual, y, r', s.store).exit.Normal? {
        Step1(p, ls, k, s);
        t := MoveVariable(p, ls, x, y, g.res, b + |g.code|, t);
        k := k + 1;
      }
  }

  lemma MoveVariable(p: Nodes, ls: Labels, x: nat, y: nat, res: Opd, m: nat, s: M.State) returns (t: M.State)
    requires m < |p| && p[m] == NMov(MVar(x), res) && s.pc == m && Resolve(p, res) == M.Variable(y)
    ensures M.Step(Code(p, ls), s) == M.Running(t) && t.pc == m + 1 && SameStacks(s, t) && t.store == s.store.Set(x, s.store.Get(y))
  {
    t := M.Step(Code(p, ls), s).s;
  }

  lemma LeafRhs(p: Nodes, ls: Labels, x: nat, e: Expr, b: nat, n: nat, s: M.State) returns (k: nat, t: M.State)
    requires IsLeaf(e) && At(p, b, GenRhs(x, Plain(e), b, n).code) && s.pc == b
    ensures M.Run(Code(p, ls), k, s) == M.Running(t) && t.pc == b + 1 && SameStacks(s, t)
    ensures Effect(Normal, t.store) == AssignExpr(Actual, x, e, s.store)
  {
    k := 1;
    t := M.Step(Code(p, ls), s).s;
    assert M.Run(Code(p, ls), 1, s) == M.Step(Code(p, ls), s);
  }

  lemma AssignExits(m: Mode, x: nat, e: Expr, st: Store)
    ensures var eff := AssignExpr(m, x, e, st); eff.exit.Normal? || eff.exit.Threw?
  {}

  /** With a destination, the top node of the code carries it. */
  lemma DestOfTop(p: Nodes, e: Expr, x: nat, b: nat, n: nat)
    requires !IsLeaf(e) && At(p, b, GenExpr(e, b, n, Some(x)).code)
    ensures Resolve(p, GenExpr(e, b, n, Some(x)).res) == M.Variable(x)
  {
    hide GenExpr, At;
    if e.Un? || e.Bin? {
      DestOfOperator(p, e, x, b, n);
    } else if e.Cond? {
      DestOfCond(p, e, x, b, n);
    } else {
      DestOfLogical(p, e, x, b, n);
    }
  }

  lemma DestOfOperator(p: Nodes, e: Expr, x: nat, b: nat, n: nat)
    requires (e.Un? || e.Bin?) && At(p, b, GenExpr(e, b, n, Some(x)).code)
    ensures Resolve(p, GenExpr(e, b, n, Some(x)).res) == M.Variable(x)
  {
    hide GenExpr, At;
    if e.Un? {
      UnUnfold(e.uop, e.a, b, n, Some(x));
      var l := GenExpr(e.a, b, n, None);
      AtLast(p, b, l.code, NUn(e.uop, l.res, Some(x)));
    } else {
      BinUnfold(e.bop, e.a, e.b, b, n, Some(x));
      var l := GenExpr(e.a, b, n, None);
      var r := GenExpr(e.b, b + |l.code|, l.next, None);
      AtLast(p, b, l.code + r.code, NBin(e.bop, l.res, r.res, Some(x)));
    }
  }

  lemma DestOfLogical(p: Nodes, e: Expr, x: nat, b: nat, n: nat)
    requires (e.And? || e.Or?) && At(p, b, GenExpr(e, b, n, Some(x)).code)
    ensures Resolve(p, GenExpr(e, b, n, Some(x)).res) == M.Variable(x)
  {
    hide GenExpr, At, AndMid, OrMid;
    var l := GenExpr(e.a, b + 1, n + 1, None);
    var mid := if e.And? then AndMid(e.a, l, b, n) else OrMid(l, b, n);
    if e.And? { AndUnfold(e.a, e.b, b, n, Some(x)); } else { OrUnfold(e.a, e.b, b, n, Some(x)); }
    LogicalShape(p, b, n, Some(x), l, mid, GenExpr(e.b, b + 1 + |l.code| + |mid|, l.next, None));
  }

  lemma DestOfCond(p: Nodes, e: Expr, x: nat, b: nat, n: nat)
    requires e.Cond? && At(p, b, GenExpr(e, b, n, Some(x)).code)
    ensures Resolve(p, GenExpr(e, b, n, Some(x)).res) == M.Variable(x)
  {
    hide GenExpr, At, TestBranch;
    CondUnfold(e.c, e.a, e.b, b, n, Some(x));
    var l := GenExpr(e.c, b + 1, n, None);
    var mid := TestBranch(e.c, l.res, b + 1 + |l.code|, l.next);
    var r := GenExpr(e.a, b + 1 + |l.code| + |mid|, l.next + 2, None);
    CondShape(p, b, Some(x), l, mid, r, GenExpr(e.b, b + 4 + |l.code| + |mid| + |r.code|, r.next, None));
  }

  lemma SimpleCode(p: Nodes, ls: Labels, ctx: Context, fuel: nat, sm: Simple, b: nat, n: nat, s: M.State) returns (k: nat, t: M.State)
    requires LabelsOf(p, ls) && At(p, b, GenSimple(sm, b, n).code) && s.pc == b
    ensures Lands(p, ls, ctx, s, b + |GenSimple(sm, b, n).code|, fuel, ExecSimple(Actual, sm, s.store), k, t)
    ensures ExecSimple(Actual, sm, s.store).exit.Normal? || ExecSimple(Actual, sm, s.store).exit.Threw?
  {
    match sm
    case Skip => k, t := 0, s;
    case Evaluate(e) => k, t := ExprCode(p, ls, e, b, n, None, s);
    case Assign(x, r) => k, t := RhsCode(p, ls, x, r, b, n, s);
  }

  /** The MOVF instructions at the start of a compound statement. */
  lemma {:induction false} ClearSim(p: Nodes, ls: Labels, xs: seq<nat>, b: nat, s: M.State) returns (k: nat, t: M.State)
    requires At(p, b, ClearCode(xs)) && s.pc == b
    ensures M.Run(Code(p, ls), k, s) == M.Running(t) && t.pc == b + |ClearCode(xs)| && SameDepth(s, t) && t.store == ClearAll(xs, s.store)
    decreases |xs|
  {
    if xs == [] {
      k, t := 0, s;
    } else {
      AtSplit(p, b, [NMov(MVar(xs[0]), OImm(Nothing))], ClearCode(xs[1..]));
      var u := M.Step(Code(p, ls), s).s;
      assert M.Run(Code(p, ls), 1, s) == M.Step(Code(p, ls), s);
      k, t := ClearSim(p, ls, xs[1..], b + 1, u);
      M.RunAdd(Code(p, ls), 1, k, s);
      k := k + 1;
    }
  }

  /** break (popFors) and continue. */
  lemma LeaveSim(p: Nodes, ls: Labels, ctx: Context, target: Option<Target>, popFors: bool, b: nat, s: M.State) returns (t: M.State)
    requires LabelsOf(p, ls) && Fits(p, ls, ctx, s) && target.Some? && TargetOk(p, ls, ctx, target)
    requires At(p, b, LeaveCode(ctx, target, popFors)) && s.pc == b
    ensures M.Run(Code(p, ls), 2, s) == M.Running(t) && M.Work(Code(p, ls), 2, s) > 0
    ensures AtTarget(ls, ctx, target, popFors, s, t) && t.store == s.store
  {
    var c := Code(p, ls);
    var code := LeaveCode(ctx, target, popFors);
    AtTwo(p, b, code[0], code[1]);
    var u := M.Step(c, s).s;
    t := M.Step(c, u).s;
    assert M.Run(c, 1, u) == M.Step(c, u);
    assert M.Run(c, 2, s) == M.Run(c, 1, u);
  }

  // ----- statements -----

  lemma LandsNormally(p: Nodes, ls: Labels, ctx: Context, s: M.State, end: nat, fuel: nat, eff: Effect, k: nat, t: M.State)
    requires Lands(p, ls, ctx, s, end, fuel, eff, k, t) && eff.exit.Normal?
    ensures M.Run(Code(p, ls), k, s) == M.Running(t) && t.pc == end && SameDepth(s, t) && t.store == eff.store
  {}

  lemma NormalLands(p: Nodes, ls: Labels, ctx: Context, s: M.State, end: nat, fuel: nat, k: nat, t: M.State)
    requires M.Run(Code(p, ls), k, s) == M.Running(t) && t.pc == end && SameDepth(s, t)
    ensures Lands(p, ls, ctx, s, end, fuel, Effect(Normal, t.store), k, t)
  {}

  lemma FitsAfter(p: Nodes, ls: Labels, ctx: Context, s: M.State, t: M.State)
    requires Fits(p, ls, ctx, s) && SameDepth(s, t)
    ensures Fits(p, ls, ctx, t)
  {}

  /** The label at position q ends the statement. */
  lemma LabelEnds(p: Nodes, ls: Labels, ctx: Context, s: M.State, q: nat, fuel: nat, eff: Effect, k: nat, t: M.State) returns (k': nat, t': M.State)
    requires q < |p| && p[q].NLabel? && Lands(p, ls, ctx, s, q, fuel, eff, k, t)
    ensures Lands(p, ls, ctx, s, q + 1, fuel, eff, k', t')
  {
    k', t' := k, t;
    if eff.exit.Normal? {
      t' := Pass(p, ls, q, t);
      LandsThen(p, ls, ctx, s, q, fuel, eff, k, t, 1, t', q + 1);
      k' := k + 1;
    }
  }

  lemma ExecSeq(fuel: nat, s1: Stmt, s2: Stmt, st: Store)
    ensures var e := Exec(Actual, fuel, s1, st);
            Exec(Actual, fuel, Seq(s1, s2), st) == if e.exit.Normal? then Exec(Actual, fuel, s2, e.store) else e
  {}

  lemma ExecIf(fuel: nat, c: Expr, s1: Stmt, st: Store)
    ensures var r := Eval(c, st);
            Exec(Actual, fuel, If(c, s1), st) ==
            if r.Err? then Effect(Threw(r.t), st) else if Truth(r.v) then Exec(Actual, fuel, s1, st) else Effect(Normal, st)
  {}

  lemma ExecIfElse(fuel: nat, c: Expr, s1: Stmt, s2: Stmt, st: Store)
    ensures var r := Eval(c, st);
            Exec(Actual, fuel, IfElse(c, s1, s2), st) ==
            if r.Err? then Effect(Threw(r.t), st) else Exec(Actual, fuel, if Truth(r.v) then s1 else s2, st)
  {}

  lemma ExecWhile(fuel: nat, c: Expr, body: Stmt, st: Store)
    ensures var r := Eval(c, st);
            Exec(Actual, fuel, While(c, body), st) ==
            if r.Err? then Effect(Threw(r.t), st)
            else if Truth(r.v) then Again(Actual, fuel, While(c, body), Exec(Actual, fuel, body, st)) else Effect(Normal, st)
  {}

  lemma ExecDo(fuel: nat, body: Stmt, c: Expr, st: Store)
    ensures var e := Exec(Actual, fuel, body, st);
            var r := Eval(c, e.store);
            Exec(Actual, fuel, DoWhile(body, c), st) ==
            if !e.exit.Normal? then Again(Actual, fuel, DoWhile(body, c), e)
            else if r.Err? then Effect(Threw(r.t), e.store)
            else if Truth(r.v) then Again(Actual, fuel, DoWhile(body, c), e) else e
  {}

  lemma ExecTry(fuel: nat, body: Stmt, x: nat, handler: Stmt, st: Store)
    ensures var e := Exec(Actual, fuel, body, st);
            Exec(Actual, fuel, TryCatch(body, x, handler), st) ==
            if e.exit.Threw? then Exec(Actual, fuel, handler, Store(e.store.vars, e.store.caught[x := e.exit.t])) else e
  {}

  lemma {:induction false} SeqSim(p: Nodes, ls: Labels, ctx: Context, fuel: nat, s1: Stmt, s2: Stmt, b: nat, n: nat, s: M.State) returns (k: nat, t: M.State)
    requires LabelsOf(p, ls) && At(p, b, GenStmt(Seq(s1, s2), b, n, ctx).code) && s.pc == b
    requires Fits(p, ls, ctx, s) && Allowed(Seq(s1, s2), ctx)
    ensures Lands(p, ls, ctx, s, b + |GenStmt(Seq(s1, s2), b, n, ctx).code|, fuel, Exec(Actual, fuel, Seq(s1, s2), s.store), k, t)
    decreases fuel, Seq(s1, s2), 0
  {
    hide GenStmt, At, Lands, Exec, Fits, Compilable, M.Run;
    AllowedParts(Seq(s1, s2), ctx);
    ExecSeq(fuel, s1, s2, s.store);
    var g := GenStmt(s1, b, n, ctx);
    var h := GenStmt(s2, b + |g.code|, g.next, ctx);
    SeqUnfold(s1, s2, b, n, ctx);
    AtSplit(p, b, g.code, h.code);
    k, t := StmtCode(p, ls, ctx, fuel, s1, b, n, s);
    var eff := Exec(Actual, fuel, s1, s.store);
    if eff.exit.Normal? {
      LandsNormally(p, ls, ctx, s, b + |g.code|, fuel, eff, k, t);
      FitsAfter(p, ls, ctx, s, t);
      var k2, t2 := StmtCode(p, ls, ctx, fuel, s2, b + |g.code|, g.next, t);
      LandsAfter(p, ls, ctx, k, s, t, b + |g.code| + |h.code|, fuel, fuel, Exec(Actual, fuel, s2, t.store), k2, t2);
      k, t := k + k2, t2;
    } else {
      MoveEnd(p, ls, ctx, s, b + |g.code|, b + |g.code| + |h.code|, fuel, eff, k, t);
    }
  }

  /** A landing elsewhere does not depend on where the statement ends. */
  lemma MoveEnd(p: Nodes, ls: Labels, ctx: Context, s: M.State, end: nat, end': nat, fuel: nat, eff: Effect, k: nat, t: M.State)
    requires Lands(p, ls, ctx, s, end, fuel, eff, k, t) && !eff.exit.Normal?
    ensures Lands(p, ls, ctx, s, end', fuel, eff, k, t)
  {}

  /** The statements inside an allowed statement are allowed. */
  lemma AllowedParts(s: Stmt, ctx: Context)
    requires Allowed(s, ctx)
    ensures match s
            case Seq(s1, s2) => Allowed(s1, ctx) && Allowed(s2, ctx)
            case If(_, s1) => Allowed(s1, ctx)
            case IfElse(_, s1, s2) => Allowed(s1, ctx) && Allowed(s2, ctx)
            case While(_, body) => DepthFits(ctx.scope, ctx.tries, ctx.fors) && forall l, l' :: Allowed(body, ctx.InLoop(l, l'))
            case DoWhile(body, _) => DepthFits(ctx.scope, ctx.tries, ctx.fors) && forall l, l' :: Allowed(body, ctx.InLoop(l, l'))
            case For(_, _, _, body) => DepthFits(ctx.scope, ctx.tries, ctx.fors) && forall l, l' :: Allowed(body, ctx.InLoop(l, l'))
            case Foreach(_, _, _, body) =>
              DepthFits(ctx.scope, ctx.tries, ctx.fors) && forall l, l' :: Allowed(body, ctx.InLoop(l, l').(fors := ctx.fors + 1))
            case Compound(_, body) => Allowed(body, ctx.(scope := ctx.scope + 1))
            case TryCatch(body, _, handler) => Allowed(body, ctx.(tries := ctx.tries + 1)) && Allowed(handler, ctx)
            case _ => true
  {}

  lemma {:induction false} IfSim(p: Nodes, ls: Labels, ctx: Context, fuel: nat, c: Expr, s1: Stmt, b: nat, n: nat, s: M.State) returns (k: nat, t: M.State)
    requires LabelsOf(p, ls) && At(p, b, GenStmt(If(c, s1), b, n, ctx).code) && s.pc == b
    requires Fits(p, ls, ctx, s) && Allowed(If(c, s1), ctx)
    ensures Lands(p, ls, ctx, s, b + |GenStmt(If(c, s1), b, n, ctx).code|, fuel, Exec(Actual, fuel, If(c, s1), s.store), k, t)
    decreases fuel, If(c, s1), 0
  {
    hide GenStmt, GenExpr, TestBranch, At, LabelsOf, Eval, Lands, Exec, Fits, Compilable, M.Run, M.Step;
    AllowedParts(If(c, s1), ctx);
    ExecIf(fuel, c, s1, s.store);
    var g := GenExpr(c, b, n, None);
    var mid := TestBranch(c, g.res, b + |g.code|, g.next);
    var m := b + |g.code| + |mid|;
    var h := GenStmt(s1, m, g.next + 1, ctx);
    var q := m + |h.code|;
    IfUnfold(c, s1, b, n, ctx);
    IfShape(p, b, g, mid, h);
    k, t := ConditionCode(p, ls, c, b, n, g.next, q, s);
    var eff := Exec(Actual, fuel, If(c, s1), s.store);
    if Eval(c, s.store).Err? {
      ExprThrows(p, ls, ctx, s, q + 1, fuel, Eval(c, s.store).t, s.store, k, t);
    } else {
      if Truth(Eval(c, s.store).v) {
        FitsAfter(p, ls, ctx, s, t);
        var k2, t2 := StmtCode(p, ls, ctx, fuel, s1, m, g.next + 1, t);
        LandsAfter(p, ls, ctx, k, s, t, q, fuel, fuel, eff, k2, t2);
        k, t := k + k2, t2;
      } else {
        NormalLands(p, ls, ctx, s, q, fuel, k, t);
      }
      k, t := LabelEnds(p, ls, ctx, s, q, fuel, eff, k, t);
    }
  }

  lemma {:induction false} IfElseSim(p: Nodes, ls: Labels, ctx: Context, fuel: nat, c: Expr, s1: Stmt, s2: Stmt, b: nat, n: nat, s: M.State) returns (k: nat, t: M.State)
    requires LabelsOf(p, ls) && At(p, b, GenStmt(IfElse(c, s1, s2), b, n, ctx).code) && s.pc == b
    requires Fits(p, ls, ctx, s) && Allowed(IfElse(c, s1, s2), ctx)
    ensures Lands(p, ls, ctx, s, b + |GenStmt(IfElse(c, s1, s2), b, n, ctx).code|, fuel, Exec(Actual, fuel, IfElse(c, s1, s2), s.store), k, t)
    decreases fuel, IfElse(c, s1, s2), 0
  {
    hide GenStmt, GenExpr, TestBranch, At, LabelsOf, Eval, Lands, Exec, Fits, Compilable, M.Run, M.Step;
    AllowedParts(IfElse(c, s1, s2), ctx);
    ExecIfElse(fuel, c, s1, s2, s.store);
    var g := GenExpr(c, b, n, None);
    var mid := TestBranch(c, g.res, b + |g.code|, g.next);
    var m := b + |g.code| + |mid|;
    var h := GenStmt(s1, m, g.next + 2, ctx);
    var u := m + |h.code|;
    var h2 := GenStmt(s2, u + 2, h.next, ctx);
    var w := u + 2 + |h2.code|;
    IfElseUnfold(c, s1, s2, b, n, ctx);
    IfElseShape(p, b, g, mid, h, h2);
    k, t := ConditionCode(p, ls, c, b, n, g.next, u + 1, s);
    var eff := Exec(Actual, fuel, IfElse(c, s1, s2), s.store);
    if Eval(c, s.store).Err? {
      ExprThrows(p, ls, ctx, s, w + 1, fuel, Eval(c, s.store).t, s.store, k, t);
    } else {
      FitsAfter(p, ls, ctx, s, t);
      if Truth(Eval(c, s.store).v) {
        var k2, t2 := StmtCode(p, ls, ctx, fuel, s1, m, g.next + 2, t);
        LandsAfter(p, ls, ctx, k, s, t, u, fuel, fuel, eff, k2, t2);
        k, t := GotoEnds(p, ls, ctx, s, u, g.next + 1, w, fuel, eff, k + k2, t2);
      } else {
        var t1 := Pass(p, ls, u + 1, t);
        M.RunAdd(Code(p, ls), k, 1, s);
        FitsAfter(p, ls, ctx, s, t1);
        var k2, t2 := StmtCode(p, ls, ctx, fuel, s2, u + 2, h.next, t1);
        LandsAfter(p, ls, ctx, k + 1, s, t1, w, fuel, fuel, eff, k2, t2);
        k, t := k + 1 + k2, t2;
      }
      k, t := LabelEnds(p, ls, ctx, s, w, fuel, eff, k, t);
    }
  }

  /** A branch at position u to the label n at position w ends the statement there. */
  lemma GotoEnds(p: Nodes, ls: Labels, ctx: Context, s: M.State, u: nat, n: nat, w: nat, fuel: nat, eff: Effect, k: nat, t: M.State) returns (k': nat, t': M.State)
    requires LabelsOf(p, ls) && w < |p| && p[w] == NLabel(n) && u < |p| && p[u] == NB(n) && Lands(p, ls, ctx, s, u, fuel, eff, k, t)
    ensures Lands(p, ls, ctx, s, w, fuel, eff, k', t') && k <= k'
  {
    k', t' := k, t;
    if eff.exit.Normal? {
      t' := Goto(p, ls, u, n, w, t);
      LandsThen(p, ls, ctx, s, u, fuel, eff, k, t, 1, t', w);
      k' := k + 1;
    }
  }

  /** A break lands on the end label of the loop or switch: leave the statement there. */
  lemma BreakOut(p: Nodes, ls: Labels, ctx: Context, ctx': Context, s: M.State, end: nat, fuel: nat, eff: Effect, k: nat, t: M.State, q: nat)
    returns (u: M.State)
    requires LabelsOf(p, ls) && Lands(p, ls, ctx', s, end, fuel, eff, k, t) && eff.exit.Broke?
    requires ctx' == ctx.(brk := ctx'.brk, cont := ctx'.cont) && ctx'.brk.Some? && ctx'.brk.value.level == ctx.Level()
    requires DepthFits(ctx.scope, ctx.tries, ctx.fors) && q < |p| && p[q] == NLabel(ctx'.brk.value.lab)
    ensures Lands(p, ls, ctx, s, q + 1, fuel, Effect(Normal, eff.store), k + 1, u)
  {
    Levels.PackRoundTrip(0, ctx.tries, ctx.scope, ctx.fors);
    u := Pass(p, ls, q, t);
    M.RunAdd(Code(p, ls), k, 1, s);
  }

  /** A continue lands on the continue label of the loop with the depths of the loop. */
  lemma ContinueTo(p: Nodes, ls: Labels, ctx: Context, ctx': Context, s: M.State, end: nat, fuel: nat, eff: Effect, k: nat, t: M.State)
    requires Lands(p, ls, ctx', s, end, fuel, eff, k, t) && eff.exit.Continued?
    requires ctx'.scope == ctx.scope && ctx'.tries == ctx.tries && ctx'.cont.Some? && ctx'.cont.value.level == ctx.Level()
    requires DepthFits(ctx.scope, ctx.tries, ctx.fors)
    ensures M.Run(Code(p, ls), k, s) == M.Running(t) && SameDepth(s, t) && t.store == eff.store && M.Work(Code(p, ls), k, s) > 0
    ensures ctx'.cont.value.lab in ls && t.pc == ls[ctx'.cont.value.lab]
  {
    Levels.PackRoundTrip(0, ctx.tries, ctx.scope, ctx.fors);
  }

  /** The end of a loop round: back at the loop head with one unit of fuel spent, or out of fuel. */
  lemma OutOfFuel(p: Nodes, ls: Labels, ctx: Context, s: M.State, end: nat, k: nat, t: M.State)
    requires M.Run(Code(p, ls), k, s) == M.Running(t)
    ensures Lands(p, ls, ctx, s, end, 0, Effect(Timeout, t.store), k, t)
  {}

  lemma {:induction false} WhileSim(p: Nodes, ls: Labels, ctx: Context, fuel: nat, c: Expr, body: Stmt, b: nat, n: nat, s: M.State) returns (k: nat, t: M.State)
    requires LabelsOf(p, ls) && At(p, b, GenStmt(While(c, body), b, n, ctx).code) && s.pc == b
    requires Fits(p, ls, ctx, s) && Allowed(While(c, body), ctx)
    ensures Lands(p, ls, ctx, s, b + |GenStmt(While(c, body), b, n, ctx).code|, fuel, Exec(Actual, fuel, While(c, body), s.store), k, t)
    decreases fuel, While(c, body), 0
  {
    hide GenStmt, GenExpr, TestBranch, At, Eval, Exec, Again, Lands, Fits, Compilable, M.Run, M.Work;
    AllowedParts(While(c, body), ctx);
    ExecWhile(fuel, c, body, s.store);
    var g := GenExpr(c, b + 1, n + 2, None);
    var mid := TestBranch(c, g.res, b + 1 + |g.code|, n + 1);
    var m := b + 1 + |g.code| + |mid|;
    var ctx' := ctx.InLoop(n + 1, n);
    var h := GenStmt(body, m, g.next, ctx');
    var u := m + |h.code|;
    WhileUnfold(c, body, b, n, ctx);
    WhileShape(p, b, n, g, mid, h);
    var t0 := Pass(p, ls, b, s);
    var k1, t1 := ConditionCode(p, ls, c, b + 1, n + 2, n + 1, u + 1, t0);
    M.RunAdd(Code(p, ls), 1, k1, s);
    k, t := 1 + k1, t1;
    if Eval(c, s.store).Err? {
      ExprThrows(p, ls, ctx, s, u + 2, fuel, Eval(c, s.store).t, s.store, k, t);
    } else if Truth(Eval(c, s.store).v) {
      FitsAfter(p, ls, ctx, s, t);
      LoopFits(p, ls, ctx, t, n + 1, n, u + 1, b);
      var eff := Exec(Actual, fuel, body, s.store);
      var k2, t2 := StmtCode(p, ls, ctx', fuel, body, m, g.next, t);
      LandsAfter(p, ls, ctx', k, s, t, u, fuel, fuel, eff, k2, t2);
      M.RunAdd(Code(p, ls), k, k2, s);
      k, t := GotoEnds(p, ls, ctx', s, u, n, b, fuel, eff, k + k2, t2);
      WorkGrows(p, ls, s, k1 + 1, k);
      k, t := WhileAgain(p, ls, ctx, fuel, c, body, b, n, s, u + 1, eff, k, t);
    } else {
      NormalLands(p, ls, ctx, s, u + 1, fuel, k, t);
      k, t := LabelEnds(p, ls, ctx, s, u + 1, fuel, Effect(Normal, s.store), k, t);
    }
  }

  /** After the body of a while loop: eff lands at the loop head b when the loop goes on. */
  lemma {:induction false} WhileAgain(p: Nodes, ls: Labels, ctx: Context, fuel: nat, c: Expr, body: Stmt, b: nat, n: nat, s: M.State, q: nat, eff: Effect, k0: nat, s0: M.State)
    returns (k: nat, t: M.State)
    requires LabelsOf(p, ls) && At(p, b, GenStmt(While(c, body), b, n, ctx).code)
    requires q < |p| && p[q] == NLabel(n + 1) && b < |p| && p[b] == NLabel(n) && b + |GenStmt(While(c, body), b, n, ctx).code| == q + 1
    requires Fits(p, ls, ctx, s) && Allowed(While(c, body), ctx)
    requires Lands(p, ls, ctx.InLoop(n + 1, n), s, b, fuel, eff, k0, s0)
    requires M.Run(Code(p, ls), k0, s).Running? ==> M.Work(Code(p, ls), k0, s) > 0
    ensures Lands(p, ls, ctx, s, q + 1, fuel, Again(Actual, fuel, While(c, body), eff), k, t)
    decreases fuel, body, 1
  {
    hide GenStmt, At, Exec, Fits, Lands, Compilable, M.Run, M.Work;
    AllowedParts(While(c, body), ctx);
    k, t := k0, s0;
    var ctx' := ctx.InLoop(n + 1, n);
    if eff.exit.Broke? {
      t := BreakOut(p, ls, ctx, ctx', s, b, fuel, eff, k, t, q);
      k := k + 1;
    } else if !eff.exit.Normal? && !eff.exit.Continued? {
      Escape(p, ls, ctx, ctx', s, b, q + 1, fuel, eff, k, t);
    } else {
      if eff.exit.Continued? {
        ContinueTo(p, ls, ctx, ctx', s, b, fuel, eff, k, t);
      } else {
        LandsNormally(p, ls, ctx', s, b, fuel, eff, k, t);
      }
      if fuel == 0 {
        OutOfFuel(p, ls, ctx, s, q + 1, k, t);
      } else {
        FitsAfter(p, ls, ctx, s, t);
        var k3, t3 := WhileSim(p, ls, ctx, fuel - 1, c, body, b, n, t);
        LandsAfter(p, ls, ctx, k, s, t, q + 1, fuel, fuel - 1, Exec(Actual, fuel - 1, While(c, body), t.store), k3, t3);
        k, t := k + k3, t3;
      }
    }
  }

  /** Work done in the first j rounds is not lost in the first k. */
  lemma {:induction false} WorkGrows(p: Nodes, ls: Labels, s: M.State, j: nat, k: nat)
    requires j <= k && M.Run(Code(p, ls), j, s).Running?
    ensures M.Work(Code(p, ls), j, s) <= M.Work(Code(p, ls), k, s)
  {
    M.RunAdd(Code(p, ls), j, k - j, s);
  }

  lemma {:induction false} DoSim(p: Nodes, ls: Labels, ctx: Context, fuel: nat, body: Stmt, c: Expr, b: nat, n: nat, s: M.State) returns (k: nat, t: M.State)
    requires LabelsOf(p, ls) && At(p, b, GenStmt(DoWhile(body, c), b, n, ctx).code) && s.pc == b
    requires Fits(p, ls, ctx, s) && Allowed(DoWhile(body, c), ctx)
    ensures Lands(p, ls, ctx, s, b + |GenStmt(DoWhile(body, c), b, n, ctx).code|, fuel, Exec(Actual, fuel, DoWhile(body, c), s.store), k, t)
    decreases fuel, DoWhile(body, c), 0
  {
    hide GenStmt, GenExpr, TestCode, TestOpd, At, Eval, Exec, Again, Lands, Fits, Compilable, M.Run, M.Work;
    AllowedParts(DoWhile(body, c), ctx);
    ExecDo(fuel, body, c, s.store);
    var ctx' := ctx.InLoop(n + 1, n);
    var h := GenStmt(body, b + 1, n + 2, ctx');
    var m := b + 1 + |h.code|;
    var g := GenExpr(c, m, h.next, None);
    var tc, o := TestCode(c, g.res), TestOpd(c, g.res, m + |g.code|);
    var u := m + |g.code| + |tc|;
    DoUnfold(body, c, b, n, ctx);
    DoShape(p, b, n, h, g, tc, o);
    LoopFits(p, ls, ctx, s, n + 1, n, u + 1, b);
    var t0 := Pass(p, ls, b, s);
    FitsAfter(p, ls, ctx', s, t0);
    var eff := Exec(Actual, fuel, body, s.store);
    k, t := StmtCode(p, ls, ctx', fuel, body, b + 1, n + 2, t0);
    LandsAfter(p, ls, ctx', 1, s, t0, m, fuel, fuel, eff, k, t);
    k := 1 + k;
    if !eff.exit.Normal? {
      MoveEnd(p, ls, ctx', s, m, b, fuel, eff, k, t);
      k, t := DoAgain(p, ls, ctx, fuel, body, c, b, n, s, u + 1, eff, k, t);
    } else {
      LandsNormally(p, ls, ctx', s, m, fuel, eff, k, t);
      var k1, t1 := DoTest(p, ls, c, m, h.next, n, b, t);
      M.RunAdd(Code(p, ls), k, k1, s);
      k, t := k + k1, t1;
      if Eval(c, eff.store).Err? {
        ExprThrows(p, ls, ctx, s, u + 2, fuel, Eval(c, eff.store).t, eff.store, k, t);
      } else if Truth(Eval(c, eff.store).v) {
        NormalLands(p, ls, ctx', s, b, fuel, k, t);
        k, t := DoAgain(p, ls, ctx, fuel, body, c, b, n, s, u + 1, eff, k, t);
      } else {
        NormalLands(p, ls, ctx, s, u + 1, fuel, k, t);
        k, t := LabelEnds(p, ls, ctx, s, u + 1, fuel, eff, k, t);
      }
    }
  }

  /** After the body and the condition of a do loop: eff lands at the loop head b when the loop goes on. */
  lemma {:induction false} DoAgain(p: Nodes, ls: Labels, ctx: Context, fuel: nat, body: Stmt, c: Expr, b: nat, n: nat, s: M.State, q: nat, eff: Effect, k0: nat, s0: M.State)
    returns (k: nat, t: M.State)
    requires LabelsOf(p, ls) && At(p, b, GenStmt(DoWhile(body, c), b, n, ctx).code)
    requires q < |p| && p[q] == NLabel(n + 1) && b < |p| && p[b] == NLabel(n) && b + |GenStmt(DoWhile(body, c), b, n, ctx).code| == q + 1
    requires Fits(p, ls, ctx, s) && Allowed(DoWhile(body, c), ctx)
    requires Lands(p, ls, ctx.InLoop(n + 1, n), s, b, fuel, eff, k0, s0)
    requires eff.exit.Normal? ==> M.Work(Code(p, ls), k0, s) > 0
    ensures Lands(p, ls, ctx, s, q + 1, fuel, Again(Actual, fuel, DoWhile(body, c), eff), k, t)
    decreases fuel, body, 1
  {
    hide GenStmt, At, Exec, Fits, Lands, Compilable, M.Run, M.Work;
    AllowedParts(DoWhile(body, c), ctx);
    k, t := k0, s0;
    var ctx' := ctx.InLoop(n + 1, n);
    if eff.exit.Broke? {
      t := BreakOut(p, ls, ctx, ctx', s, b, fuel, eff, k, t, q);
      k := k + 1;
    } else if !eff.exit.Normal? && !eff.exit.Continued? {
      Escape(p, ls, ctx, ctx', s, b, q + 1, fuel, eff, k, t);
    } else {
      if eff.exit.Continued? {
        ContinueTo(p, ls, ctx, ctx', s, b, fuel, eff, k, t);
      } else {
        LandsNormally(p, ls, ctx', s, b, fuel, eff, k, t);
      }
      if fuel == 0 {
        OutOfFuel(p, ls, ctx, s, q + 1, k, t);
      } else {
        FitsAfter(p, ls, ctx, s, t);
        var k3, t3 := DoSim(p, ls, ctx, fuel - 1, body, c, b, n, t);
        LandsAfter(p, ls, ctx, k, s, t, q + 1, fuel, fuel - 1, Exec(Actual, fuel - 1, DoWhile(body, c), t.store), k3, t3);
        k, t := k + k3, t3;
      }
    }
  }

  /** The condition at the end of a do loop: back to the label n at q when it holds. */
  lemma DoTest(p: Nodes, ls: Labels, c: Expr, b: nat, n0: nat, n: nat, q: nat, s: M.State) returns (k: nat, t: M.State)
    requires LabelsOf(p, ls) && q < |p| && p[q] == NLabel(n) && s.pc == b
    requires var l := GenExpr(c, b, n0, None);
             var m := b + |l.code|;
             var tc := TestCode(c, l.res);
             At(p, b, l.code) && At(p, m, tc) && m + |tc| < |p| && p[m + |tc|] == NBT(TestOpd(c, l.res, m), n)
    ensures var l := GenExpr(c, b, n0, None);
            var r := Eval(c, s.store);
            && SameStacks(s, t) && t.store == s.store
            && (r.Err? ==> M.Run(Code(p, ls), k, s) == M.Raise(t, r.t))
            && (r.Ok? ==>
                && M.Run(Code(p, ls), k, s) == M.Running(t) && M.Work(Code(p, ls), k, s) > 0
                && t.pc == if Truth(r.v) then q else b + |l.code| + |TestCode(c, l.res)| + 1)
  {
    hide GenExpr, Eval, AssignExpr, TestCode, TestOpd, At, M.Step, M.Read, M.Raise;
    var l := GenExpr(c, b, n0, None);
    var m := b + |l.code|;
    var tc := TestCode(c, l.res);
    k, t := ExprCode(p, ls, c, b, n0, None, s);
    if Eval(c, s.store).Ok? {
      var k2, t2 := TestSim(p, ls, c, s.store, l.res, m, t, Eval(c, s.store).v);
      M.RunAdd(Code(p, ls), k, k2, s);
      Step1(p, ls, k + k2, s);
      var w := M.Read(t2, Resolve(p, TestOpd(c, l.res, m))).value;
      BranchStep(p, ls, m + |tc|, TestOpd(c, l.res, m), n, q, t2, w);
      k, t := k + k2 + 1, t2.(pc := if ToBool(w) then q else m + |tc| + 1);
    }
  }

  /** The test of a for loop, which may be missing. */
  lemma ForTest(p: Nodes, ls: Labels, cond: Option<Expr>, b: nat, n0: nat, n: nat, q: nat, s: M.State) returns (k: nat, t: M.State)
    requires LabelsOf(p, ls) && q < |p| && p[q] == NLabel(n) && s.pc == b && At(p, b, GenForTest(cond, b, n0, n).code)
    ensures var r := if cond.None? then Ok(Int(1)) else Eval(cond.value, s.store);
            && SameStacks(s, t) && t.store == s.store
            && (r.Err? ==> M.Run(Code(p, ls), k, s) == M.Raise(t, r.t))
            && (r.Ok? ==> M.Run(Code(p, ls), k, s) == M.Running(t) && t.pc == if Truth(r.v) then b + |GenForTest(cond, b, n0, n).code| else q)
  {
    hide GenExpr, TestBranch, At, Eval, M.Run, M.Step;
    if cond.None? {
      k, t := NoRounds(p, ls, s);
      OneIsTrue();
    } else {
      var l := GenExpr(cond.value, b, n0, None);
      AtSplit(p, b, l.code, TestBranch(cond.value, l.res, b + |l.code|, n));
      k, t := ConditionCode(p, ls, cond.value, b, n0, n, q, s);
    }
  }

  lemma OneIsTrue()
    ensures Truth(Int(1))
  {}

  lemma NoRounds(p: Nodes, ls: Labels, s: M.State) returns (k: nat, t: M.State)
    ensures M.Run(Code(p, ls), k, s) == M.Running(t) && t == s && k == 0
  {
    k, t := 0, s;
  }

  /** A for loop from its head at position m on; i is the code of its initialisation. */
  lemma {:induction false} ForLoop(p: Nodes, ls: Labels, ctx: Context, fuel: nat, cond: Option<Expr>, incr: Simple, body: Stmt, n: nat, m: nat, ng: nat, g: GenS, h: GenS, j: Gen, s: M.State)
    returns (k: nat, t: M.State)
    requires LabelsOf(p, ls) && Fits(p, ls, ctx, s) && DepthFits(ctx.scope, ctx.tries, ctx.fors) && Compilable(body, true, true, ctx.scope, ctx.tries, ctx.fors)
    requires g == GenForTest(cond, m + 1, ng, n + 1)
    requires h == GenStmt(body, m + 1 + |g.code|, g.next, ctx.InLoop(n + 1, n + 2))
    requires j == GenSimple(incr, m + 1 + |g.code| + |h.code| + 1, h.next)
    requires var u := m + 1 + |g.code|;
             var w := u + |h.code|;
             var z := w + 1 + |j.code|;
             && At(p, m + 1, g.code) && At(p, u, h.code) && At(p, w + 1, j.code) && z + 1 < |p|
             && p[m] == NLabel(n) && p[w] == NLabel(n + 2) && p[z] == NB(n) && p[z + 1] == NLabel(n + 1)
    requires s.pc == m
    ensures Lands(p, ls, ctx, s, m + 1 + |g.code| + |h.code| + 1 + |j.code| + 2, fuel, ExecFor(Actual, fuel, cond, incr, body, s.store), k, t)
    decreases fuel, body, 2
  {
    hide GenStmt, GenSimple, GenForTest, At, Eval, Exec, ExecFor, ExecSimple, Lands, Fits, Compilable, M.Run, M.Work;
    ExecForLoop(fuel, cond, incr, body, s.store);
    var u := m + 1 + |g.code|;
    var w := u + |h.code|;
    var z := w + 1 + |j.code|;
    var ctx' := ctx.InLoop(n + 1, n + 2);
    var r := if cond.None? then Ok(Int(1)) else Eval(cond.value, s.store);
    var t0 := Pass(p, ls, m, s);
    var k1, t1 := ForTest(p, ls, cond, m + 1, ng, n + 1, z + 1, t0);
    M.RunAdd(Code(p, ls), 1, k1, s);
    k, t := 1 + k1, t1;
    if r.Err? {
      ExprThrows(p, ls, ctx, s, z + 2, fuel, r.t, s.store, k, t);
    } else if !Truth(r.v) {
      NormalLands(p, ls, ctx, s, z + 1, fuel, k, t);
      k, t := LabelEnds(p, ls, ctx, s, z + 1, fuel, Effect(Normal, s.store), k, t);
    } else {
      LoopFits(p, ls, ctx, s, n + 1, n + 2, z + 1, w);
      FitsAfter(p, ls, ctx', s, t);
      var eff := Exec(Actual, fuel, body, s.store);
      var k2, t2 := StmtCode(p, ls, ctx', fuel, body, u, g.next, t);
      LandsAfter(p, ls, ctx', k, s, t, w, fuel, fuel, eff, k2, t2);
      k, t := k + k2, t2;
      if eff.exit.Broke? {
        t := BreakOut(p, ls, ctx, ctx', s, w, fuel, eff, k, t, z + 1);
        k := k + 1;
      } else if !eff.exit.Normal? && !eff.exit.Continued? {
        Escape(p, ls, ctx, ctx', s, w, z + 2, fuel, eff, k, t);
      } else {
        if eff.exit.Continued? {
          ContinueTo(p, ls, ctx, ctx', s, w, fuel, eff, k, t);
        } else {
          LandsNormally(p, ls, ctx', s, w, fuel, eff, k, t);
        }
        k, t := ForTail(p, ls, ctx, fuel, cond, incr, body, n, m, ng, g, h, j, s, k, t);
      }
    }
  }

  /** What a round of a for loop does once its body has ended normally or by continue. */
  function NextRound(fuel: nat, cond: Option<Expr>, incr: Simple, body: Stmt, st: Store): Effect {
    var eff := ExecSimple(Actual, incr, st);
    if !eff.exit.Normal? then eff
    else if fuel == 0 then Effect(Timeout, eff.store)
    else ExecFor(Actual, fuel - 1, cond, incr, body, eff.store)
  }

  lemma ExecForLoop(fuel: nat, cond: Option<Expr>, incr: Simple, body: Stmt, st: Store)
    ensures var r := if cond.None? then Ok(Int(1)) else Eval(cond.value, st);
            var e := Exec(Actual, fuel, body, st);
            ExecFor(Actual, fuel, cond, incr, body, st) ==
            if r.Err? then Effect(Threw(r.t), st)
            else if !Truth(r.v) then Effect(Normal, st)
            else if e.exit.Broke? then Effect(Normal, e.store)
            else if !e.exit.Normal? && !e.exit.Continued? then e
            else NextRound(fuel, cond, incr, body, e.store)
  {
    hide Exec, Eval;
  }

  /** The rest of a round of a for loop, from its continue label on. */
  lemma {:induction false} ForTail(p: Nodes, ls: Labels, ctx: Context, fuel: nat, cond: Option<Expr>, incr: Simple, body: Stmt, n: nat, m: nat, ng: nat, g: GenS, h: GenS, j: Gen, s: M.State, k0: nat, s0: M.State)
    returns (k: nat, t: M.State)
    requires LabelsOf(p, ls) && Fits(p, ls, ctx, s) && DepthFits(ctx.scope, ctx.tries, ctx.fors) && Compilable(body, true, true, ctx.scope, ctx.tries, ctx.fors)
    requires g == GenForTest(cond, m + 1, ng, n + 1)
    requires h == GenStmt(body, m + 1 + |g.code|, g.next, ctx.InLoop(n + 1, n + 2))
    requires j == GenSimple(incr, m + 1 + |g.code| + |h.code| + 1, h.next)
    requires var u := m + 1 + |g.code|;
             var w := u + |h.code|;
             var z := w + 1 + |j.code|;
             && At(p, m + 1, g.code) && At(p, u, h.code) && At(p, w + 1, j.code) && z + 1 < |p|
             && p[m] == NLabel(n) && p[w] == NLabel(n + 2) && p[z] == NB(n) && p[z + 1] == NLabel(n + 1)
             && M.Run(Code(p, ls), k0, s) == M.Running(s0) && SameDepth(s, s0) && s0.pc == w
    ensures Lands(p, ls, ctx, s, m + 1 + |g.code| + |h.code| + 1 + |j.code| + 2, fuel, NextRound(fuel, cond, incr, body, s0.store), k, t)
    decreases fuel, body, 1
  {
    hide GenStmt, GenSimple, GenForTest, At, Eval, Exec, ExecFor, ExecSimple, Fits, Compilable, Lands, M.Run, M.Work;
    var w := m + 1 + |g.code| + |h.code|;
    var z := w + 1 + |j.code|;
    var eff := ExecSimple(Actual, incr, s0.store);
    t := Pass(p, ls, w, s0);
    M.RunAdd(Code(p, ls), k0, 1, s);
    k := k0 + 1;
    var k2, t2 := SimpleCode(p, ls, ctx, fuel, incr, w + 1, h.next, t);
    LandsAfter(p, ls, ctx, k, s, t, z, fuel, fuel, eff, k2, t2);
    k, t := k + k2, t2;
    if !eff.exit.Normal? {
      MoveEnd(p, ls, ctx, s, z, z + 2, fuel, eff, k, t);
    } else {
      LandsNormally(p, ls, ctx, s, z, fuel, eff, k, t);
      t := Goto(p, ls, z, n, m, t);
      M.RunAdd(Code(p, ls), k, 1, s);
      k := k + 1;
      FitsAfter(p, ls, ctx, s, t);
      if fuel == 0 {
        OutOfFuel(p, ls, ctx, s, z + 2, k, t);
      } else {
        var k3, t3 := ForLoop(p, ls, ctx, fuel - 1, cond, incr, body, n, m, ng, g, h, j, t);
        LandsAfter(p, ls, ctx, k, s, t, z + 2, fuel, fuel - 1, ExecFor(Actual, fuel - 1, cond, incr, body, t.store), k3, t3);
        k, t := k + k3, t3;
      }
    }
  }

  lemma {:induction false} ForSim(p: Nodes, ls: Labels, ctx: Context, fuel: nat, init: Simple, cond: Option<Expr>, incr: Simple, body: Stmt, b: nat, n: nat, s: M.State)
    returns (k: nat, t: M.State)
    requires LabelsOf(p, ls) && At(p, b, GenStmt(For(init, cond, incr, body), b, n, ctx).code) && s.pc == b
    requires Fits(p, ls, ctx, s) && Allowed(For(init, cond, incr, body), ctx)
    ensures Lands(p, ls, ctx, s, b + |GenStmt(For(init, cond, incr, body), b, n, ctx).code|, fuel, Exec(Actual, fuel, For(init, cond, incr, body), s.store), k, t)
    decreases fuel, For(init, cond, incr, body), 0
  {
    hide GenStmt, GenSimple, GenForTest, At, Eval, ExecSimple, Exec, ExecFor, Fits, Lands, M.Run, M.Work;
    var i := GenSimple(init, b, n + 3);
    var m := b + |i.code|;
    var g := GenForTest(cond, m + 1, i.next, n + 1);
    var h := GenStmt(body, m + 1 + |g.code|, g.next, ctx.InLoop(n + 1, n + 2));
    var j := GenSimple(incr, m + 1 + |g.code| + |h.code| + 1, h.next);
    var end := m + 1 + |g.code| + |h.code| + 1 + |j.code| + 2;
    ForUnfold(init, cond, incr, body, b, n, ctx);
    ForShape(p, b, n, i, g, h, j);
    ExecForStmt(fuel, init, cond, incr, body, s.store);
    k, t := SimpleCode(p, ls, ctx, fuel, init, b, n + 3, s);
    var eff := ExecSimple(Actual, init, s.store);
    if eff.exit.Normal? {
      LandsNormally(p, ls, ctx, s, m, fuel, eff, k, t);
      FitsAfter(p, ls, ctx, s, t);
      var k2, t2 := ForLoop(p, ls, ctx, fuel, cond, incr, body, n, m, i.next, g, h, j, t);
      LandsAfter(p, ls, ctx, k, s, t, end, fuel, fuel, ExecFor(Actual, fuel, cond, incr, body, t.store), k2, t2);
      k, t := k + k2, t2;
    } else {
      MoveEnd(p, ls, ctx, s, m, end, fuel, eff, k, t);
    }
  }

  lemma ExecForStmt(fuel: nat, init: Simple, cond: Option<Expr>, incr: Simple, body: Stmt, st: Store)
    ensures var e := ExecSimple(Actual, init, st);
            Exec(Actual, fuel, For(init, cond, incr, body), st) ==
            if e.exit.Normal? then ExecFor(Actual, fuel, cond, incr, body, e.store) else e
  {
    hide ExecFor;
  }

  lemma {:induction false} CompoundSim(p: Nodes, ls: Labels, ctx: Context, fuel: nat, xs: seq<nat>, body: Stmt, b: nat, n: nat, s: M.State) returns (k: nat, t: M.State)
    requires LabelsOf(p, ls) && At(p, b, GenStmt(Compound(xs, body), b, n, ctx).code) && s.pc == b
    requires Fits(p, ls, ctx, s) && Allowed(Compound(xs, body), ctx)
    ensures Lands(p, ls, ctx, s, b + |GenStmt(Compound(xs, body), b, n, ctx).code|, fuel, Exec(Actual, fuel, Compound(xs, body), s.store), k, t)
    decreases fuel, Compound(xs, body), 0
  {
    hide GenStmt, ClearCode, ClearAll, At, Exec, M.Run, M.Raise, M.Finish, M.Work, M.Step;
    ExecCompound(fuel, xs, body, s.store);
    var ctx' := ctx.(scope := ctx.scope + 1);
    var h := GenStmt(body, b + 1 + |ClearCode(xs)|, n, ctx');
    var u := b + 1 + |ClearCode(xs)| + |h.code|;
    CompoundUnfold(xs, body, b, n, ctx);
    CompoundShape(p, b, ClearCode(xs), h);
    var t0 := EnterScope(p, ls, b, s);
    var k1, t1 := ClearSim(p, ls, xs, b + 1, t0);
    M.RunAdd(Code(p, ls), 1, k1, s);
    var k2, t2 := StmtCode(p, ls, ctx', fuel, body, b + 1 + |ClearCode(xs)|, n, t1);
    M.RunAdd(Code(p, ls), 1 + k1, k2, s);
    k, t := 1 + k1 + k2, t2;
    if Exec(Actual, fuel, body, t1.store).exit.Normal? {
      t := LeaveScope(p, ls, u, t2);
      M.RunAdd(Code(p, ls), k, 1, s);
      k := k + 1;
    } else {
      InnerScope(p, ls, ctx, s, t1, u, u + 1, fuel, Exec(Actual, fuel, body, t1.store), 1 + k1, k2, t2);
    }
  }

  lemma ExecCompound(fuel: nat, xs: seq<nat>, body: Stmt, st: Store)
    ensures Exec(Actual, fuel, Compound(xs, body), st) == Exec(Actual, fuel, body, ClearAll(xs, st))
  {}

  lemma EnterScope(p: Nodes, ls: Labels, b: nat, s: M.State) returns (t: M.State)
    requires b < |p| && p[b] == NPushScope && s.pc == b
    ensures M.Run(Code(p, ls), 1, s) == M.Running(t) && t == s.(pc := b + 1, scopes := s.scopes + 1)
  {
    t := OneRound(p, ls, s);
  }

  lemma LeaveScope(p: Nodes, ls: Labels, u: nat, s: M.State) returns (t: M.State)
    requires u < |p| && p[u] == NPopScope(1, 0, 0) && s.pc == u && s.scopes > 0
    ensures M.Run(Code(p, ls), 1, s) == M.Running(t) && t == s.(pc := u + 1, scopes := s.scopes - 1)
  {
    t := OneRound(p, ls, s);
  }

  /** Leaving a compound statement other than by its end has popped its scope as well. */
  lemma InnerScope(p: Nodes, ls: Labels, ctx: Context, s: M.State, s': M.State, end: nat, end': nat, fuel: nat, eff: Effect, j: nat, k: nat, t: M.State)
    requires M.Run(Code(p, ls), j, s) == M.Running(s') && s'.scopes == s.scopes + 1 && s'.fors == s.fors && s'.tries == s.tries
    requires Lands(p, ls, ctx.(scope := ctx.scope + 1), s', end, fuel, eff, k, t) && !eff.exit.Normal?
    ensures Lands(p, ls, ctx, s, end', fuel, eff, j + k, t)
  {
    hide M.Finish, M.Raise;
    M.RunAdd(Code(p, ls), j, k, s);
  }

  /** One round, when it leads to a running state. */
  lemma OneRound(p: Nodes, ls: Labels, s: M.State) returns (t: M.State)
    requires M.Step(Code(p, ls), s).Running?
    ensures M.Run(Code(p, ls), 1, s) == M.Running(t) && M.Step(Code(p, ls), s) == M.Running(t)
  {
    t := M.Step(Code(p, ls), s).s;
    assert M.Run(Code(p, ls), 1, s) == M.Step(Code(p, ls), s);
  }

  lemma {:induction false} ThrowSim(p: Nodes, ls: Labels, ctx: Context, fuel: nat, e: Expr, b: nat, n: nat, s: M.State) returns (k: nat, t: M.State)
    requires LabelsOf(p, ls) && At(p, b, GenStmt(Stmt.Throw(e), b, n, ctx).code) && s.pc == b
    ensures Lands(p, ls, ctx, s, b + |GenStmt(Stmt.Throw(e), b, n, ctx).code|, fuel, Exec(Actual, fuel, Stmt.Throw(e), s.store), k, t)
  {
    hide GenExpr, At, Eval, Lands, M.Run, M.Step, M.Raise;
    var g := GenExpr(e, b, n, None);
    ThrowUnfold(fuel, e, b, n, ctx, s.store);
    AtLast(p, b, g.code, NThrow(g.res));
    k, t := ExprCode(p, ls, e, b, n, None, s);
    var r := Eval(e, s.store);
    if r.Ok? {
      Step1(p, ls, k, s);
      ThrowStep(p, ls, b + |g.code|, g.res, t, r.v);
      k := k + 1;
    }
    ExprThrows(p, ls, ctx, s, b + |g.code| + 1, fuel, if r.Ok? then User(r.v) else r.t, s.store, k, t);
  }

  lemma ThrowUnfold(fuel: nat, e: Expr, b: nat, n: nat, ctx: Context, st: Store)
    ensures GenStmt(Stmt.Throw(e), b, n, ctx) == BuildThrow(GenExpr(e, b, n, None))
    ensures Exec(Actual, fuel, Stmt.Throw(e), st) == Effect(Threw(if Eval(e, st).Ok? then User(Eval(e, st).v) else Eval(e, st).t), st)
  {
    hide GenExpr, Eval;
  }

  lemma ThrowStep(p: Nodes, ls: Labels, m: nat, a: Opd, s: M.State, v: Value)
    requires m < |p| && p[m] == NThrow(a) && s.pc == m && M.Read(s, Resolve(p, a)) == Some(v)
    ensures M.Step(Code(p, ls), s) == M.Raise(s, User(v))
  {}

  lemma {:induction false} ReturnSim(p: Nodes, ls: Labels, ctx: Context, fuel: nat, e: Option<Expr>, b: nat, n: nat, s: M.State) returns (k: nat, t: M.State)
    requires LabelsOf(p, ls) && At(p, b, GenStmt(Stmt.Return(e), b, n, ctx).code) && s.pc == b
    requires Fits(p, ls, ctx, s)
    ensures Lands(p, ls, ctx, s, b + |GenStmt(Stmt.Return(e), b, n, ctx).code|, fuel, Exec(Actual, fuel, Stmt.Return(e), s.store), k, t)
  {
    hide GenExpr, GenStmt, At, Eval, ReturnPop, M.Run, M.Step, M.Finish, M.Raise;
    var g := GenOption(e, b, n);
    var last := if e.None? then NRet else NRetVal(g.res);
    ReturnUnfold(e, b, n, ctx);
    ReturnShape(p, b, g, ReturnPop(ctx), last);
    var r := if e.None? then Ok(ZERO) else Eval(e.value, s.store);
    if e.None? {
      k, t := NoRounds(p, ls, s);
    } else {
      k, t := ExprCode(p, ls, e.value, b, n, None, s);
    }
    if r.Ok? {
      var k2, t2 := ReturnPopSim(p, ls, ctx, b + |g.code|, t);
      M.RunAdd(Code(p, ls), k, k2, s);
      Step1(p, ls, k + k2, s);
      ReturnStep(p, ls, b + |g.code| + |ReturnPop(ctx)|, if e.None? then None else Some(g.res), t, t2);
      k, t := k + k2 + 1, t2;
    }
  }

  lemma ReturnStep(p: Nodes, ls: Labels, m: nat, res: Option<Opd>, s: M.State, t: M.State)
    requires m < |p| && t.pc == m && p[m] == (if res.None? then NRet else NRetVal(res.value))
    requires res.Some? ==> M.Read(s, Resolve(p, res.value)).Some?
    requires s.slots == t.slots && s.store == t.store
    ensures M.Step(Code(p, ls), t) == M.Finish(t, M.Returned(if res.None? then None else M.Read(s, Resolve(p, res.value))))
  {}

  lemma ReturnPopSim(p: Nodes, ls: Labels, ctx: Context, b: nat, s: M.State) returns (k: nat, t: M.State)
    requires At(p, b, ReturnPop(ctx)) && s.pc == b && Fits(p, ls, ctx, s)
    ensures M.Run(Code(p, ls), k, s) == M.Running(t) && t.pc == b + |ReturnPop(ctx)| && t.store == s.store && t.slots == s.slots
    ensures t.scopes == s.scopes - ctx.scope && t.tries == s.tries[ctx.tries..] && t.fors == s.fors[ctx.fors..]
  {
    if ctx.scope > 0 || ctx.tries > 0 || ctx.fors > 0 {
      k := 1;
      t := OneRound(p, ls, s);
    } else {
      k, t := 0, s;
    }
  }

  /** try: the body runs with one more try record, an exception reaches the handler with the
      depths the try statement was entered with. */
  lemma {:induction false} TrySim(p: Nodes, ls: Labels, ctx: Context, fuel: nat, body: Stmt, x: nat, handler: Stmt, b: nat, n: nat, s: M.State) returns (k: nat, t: M.State)
    requires LabelsOf(p, ls) && At(p, b, GenStmt(TryCatch(body, x, handler), b, n, ctx).code) && s.pc == b
    requires Fits(p, ls, ctx, s) && Allowed(TryCatch(body, x, handler), ctx)
    ensures Lands(p, ls, ctx, s, b + |GenStmt(TryCatch(body, x, handler), b, n, ctx).code|, fuel, Exec(Actual, fuel, TryCatch(body, x, handler), s.store), k, t)
    decreases fuel, TryCatch(body, x, handler), 0
  {
    hide GenStmt, At, Exec, Fits, Compilable, M.Run, M.Raise, M.Finish, M.Work, M.Step;
    AllowedParts(TryCatch(body, x, handler), ctx);
    ExecTry(fuel, body, x, handler, s.store);
    var ctx' := ctx.(tries := ctx.tries + 1);
    var h := GenStmt(body, b + 1, n + 2, ctx');
    var u := b + 1 + |h.code|;
    var h2 := GenStmt(handler, u + 3, h.next, ctx);
    var w := u + 3 + |h2.code|;
    TryUnfold(body, x, handler, b, n, ctx);
    TryShape(p, b, n, x, h, h2);
    var t0 := EnterTry(p, ls, b, n, u + 1, w, s);
    FitsInTry(p, ls, ctx, s, t0);
    var eff := Exec(Actual, fuel, body, s.store);
    k, t := StmtCode(p, ls, ctx', fuel, body, b + 1, n + 2, t0);
    M.RunAdd(Code(p, ls), 1, k, s);
    k := 1 + k;
    if eff.exit.Normal? {
      t := LeaveTry(p, ls, u, w, s, t);
      M.RunAdd(Code(p, ls), k, 1, s);
      NormalLands(p, ls, ctx, s, w, fuel, k + 1, t);
      k, t := LabelEnds(p, ls, ctx, s, w, fuel, eff, k + 1, t);
    } else if eff.exit.Threw? {
      t := CatchException(p, ls, u + 1, w, x, s, t, eff.exit.t, k);
      k := k + 2;
      k, t := HandlerSim(p, ls, ctx, fuel, body, handler, u + 3, h.next, w, s, k, t);
    } else {
      PopTry(p, ls, ctx, s, t0, u, w + 1, fuel, eff, k, t);
    }
  }

  lemma FitsInTry(p: Nodes, ls: Labels, ctx: Context, s: M.State, t: M.State)
    requires Fits(p, ls, ctx, s) && t.scopes == s.scopes && t.fors == s.fors && |t.tries| == |s.tries| + 1
    ensures Fits(p, ls, ctx.(tries := ctx.tries + 1), t)
  {}

  lemma {:induction false} HandlerSim(p: Nodes, ls: Labels, ctx: Context, fuel: nat, body: Stmt, handler: Stmt, b: nat, n: nat, w: nat, s: M.State, k0: nat, s0: M.State)
    returns (k: nat, t: M.State)
    requires LabelsOf(p, ls) && At(p, b, GenStmt(handler, b, n, ctx).code) && w == b + |GenStmt(handler, b, n, ctx).code| < |p| && p[w].NLabel?
    requires M.Run(Code(p, ls), k0, s) == M.Running(s0) && s0.pc == b && SameDepth(s, s0)
    requires Fits(p, ls, ctx, s) && Allowed(handler, ctx)
    ensures Lands(p, ls, ctx, s, w + 1, fuel, Exec(Actual, fuel, handler, s0.store), k, t)
    decreases fuel, handler, 2
  {
    hide GenStmt, At, Exec, Fits, Compilable, Lands, M.Run, M.Work;
    FitsAfter(p, ls, ctx, s, s0);
    var eff := Exec(Actual, fuel, handler, s0.store);
    var k2, t2 := StmtCode(p, ls, ctx, fuel, handler, b, n, s0);
    LandsAfter(p, ls, ctx, k0, s, s0, w, fuel, fuel, eff, k2, t2);
    k, t := LabelEnds(p, ls, ctx, s, w, fuel, eff, k0 + k2, t2);
  }

  lemma EnterTry(p: Nodes, ls: Labels, b: nat, n: nat, qc: nat, qe: nat, s: M.State) returns (t: M.State)
    requires LabelsOf(p, ls) && b < |p| && p[b] == NTry(n, n + 1) && s.pc == b
    requires qc < |p| && p[qc] == NLabel(n) && qe < |p| && p[qe] == NLabel(n + 1)
    ensures M.Run(Code(p, ls), 1, s) == M.Running(t) && t.pc == b + 1 && t.store == s.store && t.scopes == s.scopes && t.fors == s.fors
    ensures t.tries == [M.TryRecord(qc, qe, s.scopes, |s.fors|)] + s.tries
  {
    t := OneRound(p, ls, s);
  }

  lemma LeaveTry(p: Nodes, ls: Labels, u: nat, w: nat, s: M.State, t: M.State) returns (t': M.State)
    requires u < |p| && p[u] == NEnd && t.pc == u
    requires |t.tries| == |s.tries| + 1 && t.tries[0].endAddr == w && t.tries[1..] == s.tries
    ensures M.Run(Code(p, ls), 1, t) == M.Running(t') && t'.pc == w && t'.store == t.store && t'.scopes == t.scopes && t'.fors == t.fors && t'.tries == s.tries
  {
    t' := OneRound(p, ls, t);
  }

  /** The exception reaches the handler, and CATCH stores it. */
  lemma CatchException(p: Nodes, ls: Labels, qc: nat, w: nat, x: nat, s: M.State, t: M.State, e: Thrown, k: nat) returns (t': M.State)
    requires M.Run(Code(p, ls), k, s) == M.Raise(t, e) && t.tries == [M.TryRecord(qc, w, s.scopes, |s.fors|)] + s.tries && Suffix(s.fors, t.fors)
    requires qc + 1 < |p| && p[qc].NLabel? && p[qc + 1] == NCatch(x)
    ensures M.Run(Code(p, ls), k + 2, s) == M.Running(t') && t'.pc == qc + 2 && SameDepth(s, t')
    ensures t'.store == Store(t.store.vars, t.store.caught[x := e])
    ensures M.Work(Code(p, ls), k, s) <= M.Work(Code(p, ls), k + 2, s)
  {
    var t1 := M.Raise(t, e).s;
    assert t1.tries == s.tries;
    assert M.Truncate(t.fors, |s.fors|) == s.fors;
    var t2 := Pass(p, ls, qc, t1);
    M.RunAdd(Code(p, ls), k, 1, s);
    t' := OneRound(p, ls, t2);
    M.RunAdd(Code(p, ls), k + 1, 1, s);
  }

  /** Leaving a try body by break, continue or return has popped its record as well. */
  lemma PopTry(p: Nodes, ls: Labels, ctx: Context, s: M.State, t0: M.State, end: nat, end': nat, fuel: nat, eff: Effect, k: nat, t: M.State)
    requires Fits(p, ls, ctx, s) && t0.scopes == s.scopes && t0.fors == s.fors && |t0.tries| == |s.tries| + 1 && t0.tries[1..] == s.tries
    requires k > 0 && M.Run(Code(p, ls), 1, s) == M.Running(t0) && Lands(p, ls, ctx.(tries := ctx.tries + 1), t0, end, fuel, eff, k - 1, t)
    requires !eff.exit.Normal? && !eff.exit.Threw?
    ensures Lands(p, ls, ctx, s, end', fuel, eff, k, t)
  {
    hide M.Finish, M.Run, M.Work, M.Raise;
    M.RunAdd(Code(p, ls), 1, k - 1, s);
    forall i | 0 <= i <= |s.tries| ensures t0.tries[i + 1..] == s.tries[i..] {
      assert t0.tries[i + 1..] == t0.tries[1..][i..];
    }
  }

  lemma {:induction false} DoSimple(p: Nodes, ls: Labels, ctx: Context, fuel: nat, sm: Simple, b: nat, n: nat, s: M.State) returns (k: nat, t: M.State)
    requires LabelsOf(p, ls) && At(p, b, GenStmt(Do(sm), b, n, ctx).code) && s.pc == b
    ensures Lands(p, ls, ctx, s, b + |GenStmt(Do(sm), b, n, ctx).code|, fuel, Exec(Actual, fuel, Do(sm), s.store), k, t)
  {
    hide GenSimple, At, Lands, ExecSimple;
    k, t := SimpleCode(p, ls, ctx, fuel, sm, b, n, s);
  }

  lemma {:induction false} BreakSim(p: Nodes, ls: Labels, ctx: Context, fuel: nat, stm: Stmt, b: nat, n: nat, s: M.State) returns (k: nat, t: M.State)
    requires stm.Break? || stm.Continue?
    requires LabelsOf(p, ls) && At(p, b, GenStmt(stm, b, n, ctx).code) && s.pc == b
    requires Fits(p, ls, ctx, s) && Allowed(stm, ctx)
    ensures Lands(p, ls, ctx, s, b + |GenStmt(stm, b, n, ctx).code|, fuel, Exec(Actual, fuel, stm, s.store), k, t)
  {
    hide LeaveCode, At, M.Run, M.Work;
    t := LeaveSim(p, ls, ctx, if stm.Break? then ctx.brk else ctx.cont, stm.Break?, b, s);
    k := 2;
  }

  // ----- foreach -----

  predicate In32(n: int) {
    -0x8000_0000 <= n < 0x8000_0000
  }

  predicate ForOk(r: M.ForRecord) {
    In32(r.cur) && In32(r.end) && (r.dir == 1 || r.dir == -1)
  }

  /** The values a foreach record has still to deliver. */
  function Remaining(r: M.ForRecord): seq<Value> {
    Countdown(r.kind, r.cur, r.dir, Rounds(r.cur, r.end, r.dir))
  }

  lemma Wrap32In(n: int)
    ensures In32(Wrap32(n)) && (In32(n) ==> Wrap32(n) == n)
  {}

  lemma RoundsStep(cur: int, end: int, dir: int)
    requires In32(cur) && In32(end) && (dir == 1 || dir == -1)
    ensures Rounds(cur, end, dir) == 0 <==> cur == end
    ensures cur != end ==> Rounds(Wrap32(cur + dir), end, dir) == Rounds(cur, end, dir) - 1
  {
    hide Wrap32;
    Wrap32In(cur + dir);
    Wrap32Next(cur, dir);
    var d, d' := if dir == 1 then end - cur else cur - end, if dir == 1 then end - Wrap32(cur + 1) else Wrap32(cur - 1) - end;
    Modulo(d);
    Modulo(d');
  }

  /** The remainder of a difference of two 32-bit integers. */
  lemma Modulo(d: int)
    requires -0x1_0000_0000 < d < 0x1_0000_0000
    ensures d % 0x1_0000_0000 == if d >= 0 then d else d + 0x1_0000_0000
  {}

  lemma Wrap32Next(cur: int, dir: int)
    requires In32(cur) && (dir == 1 || dir == -1)
    ensures Wrap32(cur + dir) == if cur + dir == 0x8000_0000 then -0x8000_0000 else if cur + dir == -0x8000_0001 then 0x7FFF_FFFF else cur + dir
  {}

  /** next on a foreach record delivers the first remaining value, or leaves when none remains. */
  lemma AdvanceDelivers(s: M.State, r: M.ForRecord, fs: seq<M.ForRecord>)
    requires s.fors == [r] + fs && ForOk(r)
    ensures var vs := Remaining(r);
            if vs == [] then M.Advance(s) == M.Running(s.(pc := r.endAddr, fors := fs))
            else
              var r' := r.(cur := Wrap32(r.cur + r.dir));
              && ForOk(r') && Remaining(r') == vs[1..]
              && M.Advance(s) == M.Running(s.(pc := r.bodyAddr, store := s.store.Set(r.x, vs[0]), fors := [r'] + fs))
  {
    hide Rounds, Wrap32, Wrap8, In32;
    RoundsStep(r.cur, r.end, r.dir);
    Wrap32In(r.cur + r.dir);
    assert s.fors[0] == r && s.fors[1..] == fs;
  }

  /** The statements of a foreach loop at hand: the code between FOREACH and its end label. */
  ghost predicate EachShape(p: Nodes, ls: Labels, ctx: Context, body: Stmt, n: nat, n0: nat, m: nat) {
    var h := GenStmt(body, m, n0, EachContext(ctx, n));
    var u := m + |h.code|;
    && LabelsOf(p, ls) && At(p, m, h.code) && u + 3 < |p|
    && p[u] == NLabel(n) && p[u + 1] == NNext && p[u + 2] == NLabel(n + 2) && p[u + 3] == NLabel(n + 1)
  }

  function EachContext(ctx: Context, n: nat): Context {
    ctx.InLoop(n + 2, n).(fors := ctx.fors + 1)
  }

  /** The record that next is about to advance in state s1, reached from s: s1 is s with r on top. */
  ghost predicate InEach(s: M.State, s1: M.State, r: M.ForRecord) {
    s1.fors == [r] + s.fors && s1.scopes == s.scopes && s1.tries == s.tries
  }

  /** The rest of a foreach loop, from where next is about to run on record r. */
  lemma {:induction false} EachSim(p: Nodes, ls: Labels, ctx: Context, fuel: nat, vs: seq<Value>, body: Stmt, n: nat, n0: nat, m: nat, r: M.ForRecord, s: M.State, j: nat, s1: M.State)
    returns (k: nat, t: M.State)
    requires EachShape(p, ls, ctx, body, n, n0, m)
    requires InEach(s, s1, r) && ForOk(r) && Remaining(r) == vs && M.Run(Code(p, ls), j, s) == M.Advance(s1)
    requires r.bodyAddr == m && r.endAddr == m + |GenStmt(body, m, n0, EachContext(ctx, n)).code| + 3
    requires Fits(p, ls, ctx, s) && DepthFits(ctx.scope, ctx.tries, ctx.fors) && Compilable(body, true, true, ctx.scope, ctx.tries, ctx.fors + 1)
    ensures Lands(p, ls, ctx, s, m + |GenStmt(body, m, n0, EachContext(ctx, n)).code| + 4, fuel, ExecEach(Actual, fuel, r.x, vs, body, s1.store), k, t)
    decreases fuel, body, 3 + |vs|
  {
    hide GenStmt, At, Exec, ExecEach, Fits, Compilable, Lands, Remaining, M.Advance, M.Run, M.Work;
    var ctx' := EachContext(ctx, n);
    var u := m + |GenStmt(body, m, n0, ctx').code|;
    AdvanceDelivers(s1, r, s.fors);
    UnfoldEach(fuel, r.x, vs, body, s1.store);
    if vs == [] {
      k, t := j, s1.(pc := r.endAddr, fors := s.fors);
      NormalLands(p, ls, ctx, s, u + 3, fuel, k, t);
      k, t := LabelEnds(p, ls, ctx, s, u + 3, fuel, Effect(Normal, s1.store), k, t);
    } else {
      var r' := r.(cur := Wrap32(r.cur + r.dir));
      var s2 := s1.(pc := m, store := s1.store.Set(r.x, vs[0]), fors := [r'] + s.fors);
      EachFits(p, ls, ctx, n, s, s2, r', u);
      var eff := Exec(Actual, fuel, body, s2.store);
      var k2, t2 := StmtCode(p, ls, ctx', fuel, body, m, n0, s2);
      M.RunAdd(Code(p, ls), j, k2, s);
      if eff.exit.Broke? {
        k, t := EachBreak(p, ls, ctx, n, s, s2, r', u, fuel, eff, k2, t2, j);
      } else if !eff.exit.Normal? && !eff.exit.Continued? {
        EachEscape(p, ls, ctx, n, s, s2, r', u, fuel, eff, k2, t2, j);
        k, t := j + k2, t2;
      } else {
        var t3 := EachNext(p, ls, ctx, n, s2, u, fuel, eff, k2, t2);
        M.RunAdd(Code(p, ls), j, k2 + 2, s);
        k, t := EachSim(p, ls, ctx, fuel, vs[1..], body, n, n0, m, r', s, j + k2 + 2, t3);
      }
    }
  }

  lemma UnfoldEach(fuel: nat, x: nat, vs: seq<Value>, body: Stmt, st: Store)
    ensures vs == [] ==> ExecEach(Actual, fuel, x, vs, body, st) == Effect(Normal, st)
    ensures vs != [] ==>
              var e := Exec(Actual, fuel, body, st.Set(x, vs[0]));
              ExecEach(Actual, fuel, x, vs, body, st) ==
              if e.exit.Broke? then Effect(Normal, e.store)
              else if !e.exit.Normal? && !e.exit.Continued? then e
              else ExecEach(Actual, fuel, x, vs[1..], body, e.store)
  {
    hide Exec;
  }

  lemma EachFits(p: Nodes, ls: Labels, ctx: Context, n: nat, s: M.State, s2: M.State, r: M.ForRecord, u: nat)
    requires LabelsOf(p, ls) && Fits(p, ls, ctx, s) && DepthFits(ctx.scope, ctx.tries, ctx.fors) && InEach(s, s2, r)
    requires u + 3 < |p| && p[u] == NLabel(n) && p[u + 2] == NLabel(n + 2)
    ensures Fits(p, ls, EachContext(ctx, n), s2)
  {
    LoopFits(p, ls, ctx, s, n + 2, n, u + 2, u);
  }

  /** After the body of a foreach: past the continue label to NEXT. */
  lemma EachNext(p: Nodes, ls: Labels, ctx: Context, n: nat, s2: M.State, u: nat, fuel: nat, eff: Effect, k2: nat, t2: M.State) returns (t: M.State)
    requires LabelsOf(p, ls) && DepthFits(ctx.scope, ctx.tries, ctx.fors) && u + 1 < |p| && p[u] == NLabel(n) && p[u + 1] == NNext
    requires Lands(p, ls, EachContext(ctx, n), s2, u, fuel, eff, k2, t2) && (eff.exit.Normal? || eff.exit.Continued?)
    ensures M.Run(Code(p, ls), k2 + 2, s2) == M.Advance(t) && SameDepth(s2, t) && t.store == eff.store
  {
    hide Lands, M.Advance, M.Run, M.Step, M.Work, Levels.Pack, Fits;
    var ctx' := EachContext(ctx, n);
    if eff.exit.Continued? {
      ContinueTo(p, ls, ctx, ctx', s2, u, fuel, eff, k2, t2);
    } else {
      LandsNormally(p, ls, ctx', s2, u, fuel, eff, k2, t2);
    }
    t := Pass(p, ls, u, t2);
    M.RunAdd(Code(p, ls), k2, 1, s2);
    Step1(p, ls, k2 + 1, s2);
    NextStep(p, ls, u + 1, t);
  }

  lemma NextStep(p: Nodes, ls: Labels, m: nat, s: M.State)
    requires m < |p| && p[m] == NNext && s.pc == m
    ensures M.Step(Code(p, ls), s) == M.Advance(s)
  {
    hide M.Advance;
  }

  /** break takes the loop record off. */
  lemma BreakLeaves(p: Nodes, ls: Labels, ctx: Context, n: nat, s: M.State, s2: M.State, r: M.ForRecord, u: nat, fuel: nat, eff: Effect, k2: nat, t2: M.State)
    requires LabelsOf(p, ls) && DepthFits(ctx.scope, ctx.tries, ctx.fors) && u + 2 < |p| && p[u + 2] == NLabel(n + 2)
    requires InEach(s, s2, r) && Lands(p, ls, EachContext(ctx, n), s2, u, fuel, eff, k2, t2) && eff.exit.Broke?
    ensures M.Run(Code(p, ls), k2, s2) == M.Running(t2) && t2.pc == u + 2 && SameDepth(s, t2) && t2.store == eff.store
  {
    hide M.Run, M.Work, Code;
    Levels.PackRoundTrip(0, ctx.tries, ctx.scope, ctx.fors);
    assert t2.fors == s2.fors[1..] == s.fors;
  }

  lemma EachBreak(p: Nodes, ls: Labels, ctx: Context, n: nat, s: M.State, s2: M.State, r: M.ForRecord, u: nat, fuel: nat, eff: Effect, k2: nat, t2: M.State, j: nat)
    returns (k: nat, t: M.State)
    requires LabelsOf(p, ls) && DepthFits(ctx.scope, ctx.tries, ctx.fors) && u + 3 < |p| && p[u + 2] == NLabel(n + 2) && p[u + 3] == NLabel(n + 1)
    requires InEach(s, s2, r) && Lands(p, ls, EachContext(ctx, n), s2, u, fuel, eff, k2, t2) && eff.exit.Broke?
    requires M.Run(Code(p, ls), j, s) == M.Running(s2)
    ensures Lands(p, ls, ctx, s, u + 4, fuel, Effect(Normal, eff.store), k, t)
  {
    hide M.Run, M.Work, Lands, InEach, DepthFits;
    BreakLeaves(p, ls, ctx, n, s, s2, r, u, fuel, eff, k2, t2);
    M.RunAdd(Code(p, ls), j, k2, s);
    NormalLands(p, ls, ctx, s, u + 2, fuel, j + k2, t2);
    k, t := LabelEnds(p, ls, ctx, s, u + 2, fuel, Effect(Normal, eff.store), j + k2, t2);
    k, t := LabelEnds(p, ls, ctx, s, u + 3, fuel, Effect(Normal, eff.store), k, t);
  }

  lemma EachEscape(p: Nodes, ls: Labels, ctx: Context, n: nat, s: M.State, s2: M.State, r: M.ForRecord, u: nat, fuel: nat, eff: Effect, k2: nat, t2: M.State, j: nat)
    requires InEach(s, s2, r) && Lands(p, ls, EachContext(ctx, n), s2, u, fuel, eff, k2, t2)
    requires eff.exit.Return? || eff.exit.Threw? || eff.exit.Timeout?
    requires M.Run(Code(p, ls), j, s) == M.Running(s2) && Fits(p, ls, ctx, s)
    ensures Lands(p, ls, ctx, s, u + 4, fuel, eff, j + k2, t2)
  {
    hide M.Run, M.Work, M.Finish, M.Raise;
    M.RunAdd(Code(p, ls), j, k2, s);
    assert s2.fors[ctx.fors + 1..] == s.fors[ctx.fors..];
    if eff.exit.Threw? {
      var d := |t2.fors| - |s2.fors|;
      assert t2.fors[d..] == s2.fors;
      assert t2.fors[d + 1..] == t2.fors[d..][1..] == s.fors;
    }
  }

  lemma {:induction false} ForeachSim(p: Nodes, ls: Labels, ctx: Context, fuel: nat, x: nat, e: Expr, hi: Option<Expr>, body: Stmt, b: nat, n: nat, s: M.State)
    returns (k: nat, t: M.State)
    requires LabelsOf(p, ls) && At(p, b, GenStmt(Foreach(x, e, hi, body), b, n, ctx).code) && s.pc == b
    requires Fits(p, ls, ctx, s) && Allowed(Foreach(x, e, hi, body), ctx)
    ensures Lands(p, ls, ctx, s, b + |GenStmt(Foreach(x, e, hi, body), b, n, ctx).code|, fuel, Exec(Actual, fuel, Foreach(x, e, hi, body), s.store), k, t)
    decreases fuel, Foreach(x, e, hi, body), 0
  {
    hide GenStmt, GenExpr, GenOption, At, LabelsOf, Resolve, Eval, Exec, ExecEach, Fits, Lands, ForValues, Remaining, M.NewRecord, ForOk, Compilable, DepthFits, Allowed, M.Run, M.Work, M.Step, M.Advance, M.Raise;
    AllowedForeach(x, e, hi, body, ctx);
    var g := GenExpr(e, b, n + 3, None);
    var g2 := GenOption(hi, b + |g.code|, g.next);
    var m := b + |g.code| + |g2.code|;
    var h := GenStmt(body, m + 1, g2.next, EachContext(ctx, n));
    var hiOpd := if hi.None? then None else Some(g2.res);
    ForeachUnfold(x, e, hi, body, b, n, ctx);
    ForeachShape(p, b, n, x, g, hiOpd, g2, h);
    ExecForeach(fuel, x, e, hi, body, s.store);
    var r, r2 := Eval(e, s.store), EvalOption(hi, s.store);
    var end := m + 1 + |h.code| + 4;
    k, t := RangeCode(p, ls, e, hi, b, n + 3, s);
    if r.Err? {
      ExprThrows(p, ls, ctx, s, end, fuel, r.t, s.store, k, t);
    } else if r2.Err? {
      ExprThrows(p, ls, ctx, s, end, fuel, r2.t, s.store, k, t);
    } else {
      Step1(p, ls, k, s);
      var v, w := r.v, if hi.None? then None else Some(r2.v);
      ForeachStep(p, ls, m, x, g.res, hiOpd, n, m + 1 + |h.code| + 3, t, v, w);
      if v.Nothing? || (w.Some? && w.value.Nothing?) {
        ExprThrows(p, ls, ctx, s, end, fuel, IllegalForeach, s.store, k + 1, t);
        k := k + 1;
      } else {
        var rec := M.NewRecord(x, v, w, m + 1 + |h.code| + 3, m + 1);
        NewRecordOk(x, v, w, m + 1 + |h.code| + 3, m + 1);
        k, t := EachSim(p, ls, ctx, fuel, ForValues(v, w), body, n, g2.next, m + 1, rec, s, k + 1, t.(fors := [rec] + t.fors));
      }
    }
  }

  /** The operands of a foreach. */
  lemma RangeCode(p: Nodes, ls: Labels, e: Expr, hi: Option<Expr>, b: nat, n: nat, s: M.State) returns (k: nat, t: M.State)
    requires var g := GenExpr(e, b, n, None);
             LabelsOf(p, ls) && At(p, b, g.code) && At(p, b + |g.code|, GenOption(hi, b + |g.code|, g.next).code) && s.pc == b
    ensures var g := GenExpr(e, b, n, None);
            var g2 := GenOption(hi, b + |g.code|, g.next);
            var r, r2 := Eval(e, s.store), EvalOption(hi, s.store);
            && SameStacks(s, t) && t.store == s.store
            && (r.Err? ==> M.Run(Code(p, ls), k, s) == M.Raise(t, r.t))
            && (r.Ok? && r2.Err? ==> M.Run(Code(p, ls), k, s) == M.Raise(t, r2.t))
            && (r.Ok? && r2.Ok? ==>
                && M.Run(Code(p, ls), k, s) == M.Running(t) && t.pc == b + |g.code| + |g2.code|
                && M.Read(t, Resolve(p, g.res)) == Some(r.v) && M.Read(t, Resolve(p, g2.res)) == Some(r2.v))
  {
    hide GenExpr, GenOption, At, LabelsOf, Resolve, Eval, EvalOption, AssignExpr, M.Run, M.Step, M.Read, M.Raise;
    var g := GenExpr(e, b, n, None);
    k, t := ExprCode(p, ls, e, b, n, None, s);
    if Eval(e, s.store).Ok? {
      var k2, t2 := OptionCode(p, ls, hi, b + |g.code|, g.next, t);
      M.RunAdd(Code(p, ls), k, k2, s);
      if EvalOption(hi, s.store).Ok? { ResultReadable(p, e, b, n, t, t2); }
      k, t := k + k2, t2;
    }
  }

  lemma AllowedForeach(x: nat, e: Expr, hi: Option<Expr>, body: Stmt, ctx: Context)
    requires Allowed(Foreach(x, e, hi, body), ctx)
    ensures DepthFits(ctx.scope, ctx.tries, ctx.fors) && Compilable(body, true, true, ctx.scope, ctx.tries, ctx.fors + 1)
  {}

  function EvalOption(e: Option<Expr>, st: Store): Result {
    if e.None? then Ok(ZERO) else Eval(e.value, st)
  }

  lemma ExecForeach(fuel: nat, x: nat, e: Expr, hi: Option<Expr>, body: Stmt, st: Store)
    ensures var r, r2 := Eval(e, st), EvalOption(hi, st);
            Exec(Actual, fuel, Foreach(x, e, hi, body), st) ==
            if r.Err? then Effect(Threw(r.t), st)
            else if r2.Err? then Effect(Threw(r2.t), st)
            else if r.v.Nothing? || r2.v.Nothing? then Effect(Threw(IllegalForeach), st)
            else ExecEach(Actual, fuel, x, ForValues(r.v, if hi.None? then None else Some(r2.v)), body, st)
  {
    hide ExecEach, ForValues;
  }

  lemma OptionCode(p: Nodes, ls: Labels, e: Option<Expr>, b: nat, n: nat, s: M.State) returns (k: nat, t: M.State)
    requires LabelsOf(p, ls) && At(p, b, GenOption(e, b, n).code) && s.pc == b
    ensures Delivers(p, ls, k, s, t, b, b + |GenOption(e, b, n).code|, GenOption(e, b, n).res, (EvalOption(e, s.store), s.store))
  {
    hide GenExpr, At, Eval;
    if e.None? {
      k, t := NoRounds(p, ls, s);
    } else {
      k, t := ExprCode(p, ls, e.value, b, n, None, s);
    }
  }

  lemma NewRecordOk(x: nat, v: Value, hi: Option<Value>, endAddr: nat, bodyAddr: nat)
    requires v.Num? && (hi.Some? ==> hi.value.Num?)
    ensures var r := M.NewRecord(x, v, hi, endAddr, bodyAddr);
            ForOk(r) && Remaining(r) == ForValues(v, hi) && r.x == x && r.endAddr == endAddr && r.bodyAddr == bodyAddr
  {
    hide Wrap32, Wrap8, Rounds, Countdown;
    Wrap32In(v.n);
    Wrap32In(0);
    if hi.Some? {
      Wrap32In(hi.value.n);
      Wrap32In(Wrap32(hi.value.n) + 1);
      Wrap32In(Wrap32(hi.value.n) - 1);
    }
  }

  lemma ForeachStep(p: Nodes, ls: Labels, m: nat, x: nat, a: Opd, hi: Option<Opd>, n: nat, q: nat, s: M.State, v: Value, w: Option<Value>)
    requires LabelsOf(p, ls) && q < |p| && p[q] == NLabel(n + 1) && m < |p| && p[m] == NForeach(x, a, hi, n + 1) && s.pc == m
    requires M.Read(s, Resolve(p, a)) == Some(v) && hi.Some? == w.Some?
    requires w.Some? ==> M.Read(s, Resolve(p, hi.value)) == w
    ensures M.Step(Code(p, ls), s) ==
            if v.Nothing? || (w.Some? && w.value.Nothing?) then M.Raise(s, IllegalForeach)
            else M.Advance(s.(fors := [M.NewRecord(x, v, w, q, m + 1)] + s.fors))
  {
    hide M.Advance, M.Raise, Remaining, ForValues;
  }

  // ----- switch -----

  /** The clauses from the i-th on. */
  function DropCases(cs: Cases, i: nat): Cases
    requires i <= CountCases(cs)
    decreases cs
  {
    if i == 0 then cs
    else
      match cs
      case Case(_, _, _, rest) => DropCases(rest, i - 1)
      case Default(_, rest) => DropCases(rest, i - 1)
  }

  /** Every clause label of the switch is issued somewhere. */
  ghost predicate LabelsIssued(p: Nodes, ls: Labels, labels: seq<Option<nat>>) {
    forall i :: 0 <= i < |labels| && labels[i].Some? ==>
      labels[i].value in ls && ls[labels[i].value] < |p| && p[ls[labels[i].value]] == NLabel(labels[i].value)
  }

  lemma OpdReadable(p: Nodes, o: Opd, b: nat, s: M.State, t: M.State)
    requires (o.ONode? ==> o.n < b) && Keeps(s, t, b) && s.store == t.store && M.Read(s, Resolve(p, o)).Some?
    ensures M.Read(t, Resolve(p, o)) == M.Read(s, Resolve(p, o))
  {}

  lemma TestsUnfold(op: CaseOp, e: Expr, body: Stmt, rest: Cases, v: Opd, b: nat, n: nat)
    ensures var c := GenExpr(e, b, n + 1, None);
            var g := GenTests(rest, v, b + |c.code| + 2, c.next);
            && GenTests(Case(op, e, body, rest), v, b, n) == BuildTest(op, v, b, n, c, g)
            && GenTests(Case(op, e, body, rest), v, b, n).labels == [Some(n)] + g.labels
  {
    hide GenExpr;
  }

  /** The comparisons of a switch: at the label of the matching clause i, or past the comparisons. */
  ghost predicate TestsLand(p: Nodes, ls: Labels, cs: Cases, g: GenT, v: Value, b: nat, s: M.State, k: nat, t: M.State, i: nat)
    requires |g.labels| == CountCases(cs)
  {
    var r := FindCase(Actual, v, cs, s.store);
    && SameDepth(s, t) && t.store == s.store
    && (r.0.Err? ==> M.Run(Code(p, ls), k, s) == M.Raise(t, r.0.t))
    && (r.0.Ok? ==> M.Run(Code(p, ls), k, s) == M.Running(t))
    && (r.0.Ok? && r.1.None? ==> t.pc == b + |g.code|)
    && (r.0.Ok? && r.1.Some? ==>
        i < CountCases(cs) && r.1.value == DropCases(cs, i) && g.labels[i].Some? && g.labels[i].value in ls && t.pc == ls[g.labels[i].value])
  }

  lemma {:induction false} TestsSim(p: Nodes, ls: Labels, cs: Cases, o: Opd, v: Value, b: nat, n: nat, s: M.State) returns (k: nat, t: M.State, i: nat)
    requires LabelsOf(p, ls) && At(p, b, GenTests(cs, o, b, n).code) && s.pc == b && (o.ONode? ==> o.n < b)
    requires LabelsIssued(p, ls, GenTests(cs, o, b, n).labels)
    requires M.Read(s, Resolve(p, o)) == Some(v)
    ensures TestsLand(p, ls, cs, GenTests(cs, o, b, n), v, b, s, k, t, i)
    decreases cs, 0
  {
    hide GenExpr, Eval, ApplyBin, At, M.Step, M.Raise, LabelsIssued;
    match cs
    case NoCases =>
      k, t, i := 0, s, 0;
    case Default(body, rest) =>
      var g := GenTests(rest, o, b, n);
      assert GenTests(cs, o, b, n).labels[1..] == g.labels;
      LabelsTail(p, ls, GenTests(cs, o, b, n).labels);
      k, t, i := TestsSim(p, ls, rest, o, v, b, n, s);
      i := i + 1;
    case Case(op, e, body, rest) =>
      k, t, i := TestSim1(p, ls, op, e, body, rest, o, v, b, n, s);
  }

  lemma LabelsTail(p: Nodes, ls: Labels, labels: seq<Option<nat>>)
    requires |labels| > 0 && LabelsIssued(p, ls, labels)
    ensures LabelsIssued(p, ls, labels[1..])
  {
    forall i | 0 <= i < |labels[1..]| && labels[1..][i].Some?
      ensures labels[1..][i].value in ls && ls[labels[1..][i].value] < |p| && p[ls[labels[1..][i].value]] == NLabel(labels[1..][i].value)
    {
      assert labels[1..][i] == labels[i + 1];
    }
  }

  lemma FindCaseStep(v: Value, op: CaseOp, e: Expr, body: Stmt, rest: Cases, st: Store)
    ensures var cs := Case(op, e, body, rest);
            var r := Eval(e, st);
            FindCase(Actual, v, cs, st) ==
            if r.Err? then (r, None)
            else
              var c := ApplyBin(CaseBinOp(op), v, r.v);
              if c.Err? then (c, None) else if ToBool(c.v) then (c, Some(cs)) else FindCase(Actual, v, rest, st)
  {
    hide Eval, ApplyBin;
  }

  lemma {:induction false} TestSim1(p: Nodes, ls: Labels, op: CaseOp, e: Expr, body: Stmt, rest: Cases, o: Opd, v: Value, b: nat, n: nat, s: M.State)
    returns (k: nat, t: M.State, i: nat)
    requires var cs := Case(op, e, body, rest);
             && LabelsOf(p, ls) && At(p, b, GenTests(cs, o, b, n).code) && s.pc == b && (o.ONode? ==> o.n < b)
             && LabelsIssued(p, ls, GenTests(cs, o, b, n).labels)
             && M.Read(s, Resolve(p, o)) == Some(v)
    ensures var cs := Case(op, e, body, rest); TestsLand(p, ls, cs, GenTests(cs, o, b, n), v, b, s, k, t, i)
    decreases rest, 1
  {
    hide GenExpr, GenTests, At, Eval, ApplyBin, FindCase, CaseBinOp, CaseTest, LabelsOf, M.Run, M.Step, M.Raise, M.Work, M.Read, Resolve;
    var cs := Case(op, e, body, rest);
    var c := GenExpr(e, b, n + 1, None);
    var m := b + |c.code|;
    var g := GenTests(rest, o, m + 2, c.next);
    TestsUnfold(op, e, body, rest, o, b, n);
    TestShape(p, op, o, b, n, c, g);
    FindCaseStep(v, op, e, body, rest, s.store);
    var labels := GenTests(cs, o, b, n).labels;
    assert labels[0] == Some(n);
    i := 0;
    k, t := HeadSim(p, ls, op, e, o, v, b, n, s);
    if Tested(op, e, v, s.store).Ok? && !ToBool(Tested(op, e, v, s.store).v) {
      assert labels[1..] == g.labels;
      LabelsTail(p, ls, labels);
      OpdReadable(p, o, b, s, t);
      var k2, t2, j := TestsSim(p, ls, rest, o, v, m + 2, c.next, t);
      M.RunAdd(Code(p, ls), k, k2, s);
      k, t, i := k + k2, t2, j + 1;
    }
  }

  /** What a case makes of the value v of the switch. */
  function Tested(op: CaseOp, e: Expr, v: Value, st: Store): Result {
    if Eval(e, st).Err? then Eval(e, st) else ApplyBin(CaseBinOp(op), v, Eval(e, st).v)
  }

  /** One case: at its label, past its test, or at an exception. */
  lemma HeadSim(p: Nodes, ls: Labels, op: CaseOp, e: Expr, o: Opd, v: Value, b: nat, n: nat, s: M.State) returns (k: nat, t: M.State)
    requires var c := GenExpr(e, b, n + 1, None);
             var m := b + |c.code|;
             && LabelsOf(p, ls) && At(p, b, c.code) && s.pc == b && m + 1 < |p|
             && p[m] == NBin(CaseBinOp(op), o, c.res, None) && p[m + 1] == NBT(ONode(m), n)
    requires n in ls && ls[n] < |p| && p[ls[n]] == NLabel(n) && (o.ONode? ==> o.n < b) && M.Read(s, Resolve(p, o)) == Some(v)
    ensures var x := Tested(op, e, v, s.store);
            && SameDepth(s, t) && t.store == s.store
            && (x.Err? ==> M.Run(Code(p, ls), k, s) == M.Raise(t, x.t))
            && (x.Ok? ==> M.Run(Code(p, ls), k, s) == M.Running(t) && Keeps(s, t, b)
                          && t.pc == if ToBool(x.v) then ls[n] else b + |GenExpr(e, b, n + 1, None).code| + 2)
  {
    hide GenExpr, At, Eval, AssignExpr, ApplyBin, M.Run, M.Step, M.Raise, M.Work;
    var c := GenExpr(e, b, n + 1, None);
    var m := b + |c.code|;
    k, t := ExprCode(p, ls, e, b, n + 1, None, s);
    var r := Eval(e, s.store);
    if r.Ok? {
      var x := ApplyBin(CaseBinOp(op), v, r.v);
      OpdReadable(p, o, b, s, t);
      CompareStep(p, ls, m, CaseBinOp(op), o, c.res, t, v, r.v);
      Step1(p, ls, k, s);
      k := k + 1;
      if x.Ok? {
        t := M.Write(t, M.ToSlot(m), x.v).(pc := m + 1);
        BranchStep(p, ls, m + 1, ONode(m), n, ls[n], t, x.v);
        Step1(p, ls, k, s);
        k, t := k + 1, t.(pc := if ToBool(x.v) then ls[n] else m + 2);
      }
    }
  }

  /** The comparison of a clause puts its result into the slot of its node. */
  lemma CompareStep(p: Nodes, ls: Labels, m: nat, op: BinOp, a: Opd, b: Opd, s: M.State, v: Value, w: Value)
    requires m < |p| && p[m] == NBin(op, a, b, None) && s.pc == m
    requires M.Read(s, Resolve(p, a)) == Some(v) && M.Read(s, Resolve(p, b)) == Some(w)
    ensures var x := ApplyBin(op, v, w);
            && M.Step(Code(p, ls), s) == (if x.Err? then M.Raise(s, x.t) else M.Running(M.Write(s, M.ToSlot(m), x.v).(pc := m + 1)))
            && Resolve(p, ONode(m)) == M.Slot(m)
  {
    hide ApplyBin, M.Raise;
  }

  lemma BodiesUnfold(cs: Cases, labels: seq<Option<nat>>, dflt: nat, b: nat, n: nat, ctx: Context)
    requires |labels| == CountCases(cs) && !cs.NoCases?
    ensures var g := GenStmt(cs.body, b + 1, n, ctx);
            GenBodies(cs, labels, dflt, b, n, ctx) ==
            BuildClause(ClauseLabel(cs, labels, dflt), g, GenBodies(cs.rest, labels[1..], dflt, b + 1 + |g.code|, g.next, ctx))
  {
    hide GenStmt, BuildClause;
  }

  /** Where the bodies from the i-th clause on stand. */
  lemma {:induction false} BodiesFrom(p: Nodes, cs: Cases, labels: seq<Option<nat>>, dflt: nat, b: nat, n: nat, ctx: Context, i: nat) returns (b': nat, n': nat)
    requires |labels| == CountCases(cs) && i < CountCases(cs) && At(p, b, GenBodies(cs, labels, dflt, b, n, ctx).code)
    ensures CountCases(DropCases(cs, i)) == |labels[i..]|
    ensures var g := GenBodies(DropCases(cs, i), labels[i..], dflt, b', n', ctx);
            && At(p, b', g.code) && b' + |g.code| == b + |GenBodies(cs, labels, dflt, b, n, ctx).code|
            && b' < |p| && p[b'] == NLabel(ClauseLabel(DropCases(cs, i), labels[i..], dflt))
    decreases cs
  {
    hide GenStmt, GenBodies, At;
    BodiesUnfold(cs, labels, dflt, b, n, ctx);
    var g := GenStmt(cs.body, b + 1, n, ctx);
    var h := GenBodies(cs.rest, labels[1..], dflt, b + 1 + |g.code|, g.next, ctx);
    ClauseShape(p, b, ClauseLabel(cs, labels, dflt), g, h);
    if i == 0 {
      assert labels[0..] == labels;
      b', n' := b, n;
    } else {
      b', n' := BodiesFrom(p, cs.rest, labels[1..], dflt, b + 1 + |g.code|, g.next, ctx, i - 1);
      assert labels[1..][i - 1..] == labels[i..];
    }
  }

  lemma UnfoldCases(fuel: nat, cs: Cases, st: Store)
    requires !cs.NoCases?
    ensures var e := Exec(Actual, fuel, cs.body, st);
            ExecCases(Actual, fuel, cs, st) == if e.exit.Normal? then ExecCases(Actual, fuel, cs.rest, e.store) else e
  {
    hide Exec;
  }

  /** The bodies of the given clauses, entered at the label of the first. */
  lemma {:induction false} BodiesSim(p: Nodes, ls: Labels, ctx: Context, fuel: nat, cs: Cases, labels: seq<Option<nat>>, dflt: nat, b: nat, n: nat, s: M.State)
    returns (k: nat, t: M.State)
    requires |labels| == CountCases(cs) && LabelsOf(p, ls) && At(p, b, GenBodies(cs, labels, dflt, b, n, ctx).code) && s.pc == b
    requires Fits(p, ls, ctx, s) && ctx.brk.Some? && CompilableCases(cs, ctx.cont.Some?, ctx.scope, ctx.tries, ctx.fors)
    ensures Lands(p, ls, ctx, s, b + |GenBodies(cs, labels, dflt, b, n, ctx).code|, fuel, ExecCases(Actual, fuel, cs, s.store), k, t)
    decreases fuel, cs, 2
  {
    hide GenStmt, GenBodies, At, Exec, ExecCases, Fits, Compilable, Lands, M.Run, M.Work;
    if cs.NoCases? {
      EmptyBodies(fuel, labels, dflt, b, n, ctx, s.store);
      k, t := NoRounds(p, ls, s);
      NormalLands(p, ls, ctx, s, b, fuel, k, t);
    } else {
      BodiesUnfold(cs, labels, dflt, b, n, ctx);
      UnfoldCases(fuel, cs, s.store);
      var g := GenStmt(cs.body, b + 1, n, ctx);
      var h := GenBodies(cs.rest, labels[1..], dflt, b + 1 + |g.code|, g.next, ctx);
      var m := b + 1 + |g.code|;
      ClauseShape(p, b, ClauseLabel(cs, labels, dflt), g, h);
      var t0 := Pass(p, ls, b, s);
      FitsAfter(p, ls, ctx, s, t0);
      var eff := Exec(Actual, fuel, cs.body, s.store);
      k, t := StmtCode(p, ls, ctx, fuel, cs.body, b + 1, n, t0);
      LandsAfter(p, ls, ctx, 1, s, t0, m, fuel, fuel, eff, k, t);
      k := 1 + k;
      if eff.exit.Normal? {
        LandsNormally(p, ls, ctx, s, m, fuel, eff, k, t);
        FitsAfter(p, ls, ctx, s, t);
        var k2, t2 := BodiesSim(p, ls, ctx, fuel, cs.rest, labels[1..], dflt, m, g.next, t);
        LandsAfter(p, ls, ctx, k, s, t, m + |h.code|, fuel, fuel, ExecCases(Actual, fuel, cs.rest, t.store), k2, t2);
        k, t := k + k2, t2;
      } else {
        MoveEnd(p, ls, ctx, s, m, m + |h.code|, fuel, eff, k, t);
      }
    }
  }

  lemma EmptyBodies(fuel: nat, labels: seq<Option<nat>>, dflt: nat, b: nat, n: nat, ctx: Context, st: Store)
    requires labels == []
    ensures GenBodies(NoCases, labels, dflt, b, n, ctx).code == [] && ExecCases(Actual, fuel, NoCases, st) == Effect(Normal, st)
  {}

  /** The clauses that run when no case matches, as an index. */
  lemma {:induction false} DefaultAt(cs: Cases) returns (i: nat)
    requires HasDefault(cs)
    ensures i < CountCases(cs) && DropCases(cs, i) == DefaultOf(cs) && DefaultOf(cs).Default?
    decreases cs
  {
    match cs
    case Default(_, _) => i := 0;
    case Case(_, _, _, rest) =>
      i := DefaultAt(rest);
      i := i + 1;
  }

  lemma {:induction false} NoDefault(cs: Cases)
    requires !HasDefault(cs)
    ensures DefaultOf(cs) == NoCases
    decreases cs
  {
    if cs.Case? { NoDefault(cs.rest); }
  }

  /** Case labels are given to cases only. */
  lemma {:induction false} LabelKinds(cs: Cases, o: Opd, b: nat, n: nat, i: nat)
    requires i < CountCases(cs)
    ensures GenTests(cs, o, b, n).labels[i].Some? <==> DropCases(cs, i).Case?
    ensures CountCases(DropCases(cs, i)) == CountCases(cs) - i
    decreases cs
  {
    hide GenExpr;
    if i > 0 {
      match cs
      case Default(_, rest) => LabelKinds(rest, o, b, n, i - 1);
      case Case(_, e, _, rest) =>
        var c := GenExpr(e, b, n + 1, None);
        LabelKinds(rest, o, b + |c.code| + 2, c.next, i - 1);
    }
  }

  lemma {:induction false} AllLabelsIssued(p: Nodes, ls: Labels, cs: Cases, o: Opd, b0: nat, n0: nat, dflt: nat, b: nat, n: nat, ctx: Context)
    requires LabelsOf(p, ls) && At(p, b, GenBodies(cs, GenTests(cs, o, b0, n0).labels, dflt, b, n, ctx).code)
    ensures LabelsIssued(p, ls, GenTests(cs, o, b0, n0).labels)
  {
    hide GenBodies, GenTests, At;
    var labels := GenTests(cs, o, b0, n0).labels;
    forall i | 0 <= i < |labels| && labels[i].Some?
      ensures labels[i].value in ls && ls[labels[i].value] < |p| && p[ls[labels[i].value]] == NLabel(labels[i].value)
    {
      var b', n' := BodiesFrom(p, cs, labels, dflt, b, n, ctx, i);
      LabelKinds(cs, o, b0, n0, i);
      assert labels[i..][0] == labels[i];
    }
  }

  lemma {:induction false} AllowedFrom(cs: Cases, i: nat, cont: bool, scope: nat, tries: nat, fors: nat)
    requires CompilableCases(cs, cont, scope, tries, fors) && i <= CountCases(cs)
    ensures CompilableCases(DropCases(cs, i), cont, scope, tries, fors)
    decreases cs
  {
    hide Compilable;
    if i > 0 { AllowedFrom(cs.rest, i - 1, cont, scope, tries, fors); }
  }

  /** The clauses a switch runs when it evaluates to v. */
  function Chosen(v: Value, cs: Cases, st: Store): Cases {
    var r := FindCase(Actual, v, cs, st).1;
    if r.Some? then r.value else DefaultOf(cs)
  }

  lemma ExecSwitch(fuel: nat, e: Expr, cs: Cases, st: Store)
    ensures var r := Eval(e, st);
            Exec(Actual, fuel, Switch(e, cs), st) ==
            if r.Err? then Effect(Threw(r.t), st)
            else
              var f := FindCase(Actual, r.v, cs, st).0;
              if f.Err? then Effect(Threw(f.t), st)
              else
                var eff := ExecCases(Actual, fuel, Chosen(r.v, cs, st), st);
                if eff.exit.Broke? then Effect(Normal, eff.store) else eff
  {
    hide ExecCases, FindCase, Eval, DefaultOf;
  }

  /** From the end of the comparisons, or from the label of the matching clause, into the bodies. */
  lemma {:induction false} ChosenSim(p: Nodes, ls: Labels, ctx: Context, fuel: nat, cs: Cases, o: Opd, b0: nat, n0: nat, v: Value, dflt: nat, m: nat, n: nat, q: nat, i: nat, s: M.State)
    returns (k: nat, t: M.State)
    requires LabelsOf(p, ls) && Fits(p, ls, ctx, s) && ctx.brk.Some? && CompilableCases(cs, ctx.cont.Some?, ctx.scope, ctx.tries, ctx.fors)
    requires var labels := GenTests(cs, o, b0, n0).labels;
             var g := GenBodies(cs, labels, dflt, m + 1, n, ctx);
             && At(p, m + 1, g.code) && q == m + 1 + |g.code| < |p| && p[q].NLabel? && m < |p| && p[m] == NB(dflt)
             && (HasDefault(cs) || p[q] == NLabel(dflt))
    requires var f := FindCase(Actual, v, cs, s.store).1;
             if f.None? then s.pc == m
             else
               var labels := GenTests(cs, o, b0, n0).labels;
               i < CountCases(cs) && f.value == DropCases(cs, i) && labels[i].Some? && labels[i].value in ls && s.pc == ls[labels[i].value]
    ensures Lands(p, ls, ctx, s, q, fuel, ExecCases(Actual, fuel, Chosen(v, cs, s.store), s.store), k, t)
    decreases fuel, cs, 3
  {
    hide GenTests, GenBodies, At, FindCase, ExecCases, Fits, Lands, CompilableCases, M.Run, M.Work;
    var labels := GenTests(cs, o, b0, n0).labels;
    var f := FindCase(Actual, v, cs, s.store).1;
    if f.None? && !HasDefault(cs) {
      NoDefault(cs);
      t := Goto(p, ls, m, dflt, q, s);
      k := 1;
      EmptyBodies(fuel, [], dflt, 0, 0, ctx, s.store);
      NormalLands(p, ls, ctx, s, q, fuel, k, t);
    } else {
      var j := i;
      if f.None? { j := DefaultAt(cs); }
      var b', n' := BodiesFrom(p, cs, labels, dflt, m + 1, n, ctx, j);
      LabelKinds(cs, o, b0, n0, j);
      assert labels[j..][0] == labels[j];
      var from := DropCases(cs, j);
      k, t := NoRounds(p, ls, s);
      if f.None? {
        t := Goto(p, ls, m, dflt, b', s);
        k := 1;
      }
      AllowedFrom(cs, j, ctx.cont.Some?, ctx.scope, ctx.tries, ctx.fors);
      DropSmaller(cs, j);
      FitsAfter(p, ls, ctx, s, t);
      var k2, t2 := BodiesSim(p, ls, ctx, fuel, from, labels[j..], dflt, b', n', t);
      LandsAfter(p, ls, ctx, k, s, t, q, fuel, fuel, ExecCases(Actual, fuel, from, t.store), k2, t2);
      k, t := k + k2, t2;
    }
  }

  lemma {:induction false} DropSmaller(cs: Cases, i: nat)
    requires i <= CountCases(cs)
    ensures DropCases(cs, i) == cs || DropCases(cs, i) < cs
    decreases cs
  {
    if i > 0 { DropSmaller(cs.rest, i - 1); }
  }

  lemma {:induction false} SwitchSim(p: Nodes, ls: Labels, ctx: Context, fuel: nat, e: Expr, cs: Cases, b: nat, n: nat, s: M.State) returns (k: nat, t: M.State)
    requires LabelsOf(p, ls) && At(p, b, GenStmt(Switch(e, cs), b, n, ctx).code) && s.pc == b
    requires Fits(p, ls, ctx, s) && Allowed(Switch(e, cs), ctx)
    ensures Lands(p, ls, ctx, s, b + |GenStmt(Switch(e, cs), b, n, ctx).code|, fuel, Exec(Actual, fuel, Switch(e, cs), s.store), k, t)
    decreases fuel, Switch(e, cs), 0
  {
    hide GenStmt, GenExpr, GenTests, GenBodies, At, Eval, FindCase, Exec, ExecCases, Fits, Lands, CompilableCases, M.Run, M.Work, M.Raise;
    AllowedSwitch(e, cs, ctx);
    var ctx' := ctx.InSwitch(n);
    var g := GenExpr(e, b, n + 1, None);
    var b0 := b + |g.code|;
    var gt := GenTests(cs, g.res, b0, g.next);
    var m := b0 + |gt.code|;
    var dflt := if HasDefault(cs) then gt.next else n;
    var n' := if HasDefault(cs) then gt.next + 1 else gt.next;
    var h := GenBodies(cs, gt.labels, dflt, m + 1, n', ctx');
    var q := m + 1 + |h.code|;
    SwitchUnfold(e, cs, b, n, ctx);
    SwitchShape(p, b, n, g, gt, dflt, h);
    ExecSwitch(fuel, e, cs, s.store);
    k, t := ExprCode(p, ls, e, b, n + 1, None, s);
    var r := Eval(e, s.store);
    if r.Err? {
      ExprThrows(p, ls, ctx, s, q + 1, fuel, r.t, s.store, k, t);
    } else {
      ResultBound(e, b, n + 1);
      AllLabelsIssued(p, ls, cs, g.res, b0, g.next, dflt, m + 1, n', ctx');
      var k2, t2, i := TestsSim(p, ls, cs, g.res, r.v, b0, g.next, t);
      M.RunAdd(Code(p, ls), k, k2, s);
      k, t := k + k2, t2;
      var f := FindCase(Actual, r.v, cs, s.store);
      if f.0.Err? {
        ExprThrows(p, ls, ctx, s, q + 1, fuel, f.0.t, s.store, k, t);
      } else {
        LoopFits(p, ls, ctx, s, n, n, q, q);
        FitsAfter(p, ls, ctx', s, t);
        var eff := ExecCases(Actual, fuel, Chosen(r.v, cs, s.store), s.store);
        var k3, t3 := ChosenSim(p, ls, ctx', fuel, cs, g.res, b0, g.next, r.v, dflt, m, n', q, i, t);
        LandsAfter(p, ls, ctx', k, s, t, q, fuel, fuel, eff, k3, t3);
        k, t := SwitchEnd(p, ls, ctx, n, s, q, fuel, eff, k + k3, t3);
      }
    }
  }

  /** The end label of a switch: a break from its bodies, or falling out of the last one. */
  lemma SwitchEnd(p: Nodes, ls: Labels, ctx: Context, n: nat, s: M.State, q: nat, fuel: nat, eff: Effect, k: nat, t: M.State) returns (k': nat, t': M.State)
    requires LabelsOf(p, ls) && Lands(p, ls, ctx.InSwitch(n), s, q, fuel, eff, k, t)
    requires DepthFits(ctx.scope, ctx.tries, ctx.fors) && q < |p| && p[q] == NLabel(n)
    ensures Lands(p, ls, ctx, s, q + 1, fuel, if eff.exit.Broke? then Effect(Normal, eff.store) else eff, k', t')
  {
    hide Lands, M.Run;
    if eff.exit.Broke? {
      t' := BreakOut(p, ls, ctx, ctx.InSwitch(n), s, q, fuel, eff, k, t, q);
      k' := k + 1;
    } else if eff.exit.Normal? {
      LandsNormally(p, ls, ctx.InSwitch(n), s, q, fuel, eff, k, t);
      NormalLands(p, ls, ctx, s, q, fuel, k, t);
      k', t' := LabelEnds(p, ls, ctx, s, q, fuel, eff, k, t);
    } else {
      Escape(p, ls, ctx, ctx.InSwitch(n), s, q, q + 1, fuel, eff, k, t);
      k', t' := k, t;
    }
  }

  lemma AllowedSwitch(e: Expr, cs: Cases, ctx: Context)
    requires Allowed(Switch(e, cs), ctx)
    ensures DepthFits(ctx.scope, ctx.tries, ctx.fors) && CompilableCases(cs, ctx.cont.Some?, ctx.scope, ctx.tries, ctx.fors)
  {}

  // ----- all statements -----

  lemma {:induction false} StmtCode(p: Nodes, ls: Labels, ctx: Context, fuel: nat, stm: Stmt, b: nat, n: nat, s: M.State) returns (k: nat, t: M.State)
    requires LabelsOf(p, ls) && At(p, b, GenStmt(stm, b, n, ctx).code) && s.pc == b
    requires Fits(p, ls, ctx, s) && Allowed(stm, ctx)
    ensures Lands(p, ls, ctx, s, b + |GenStmt(stm, b, n, ctx).code|, fuel, Exec(Actual, fuel, stm, s.store), k, t)
    decreases fuel, stm, 1
  {
    hide GenStmt, GenExpr, At, Exec, M.Run, M.Step, M.Raise, M.Finish, M.Work;
    match stm
    case Seq(s1, s2) => k, t := SeqSim(p, ls, ctx, fuel, s1, s2, b, n, s);
    case If(c, s1) => k, t := IfSim(p, ls, ctx, fuel, c, s1, b, n, s);
    case IfElse(c, s1, s2) => k, t := IfElseSim(p, ls, ctx, fuel, c, s1, s2, b, n, s);
    case While(c, body) => k, t := WhileSim(p, ls, ctx, fuel, c, body, b, n, s);
    case DoWhile(body, c) => k, t := DoSim(p, ls, ctx, fuel, body, c, b, n, s);
    case For(init, cond, incr, body) => k, t := ForSim(p, ls, ctx, fuel, init, cond, incr, body, b, n, s);
    case Compound(xs, body) => k, t := CompoundSim(p, ls, ctx, fuel, xs, body, b, n, s);
    case Return(e) => k, t := ReturnSim(p, ls, ctx, fuel, e, b, n, s);
    case TryCatch(body, x, handler) => k, t := TrySim(p, ls, ctx, fuel, body, x, handler, b, n, s);
    case Throw(e) => k, t := ThrowSim(p, ls, ctx, fuel, e, b, n, s);
    case Do(sm) => k, t := DoSimple(p, ls, ctx, fuel, sm, b, n, s);
    case Break => k, t := BreakSim(p, ls, ctx, fuel, stm, b, n, s);
    case Continue => k, t := BreakSim(p, ls, ctx, fuel, stm, b, n, s);
    case Foreach(x, e, hi, body) => k, t := ForeachSim(p, ls, ctx, fuel, x, e, hi, body, b, n, s);
    case Switch(e, cs) => k, t := SwitchSim(p, ls, ctx, fuel, e, cs, b, n, s);
  }
}

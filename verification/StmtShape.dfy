/** How the code of a statement is put together, and where its parts stand in the node list. */
module StmtShape {
  import opened Values
  import opened Source
  import opened IntermediateForm
  import opened NodeMachine

  // ----- how GenStmt unfolds -----

  lemma SeqUnfold(s1: Stmt, s2: Stmt, b: nat, n: nat, ctx: Context)
    ensures var g := GenStmt(s1, b, n, ctx);
            GenStmt(Seq(s1, s2), b, n, ctx) == BuildSeq(g, GenStmt(s2, b + |g.code|, g.next, ctx))
  {
    hide GenExpr, BuildSeq, BuildIf, BuildIfElse, BuildWhile, BuildDo, BuildFor, BuildSwitch, BuildForeach, BuildCompound, BuildReturn, BuildTry, BuildThrow, TestBranch, GenBodies, GenTests, LeaveCode, GenSimple, GenOption, GenForTest;
  }

  lemma IfUnfold(c: Expr, s1: Stmt, b: nat, n: nat, ctx: Context)
    ensures var g := GenExpr(c, b, n, None);
            var mid := TestBranch(c, g.res, b + |g.code|, g.next);
            GenStmt(If(c, s1), b, n, ctx) == BuildIf(g, mid, GenStmt(s1, b + |g.code| + |mid|, g.next + 1, ctx))
  {
    hide GenExpr, BuildSeq, BuildIf, BuildIfElse, BuildWhile, BuildDo, BuildFor, BuildSwitch, BuildForeach, BuildCompound, BuildReturn, BuildTry, BuildThrow, TestBranch, GenBodies, GenTests, LeaveCode, GenSimple, GenOption, GenForTest;
  }

  lemma IfElseUnfold(c: Expr, s1: Stmt, s2: Stmt, b: nat, n: nat, ctx: Context)
    ensures var g := GenExpr(c, b, n, None);
            var mid := TestBranch(c, g.res, b + |g.code|, g.next);
            var h := GenStmt(s1, b + |g.code| + |mid|, g.next + 2, ctx);
            GenStmt(IfElse(c, s1, s2), b, n, ctx) ==
            BuildIfElse(g, mid, h, GenStmt(s2, b + |g.code| + |mid| + |h.code| + 2, h.next, ctx))
  {
    hide GenExpr, BuildSeq, BuildIf, BuildIfElse, BuildWhile, BuildDo, BuildFor, BuildSwitch, BuildForeach, BuildCompound, BuildReturn, BuildTry, BuildThrow, TestBranch, GenBodies, GenTests, LeaveCode, GenSimple, GenOption, GenForTest;
  }

  lemma WhileUnfold(c: Expr, body: Stmt, b: nat, n: nat, ctx: Context)
    ensures var g := GenExpr(c, b + 1, n + 2, None);
            var mid := TestBranch(c, g.res, b + 1 + |g.code|, n + 1);
            GenStmt(While(c, body), b, n, ctx) ==
            BuildWhile(n, g, mid, GenStmt(body, b + 1 + |g.code| + |mid|, g.next, ctx.InLoop(n + 1, n)))
  {
    hide GenExpr, BuildSeq, BuildIf, BuildIfElse, BuildWhile, BuildDo, BuildFor, BuildSwitch, BuildForeach, BuildCompound, BuildReturn, BuildTry, BuildThrow, TestBranch, GenBodies, GenTests, LeaveCode, GenSimple, GenOption, GenForTest;
  }

  lemma DoUnfold(body: Stmt, c: Expr, b: nat, n: nat, ctx: Context)
    ensures var h := GenStmt(body, b + 1, n + 2, ctx.InLoop(n + 1, n));
            var m := b + 1 + |h.code|;
            var g := GenExpr(c, m, h.next, None);
            GenStmt(DoWhile(body, c), b, n, ctx) == BuildDo(n, h, g, TestCode(c, g.res), TestOpd(c, g.res, m + |g.code|))
  {
    hide GenExpr, BuildSeq, BuildIf, BuildIfElse, BuildWhile, BuildDo, BuildFor, BuildSwitch, BuildForeach, BuildCompound, BuildReturn, BuildTry, BuildThrow, TestBranch, GenBodies, GenTests, LeaveCode, GenSimple, GenOption, GenForTest, TestCode, TestOpd;
  }

  lemma ForUnfold(init: Simple, cond: Option<Expr>, incr: Simple, body: Stmt, b: nat, n: nat, ctx: Context)
    ensures var i := GenSimple(init, b, n + 3);
            var m := b + |i.code| + 1;
            var g := GenForTest(cond, m, i.next, n + 1);
            var h := GenStmt(body, m + |g.code|, g.next, ctx.InLoop(n + 1, n + 2));
            GenStmt(For(init, cond, incr, body), b, n, ctx) ==
            BuildFor(n, i, g, h, GenSimple(incr, m + |g.code| + |h.code| + 1, h.next))
  {
    hide GenExpr, BuildSeq, BuildIf, BuildIfElse, BuildWhile, BuildDo, BuildFor, BuildSwitch, BuildForeach, BuildCompound, BuildReturn, BuildTry, BuildThrow, TestBranch, GenBodies, GenTests, LeaveCode, GenSimple, GenOption, GenForTest;
  }

  lemma SwitchUnfold(e: Expr, cs: Cases, b: nat, n: nat, ctx: Context)
    ensures var g := GenExpr(e, b, n + 1, None);
            var t := GenTests(cs, g.res, b + |g.code|, g.next);
            var dflt := if HasDefault(cs) then t.next else n;
            var n' := if HasDefault(cs) then t.next + 1 else t.next;
            GenStmt(Switch(e, cs), b, n, ctx) ==
            BuildSwitch(n, g, t, dflt, GenBodies(cs, t.labels, dflt, b + |g.code| + |t.code| + 1, n', ctx.InSwitch(n)))
  {
    hide GenExpr, BuildSeq, BuildIf, BuildIfElse, BuildWhile, BuildDo, BuildFor, BuildSwitch, BuildForeach, BuildCompound, BuildReturn, BuildTry, BuildThrow, TestBranch, GenBodies, GenTests, LeaveCode, GenSimple, GenOption, GenForTest;
  }

  lemma ForeachUnfold(x: nat, e: Expr, hi: Option<Expr>, body: Stmt, b: nat, n: nat, ctx: Context)
    ensures var g := GenExpr(e, b, n + 3, None);
            var k := GenOption(hi, b + |g.code|, g.next);
            var h := GenStmt(body, b + |g.code| + |k.code| + 1, k.next, ctx.InLoop(n + 2, n).(fors := ctx.fors + 1));
            GenStmt(Foreach(x, e, hi, body), b, n, ctx) == BuildForeach(n, x, g, if hi.None? then None else Some(k.res), k, h)
  {
    hide GenExpr, BuildSeq, BuildIf, BuildIfElse, BuildWhile, BuildDo, BuildFor, BuildSwitch, BuildForeach, BuildCompound, BuildReturn, BuildTry, BuildThrow, TestBranch, GenBodies, GenTests, LeaveCode, GenSimple, GenOption, GenForTest;
  }

  lemma CompoundUnfold(xs: seq<nat>, body: Stmt, b: nat, n: nat, ctx: Context)
    ensures GenStmt(Compound(xs, body), b, n, ctx) ==
            BuildCompound(ClearCode(xs), GenStmt(body, b + 1 + |ClearCode(xs)|, n, ctx.(scope := ctx.scope + 1)))
  {
    hide GenExpr, BuildSeq, BuildIf, BuildIfElse, BuildWhile, BuildDo, BuildFor, BuildSwitch, BuildForeach, BuildCompound, BuildReturn, BuildTry, BuildThrow, TestBranch, GenBodies, GenTests, LeaveCode, GenSimple, GenOption, GenForTest, ClearCode;
  }

  lemma ReturnUnfold(e: Option<Expr>, b: nat, n: nat, ctx: Context)
    ensures var g := GenOption(e, b, n);
            GenStmt(Stmt.Return(e), b, n, ctx) == BuildReturn(g, ReturnPop(ctx), if e.None? then NRet else NRetVal(g.res))
  {
    hide GenExpr, BuildSeq, BuildIf, BuildIfElse, BuildWhile, BuildDo, BuildFor, BuildSwitch, BuildForeach, BuildCompound, BuildReturn, BuildTry, BuildThrow, TestBranch, GenBodies, GenTests, LeaveCode, GenSimple, GenOption, GenForTest;
  }

  lemma TryUnfold(body: Stmt, x: nat, handler: Stmt, b: nat, n: nat, ctx: Context)
    ensures var h := GenStmt(body, b + 1, n + 2, ctx.(tries := ctx.tries + 1));
            GenStmt(TryCatch(body, x, handler), b, n, ctx) == BuildTry(n, x, h, GenStmt(handler, b + 4 + |h.code|, h.next, ctx))
  {
    hide GenExpr, BuildSeq, BuildIf, BuildIfElse, BuildWhile, BuildDo, BuildFor, BuildSwitch, BuildForeach, BuildCompound, BuildReturn, BuildTry, BuildThrow, TestBranch, GenBodies, GenTests, LeaveCode, GenSimple, GenOption, GenForTest;
  }

  // ----- where the parts stand -----

  lemma IfShape(p: Nodes, b: nat, g: Gen, mid: Nodes, h: GenS)
    requires At(p, b, BuildIf(g, mid, h).code)
    ensures var m := b + |g.code| + |mid|;
            && At(p, b, g.code) && At(p, b + |g.code|, mid) && At(p, m, h.code)
            && b + |BuildIf(g, mid, h).code| == m + |h.code| + 1 <= |p| && p[m + |h.code|] == NLabel(g.next)
  {
    AtLast(p, b, g.code + mid + h.code, NLabel(g.next));
    AtSplit(p, b, g.code + mid, h.code);
    AtSplit(p, b, g.code, mid);
  }

  lemma IfElseShape(p: Nodes, b: nat, g: Gen, mid: Nodes, h: GenS, k: GenS)
    requires At(p, b, BuildIfElse(g, mid, h, k).code)
    ensures var m := b + |g.code| + |mid|;
            var u := m + |h.code|;
            var w := u + 2 + |k.code|;
            && At(p, b, g.code) && At(p, b + |g.code|, mid) && At(p, m, h.code) && At(p, u + 2, k.code)
            && b + |BuildIfElse(g, mid, h, k).code| == w + 1 <= |p|
            && p[u] == NB(g.next + 1) && p[u + 1] == NLabel(g.next) && p[w] == NLabel(g.next + 1)
  {
    var two := [NB(g.next + 1), NLabel(g.next)];
    AtSplit(p, b, g.code + mid + h.code + two, k.code + [NLabel(g.next + 1)]);
    AtLast(p, b + |g.code + mid + h.code + two|, k.code, NLabel(g.next + 1));
    AtSplit(p, b, g.code + mid + h.code, two);
    AtSplit(p, b, g.code + mid, h.code);
    AtSplit(p, b, g.code, mid);
    AtTwo(p, b + |g.code| + |mid| + |h.code|, two[0], two[1]);
  }

  lemma WhileShape(p: Nodes, b: nat, n: nat, g: Gen, mid: Nodes, h: GenS)
    requires At(p, b, BuildWhile(n, g, mid, h).code)
    ensures var m := b + 1 + |g.code| + |mid|;
            var u := m + |h.code|;
            && At(p, b + 1, g.code) && At(p, b + 1 + |g.code|, mid) && At(p, m, h.code)
            && b + |BuildWhile(n, g, mid, h).code| == u + 2 <= |p|
            && p[b] == NLabel(n) && p[u] == NB(n) && p[u + 1] == NLabel(n + 1)
  {
    AtSplit5(p, b, [NLabel(n)], g.code, mid, h.code, [NB(n), NLabel(n + 1)]);
    AtTwo(p, b + 1 + |g.code| + |mid| + |h.code|, NB(n), NLabel(n + 1));
  }

  lemma DoShape(p: Nodes, b: nat, n: nat, h: GenS, g: Gen, tc: Nodes, o: Opd)
    requires At(p, b, BuildDo(n, h, g, tc, o).code)
    ensures var m := b + 1 + |h.code|;
            var u := m + |g.code| + |tc|;
            && At(p, b + 1, h.code) && At(p, m, g.code) && At(p, m + |g.code|, tc)
            && b + |BuildDo(n, h, g, tc, o).code| == u + 2 <= |p|
            && p[b] == NLabel(n) && p[u] == NBT(o, n) && p[u + 1] == NLabel(n + 1)
  {
    AtSplit5(p, b, [NLabel(n)], h.code, g.code, tc, [NBT(o, n), NLabel(n + 1)]);
    AtTwo(p, b + 1 + |h.code| + |g.code| + |tc|, NBT(o, n), NLabel(n + 1));
  }

  lemma ForShape(p: Nodes, b: nat, n: nat, i: Gen, g: GenS, h: GenS, j: Gen)
    requires At(p, b, BuildFor(n, i, g, h, j).code)
    ensures var m := b + |i.code|;
            var u := m + 1 + |g.code|;
            var w := u + |h.code|;
            var z := w + 1 + |j.code|;
            && At(p, b, i.code) && At(p, m + 1, g.code) && At(p, u, h.code) && At(p, w + 1, j.code)
            && b + |BuildFor(n, i, g, h, j).code| == z + 2 <= |p|
            && p[m] == NLabel(n) && p[w] == NLabel(n + 2) && p[z] == NB(n) && p[z + 1] == NLabel(n + 1)
  {
    var fst := i.code + [NLabel(n)] + g.code + h.code + [NLabel(n + 2)];
    var two := [NB(n), NLabel(n + 1)];
    AtSplit(p, b, fst, j.code + two);
    AtSplit(p, b + |fst|, j.code, two);
    AtSplit5(p, b, i.code, [NLabel(n)], g.code, h.code, [NLabel(n + 2)]);
    AtTwo(p, b + |fst| + |j.code|, NB(n), NLabel(n + 1));
  }

  lemma SwitchShape(p: Nodes, b: nat, n: nat, g: Gen, t: GenT, dflt: nat, h: GenS)
    requires At(p, b, BuildSwitch(n, g, t, dflt, h).code)
    ensures var m := b + |g.code| + |t.code|;
            && At(p, b, g.code) && At(p, b + |g.code|, t.code) && At(p, m + 1, h.code)
            && b + |BuildSwitch(n, g, t, dflt, h).code| == m + 2 + |h.code| <= |p|
            && p[m] == NB(dflt) && p[m + 1 + |h.code|] == NLabel(n)
  {
    AtSplit5(p, b, g.code, t.code, [NB(dflt)], h.code, [NLabel(n)]);
  }

  lemma TestShape(p: Nodes, op: CaseOp, v: Opd, b: nat, n: nat, c: Gen, g: GenT)
    requires At(p, b, BuildTest(op, v, b, n, c, g).code)
    ensures var m := b + |c.code|;
            && At(p, b, c.code) && At(p, m + 2, g.code) && m + 2 + |g.code| == b + |BuildTest(op, v, b, n, c, g).code| <= |p|
            && p[m] == NBin(CaseBinOp(op), v, c.res, None) && p[m + 1] == NBT(ONode(m), n)
  {
    var two := [NBin(CaseBinOp(op), v, c.res, None), NBT(ONode(b + |c.code|), n)];
    AtSplit(p, b, c.code + two, g.code);
    AtSplit(p, b, c.code, two);
    AtTwo(p, b + |c.code|, two[0], two[1]);
  }

  lemma ClauseShape(p: Nodes, b: nat, l: nat, g: GenS, h: GenS)
    requires At(p, b, BuildClause(l, g, h).code)
    ensures && b < |p| && p[b] == NLabel(l) && At(p, b + 1, g.code) && At(p, b + 1 + |g.code|, h.code)
            && b + |BuildClause(l, g, h).code| == b + 1 + |g.code| + |h.code| <= |p|
  {
    AtSplit(p, b, [NLabel(l)] + g.code, h.code);
    AtSplit(p, b, [NLabel(l)], g.code);
  }

  lemma ForeachShape(p: Nodes, b: nat, n: nat, x: nat, g: Gen, hi: Option<Opd>, k: Gen, h: GenS)
    requires At(p, b, BuildForeach(n, x, g, hi, k, h).code)
    ensures var m := b + |g.code| + |k.code|;
            var u := m + 1 + |h.code|;
            && At(p, b, g.code) && At(p, b + |g.code|, k.code) && At(p, m + 1, h.code)
            && b + |BuildForeach(n, x, g, hi, k, h).code| == u + 4 <= |p|
            && p[m] == NForeach(x, g.res, hi, n + 1)
            && p[u] == NLabel(n) && p[u + 1] == NNext && p[u + 2] == NLabel(n + 2) && p[u + 3] == NLabel(n + 1)
  {
    var tail := [NLabel(n), NNext, NLabel(n + 2), NLabel(n + 1)];
    AtSplit5(p, b, g.code, k.code, [NForeach(x, g.res, hi, n + 1)], h.code, tail);
    var u := b + |g.code| + |k.code| + 1 + |h.code|;
    assert tail == [tail[0], tail[1]] + [tail[2], tail[3]];
    AtSplit(p, u, [tail[0], tail[1]], [tail[2], tail[3]]);
    AtTwo(p, u, tail[0], tail[1]);
    AtTwo(p, u + 2, tail[2], tail[3]);
  }

  lemma CompoundShape(p: Nodes, b: nat, clear: Nodes, h: GenS)
    requires At(p, b, BuildCompound(clear, h).code)
    ensures var u := b + 1 + |clear| + |h.code|;
            && At(p, b + 1, clear) && At(p, b + 1 + |clear|, h.code)
            && b + |BuildCompound(clear, h).code| == u + 1 <= |p|
            && p[b] == NPushScope && p[u] == NPopScope(1, 0, 0)
  {
    AtLast(p, b, [NPushScope] + clear + h.code, NPopScope(1, 0, 0));
    AtSplit(p, b, [NPushScope] + clear, h.code);
    AtSplit(p, b, [NPushScope], clear);
  }

  lemma ReturnShape(p: Nodes, b: nat, g: Gen, pop: Nodes, last: Node)
    requires At(p, b, BuildReturn(g, pop, last).code)
    ensures At(p, b, g.code) && At(p, b + |g.code|, pop)
    ensures b + |BuildReturn(g, pop, last).code| == b + |g.code| + |pop| + 1 <= |p| && p[b + |g.code| + |pop|] == last
  {
    AtLast(p, b, g.code + pop, last);
    AtSplit(p, b, g.code, pop);
  }

  lemma TryShape(p: Nodes, b: nat, n: nat, x: nat, h: GenS, k: GenS)
    requires At(p, b, BuildTry(n, x, h, k).code)
    ensures var u := b + 1 + |h.code|;
            && At(p, b + 1, h.code) && At(p, u + 3, k.code)
            && b + |BuildTry(n, x, h, k).code| == u + 4 + |k.code| <= |p|
            && p[b] == NTry(n, n + 1) && p[u] == NEnd && p[u + 1] == NLabel(n) && p[u + 2] == NCatch(x)
            && p[u + 3 + |k.code|] == NLabel(n + 1)
  {
    var three := [NEnd, NLabel(n), NCatch(x)];
    AtSplit5(p, b, [NTry(n, n + 1)], h.code, three, k.code, [NLabel(n + 1)]);
    var u := b + 1 + |h.code|;
    assert three == [NEnd, NLabel(n)] + [NCatch(x)];
    AtLast(p, u, [NEnd, NLabel(n)], NCatch(x));
    AtTwo(p, u, NEnd, NLabel(n));
  }
}

/** Jumps in a generated node list: every label that is used is issued, and the value of a node is
    never needed after a jump over or behind the node. */
module Jumps {
  import opened Values
  import opened Source
  import opened IntermediateForm
  import opened NodeMachine
  import opened StmtShape
  import opened NodeForm
  import ExprSim
  import StmtSim

  /** No value is carried across position q. */
  ghost predicate Closed(p: Nodes, q: nat) {
    forall i: nat, r: nat {:trigger Uses(p[i], r)} :: q <= i < |p| && Uses(p[i], r) ==> q <= r
  }

  /** A jump from i to q skips no value that is used at q or later. */
  ghost predicate JumpOk(p: Nodes, i: nat, q: nat) {
    Closed(p, q) || (i < q && forall j: nat, r: nat {:trigger Uses(p[j], r)} :: q <= j < |p| && Uses(p[j], r) ==> r < i || q <= r)
  }

  ghost predicate JumpsOk(p: Nodes, b: nat, e: nat, q: nat) {
    forall i: nat :: b <= i < e ==> JumpOk(p, i, q)
  }

  ghost predicate Known(p: Nodes, ls: Labels, l: nat) {
    l in ls && ls[l] < |p| && p[ls[l]] == NLabel(l)
  }

  ghost predicate KnownClosed(p: Nodes, ls: Labels, l: nat) {
    Known(p, ls, l) && Closed(p, ls[l])
  }

  ghost predicate JumpsAt(p: Nodes, ls: Labels, i: nat)
    requires i < |p|
  {
    match p[i]
    case NB(l) => Known(p, ls, l) && JumpOk(p, i, ls[l])
    case NBT(_, l) => Known(p, ls, l) && JumpOk(p, i, ls[l])
    case NBF(_, l) => Known(p, ls, l) && JumpOk(p, i, ls[l])
    case NForeach(_, _, _, l) => KnownClosed(p, ls, l) && Closed(p, i + 1)
    case NTry(lc, le) => KnownClosed(p, ls, lc) && KnownClosed(p, ls, le)
    case _ => true
  }

  ghost predicate JumpsIn(p: Nodes, ls: Labels, b: nat, e: nat) {
    forall i: nat :: b <= i < e && i < |p| ==> JumpsAt(p, ls, i)
  }

  /** Only the result of the code at b .. e is used after it. */
  ghost predicate OnlyResult(p: Nodes, b: nat, e: nat, res: Opd) {
    forall i: nat, r: nat {:trigger Uses(p[i], r)} :: e <= i < |p| && Uses(p[i], r) && b <= r < e ==> res == ONode(r)
  }

  lemma CloseFrom(p: Nodes, q: nat, e: nat)
    requires Closed(p, e) && q <= e && RefsFrom(p, q, q, e)
    ensures Closed(p, q)
  {}

  /** Nodes without operands. */
  predicate Silent(x: Node) {
    x.NLabel? || x.NB? || x.NNext? || x.NEnd? || x.NCatch? || x.NTry? || x.NPushScope? || x.NPopScope?
  }

  lemma CloseSilent(p: Nodes, q: nat)
    requires q < |p| && Silent(p[q]) && Closed(p, q + 1)
    ensures Closed(p, q)
  {}

  /** The parts of a formed piece of code are closed in front when what follows is closed. */
  lemma CloseFormed(p: Nodes, q: nat, e: nat, n: nat, next: nat)
    requires Closed(p, e) && q <= e && Formed(p, q, e, n, next)
    ensures Closed(p, q)
  {}

  lemma LabelKnown(p: Nodes, ls: Labels, q: nat, l: nat)
    requires LabelsOf(p, ls) && q < |p| && p[q] == NLabel(l)
    ensures Known(p, ls, l) && ls[l] == q
  {}

  lemma JoinJumps(p: Nodes, ls: Labels, a: nat, b: nat, c: nat, d: nat, e: nat, f: nat)
    requires a <= b <= c <= d <= e <= f
    requires JumpsIn(p, ls, a, b) && JumpsIn(p, ls, b, c) && JumpsIn(p, ls, c, d) && JumpsIn(p, ls, d, e) && JumpsIn(p, ls, e, f)
    ensures JumpsIn(p, ls, a, f)
  {}

  lemma OneJump(p: Nodes, ls: Labels, q: nat)
    requires q < |p| && JumpsAt(p, ls, q)
    ensures JumpsIn(p, ls, q, q + 1)
  {}

  // ----- expressions -----

  lemma {:induction false} LogicalJumps(p: Nodes, ls: Labels, e: Expr, b: nat, n: nat, d: Option<nat>)
    requires (e.And? || e.Or?) && LabelsOf(p, ls) && At(p, b, GenExpr(e, b, n, d).code)
    requires var g := GenExpr(e, b, n, d); OnlyResult(p, b, b + |g.code|, g.res)
    ensures JumpsIn(p, ls, b, b + |GenExpr(e, b, n, d).code|)
    decreases e, 0
  {
    hide GenExpr, At, AndMid, OrMid, Distinct, LabelsIn;
    var l := GenExpr(e.a, b + 1, n + 1, None);
    var mid := if e.And? then AndMid(e.a, l, b, n) else OrMid(l, b, n);
    var m := b + 1 + |l.code|;
    var r := GenExpr(e.b, m + |mid|, l.next, None);
    var q := m + |mid| + |r.code|;
    if e.And? { ExprSim.AndUnfold(e.a, e.b, b, n, d); } else { ExprSim.OrUnfold(e.a, e.b, b, n, d); }
    ExprSim.LogicalShape(p, b, n, d, l, mid, r);
    FormExpr(p, e.a, b + 1, n + 1, None);
    FormExpr(p, e.b, m + |mid|, l.next, None);
    MidFormed(p, e, l, b, n);
    LogicalUses(p, b, m, m + |mid|, q, l.res, r.res);
    ExprJumps(p, ls, e.a, b + 1, n + 1, None);
    ExprJumps(p, ls, e.b, m + |mid|, l.next, None);
    LabelKnown(p, ls, q + 1, n);
    MidJumps(p, e, l, b, n);
  }

  /** Where the values of the parts of && and || are used. */
  lemma LogicalUses(p: Nodes, b: nat, m: nat, m': nat, q: nat, res: Opd, res': Opd)
    requires b + 1 <= m <= m' <= q && q + 1 < |p| && p[q] == NMov(MNode(b), res') && p[q + 1].NLabel?
    requires forall i: nat, r: nat {:trigger Uses(p[i], r)} :: m <= i < m' && Uses(p[i], r) ==> r >= m || r == b || ONode(r) == res
    requires RefsFrom(p, m', m', q) && (res'.ONode? ==> m' <= res'.n < q)
    requires OnlyResult(p, b, q + 2, ONode(b))
    ensures OnlyResult(p, b + 1, m, res) && OnlyResult(p, m', q, res')
    ensures JumpsOk(p, m, m', q + 1)
  {
    forall i: nat, r: nat | m <= i < |p| && Uses(p[i], r) && b + 1 <= r < m ensures res == ONode(r) {
      if i == q { }
    }
    forall i: nat, r: nat | q <= i < |p| && Uses(p[i], r) && m' <= r < q ensures res' == ONode(r) {
      if i == q { }
    }
  }

  lemma MidJumps(p: Nodes, e: Expr, l: Gen, b: nat, n: nat)
    requires e.And? || e.Or?
    requires var mid := if e.And? then AndMid(e.a, l, b, n) else OrMid(l, b, n); At(p, b + 1 + |l.code|, mid)
    ensures var mid := if e.And? then AndMid(e.a, l, b, n) else OrMid(l, b, n);
            var m := b + 1 + |l.code|;
            m + |mid| <= |p| && forall i: nat {:trigger p[i]} :: m <= i < m + |mid| ==> PlainOrTo(p[i], n)
  {
    var m := b + 1 + |l.code|;
    hide At, TestCode, TestOpd;
    if e.And? {
      AndMidJumps(p, e.a, l.res, b, m, n);
    } else {
      AtTwo(p, m, NMov(MNode(b), l.res), NBT(l.res, n));
    }
  }

  lemma AndMidJumps(p: Nodes, a: Expr, res: Opd, b: nat, m: nat, n: nat)
    requires At(p, m, [NMov(MNode(b), res)] + TestCode(a, res) + [NBF(TestOpd(a, res, m + 1), n)])
    ensures var e := m + 2 + |TestCode(a, res)|;
            e <= |p| && forall i: nat {:trigger p[i]} :: m <= i < e ==> PlainOrTo(p[i], n)
  {
    hide At, TestCode, TestOpd;
    var tc := TestCode(a, res);
    AtLast(p, m, [NMov(MNode(b), res)] + tc, NBF(TestOpd(a, res, m + 1), n));
    AtSplit(p, m, [NMov(MNode(b), res)], tc);
    AtOne(p, m, NMov(MNode(b), res));
    TestCodePlain(p, a, res, m + 1, n);
  }

  /** No jump, or a branch to label n. */
  predicate PlainOrTo(x: Node, n: nat) {
    match x
    case NB(l) => l == n
    case NBT(_, l) => l == n
    case NBF(_, l) => l == n
    case NForeach(_, _, _, _) => false
    case NTry(_, _) => false
    case _ => true
  }

  lemma TestCodePlain(p: Nodes, c: Expr, res: Opd, m: nat, n: nat)
    requires At(p, m, TestCode(c, res))
    ensures m + |TestCode(c, res)| <= |p| && forall i: nat {:trigger p[i]} :: m <= i < m + |TestCode(c, res)| ==> PlainOrTo(p[i], n)
  {}

  lemma TestPlain(p: Nodes, c: Expr, res: Opd, m: nat, n: nat)
    requires At(p, m, TestBranch(c, res, m, n))
    ensures m + |TestBranch(c, res, m, n)| <= |p| && forall i: nat {:trigger p[i]} :: m <= i < m + |TestBranch(c, res, m, n)| ==> PlainOrTo(p[i], n)
  {
    AtLast(p, m, TestCode(c, res), NBF(TestOpd(c, res, m), n));
  }

  lemma {:induction false} CondJumps(p: Nodes, ls: Labels, e: Expr, b: nat, n: nat, d: Option<nat>)
    requires e.Cond? && LabelsOf(p, ls) && At(p, b, GenExpr(e, b, n, d).code)
    requires var g := GenExpr(e, b, n, d); OnlyResult(p, b, b + |g.code|, g.res)
    ensures JumpsIn(p, ls, b, b + |GenExpr(e, b, n, d).code|)
    decreases e, 0
  {
    hide GenExpr, At, TestBranch, Distinct, LabelsIn;
    var l := GenExpr(e.c, b + 1, n, None);
    var m' := b + 1 + |l.code|;
    var mid := TestBranch(e.c, l.res, m', l.next);
    var m := m' + |mid|;
    var r := GenExpr(e.a, m, l.next + 2, None);
    var u := m + |r.code|;
    var q := GenExpr(e.b, u + 3, r.next, None);
    var w := u + 3 + |q.code|;
    ExprSim.CondUnfold(e.c, e.a, e.b, b, n, d);
    ExprSim.CondShape(p, b, d, l, mid, r, q);
    FormExpr(p, e.c, b + 1, n, None);
    FormExpr(p, e.a, m, l.next + 2, None);
    FormExpr(p, e.b, u + 3, r.next, None);
    TestFormed(p, e.c, l.res, m', l.next);
    TestPlain(p, e.c, l.res, m', l.next);
    CondUses(p, b, m', m, u, w, l.res, r.res, q.res);
    ExprJumps(p, ls, e.c, b + 1, n, None);
    ExprJumps(p, ls, e.a, m, l.next + 2, None);
    ExprJumps(p, ls, e.b, u + 3, r.next, None);
    LabelKnown(p, ls, u + 2, l.next);
    LabelKnown(p, ls, w + 1, l.next + 1);
  }

  lemma CondUses(p: Nodes, b: nat, m': nat, m: nat, u: nat, w: nat, res1: Opd, res2: Opd, res3: Opd)
    requires b + 1 <= m' <= m <= u && u + 3 <= w && w + 1 < |p|
    requires p[u] == NMov(MNode(b), res2) && p[u + 1].NB? && p[u + 2].NLabel? && p[w] == NMov(MNode(b), res3) && p[w + 1].NLabel?
    requires RefsTo(p, m', m, res1) && RefsFrom(p, m, m, u) && RefsFrom(p, u + 3, u + 3, w)
    requires (res2.ONode? ==> m <= res2.n < u) && (res3.ONode? ==> u + 3 <= res3.n < w)
    requires OnlyResult(p, b, w + 2, ONode(b))
    ensures OnlyResult(p, b + 1, m', res1) && OnlyResult(p, m, u, res2) && OnlyResult(p, u + 3, w, res3)
    ensures JumpsOk(p, m', m, u + 2) && JumpOk(p, u + 1, w + 1)
  {
    forall i: nat, r: nat | m' <= i < |p| && Uses(p[i], r) && b + 1 <= r < m' ensures res1 == ONode(r) {
      if i == u { } else if i == w { }
    }
    forall i: nat, r: nat | u <= i < |p| && Uses(p[i], r) && m <= r < u ensures res2 == ONode(r) {
      if i == u { } else if i == w { }
    }
    forall i: nat, r: nat | w <= i < |p| && Uses(p[i], r) && u + 3 <= r < w ensures res3 == ONode(r) {
      if i == w { }
    }
    forall j: nat, r: nat | u + 2 <= j < |p| && Uses(p[j], r) ensures r < m' || u + 2 <= r {
      if j == w { }
    }
  }

  lemma {:induction false} ExprJumps(p: Nodes, ls: Labels, e: Expr, b: nat, n: nat, d: Option<nat>)
    requires LabelsOf(p, ls) && At(p, b, GenExpr(e, b, n, d).code) && (d.Some? ==> !IsLeaf(e))
    requires var g := GenExpr(e, b, n, d); OnlyResult(p, b, b + |g.code|, g.res)
    ensures JumpsIn(p, ls, b, b + |GenExpr(e, b, n, d).code|)
    decreases e, 1
  {
    if IsLeaf(e) {
    } else {
      hide GenExpr, At, Distinct, LabelsIn;
      if e.And? || e.Or? {
        LogicalJumps(p, ls, e, b, n, d);
      } else if e.Cond? {
        CondJumps(p, ls, e, b, n, d);
      } else {
        OperatorJumps(p, ls, e, b, n, d);
      }
    }
  }

  lemma {:induction false} OperatorJumps(p: Nodes, ls: Labels, e: Expr, b: nat, n: nat, d: Option<nat>)
    requires (e.Un? || e.Bin?) && LabelsOf(p, ls) && At(p, b, GenExpr(e, b, n, d).code)
    requires var g := GenExpr(e, b, n, d); OnlyResult(p, b, b + |g.code|, g.res)
    ensures JumpsIn(p, ls, b, b + |GenExpr(e, b, n, d).code|)
    decreases e, 0
  {
    hide GenExpr, At, Distinct, LabelsIn;
    if e.Un? {
      ExprSim.UnUnfold(e.uop, e.a, b, n, d);
      var l := GenExpr(e.a, b, n, None);
      AtLast(p, b, l.code, NUn(e.uop, l.res, d));
      FormExpr(p, e.a, b, n, None);
      OperandUses(p, b, b + |l.code|, b + |l.code|, l.res, l.res);
      ExprJumps(p, ls, e.a, b, n, None);
    } else {
      ExprSim.BinUnfold(e.bop, e.a, e.b, b, n, d);
      var l := GenExpr(e.a, b, n, None);
      var m := b + |l.code|;
      var r := GenExpr(e.b, m, l.next, None);
      var q := m + |r.code|;
      AtLast(p, b, l.code + r.code, NBin(e.bop, l.res, r.res, d));
      AtSplit(p, b, l.code, r.code);
      FormExpr(p, e.a, b, n, None);
      FormExpr(p, e.b, m, l.next, None);
      OperandUses(p, b, m, q, l.res, r.res);
      ExprJumps(p, ls, e.a, b, n, None);
      ExprJumps(p, ls, e.b, m, l.next, None);
    }
  }

  /** Where the operands of an operator node at q are used. */
  lemma OperandUses(p: Nodes, b: nat, m: nat, q: nat, res: Opd, res': Opd)
    requires b <= m <= q < |p| && RefsFrom(p, m, m, q)
    requires (p[q].NUn? && p[q].a == res && m == q) || (p[q].NBin? && p[q].a == res && p[q].b == res' && (res.ONode? ==> res.n < m) && (res'.ONode? ==> res'.n >= m))
    requires OnlyResult(p, b, q + 1, ONode(q))
    ensures OnlyResult(p, b, m, res) && (p[q].NBin? ==> OnlyResult(p, m, q, res'))
  {
    forall i: nat, r: nat | m <= i < |p| && Uses(p[i], r) && b <= r < m ensures res == ONode(r) {
      if i == q { }
    }
    forall i: nat, r: nat | p[q].NBin? && q <= i < |p| && Uses(p[i], r) && m <= r < q ensures res' == ONode(r) {
      if i == q { }
    }
  }

  // ----- statements -----

  /** A condition with its branch: after it nothing is carried on, and the branch leads to a closed label. */
  lemma ConditionJumps(p: Nodes, ls: Labels, c: Expr, b: nat, n0: nat, n: nat)
    requires LabelsOf(p, ls) && KnownClosed(p, ls, n)
    requires var g := GenExpr(c, b, n0, None);
             var mid := TestBranch(c, g.res, b + |g.code|, n);
             At(p, b, g.code) && At(p, b + |g.code|, mid) && Closed(p, b + |g.code| + |mid|)
    ensures var g := GenExpr(c, b, n0, None);
            JumpsIn(p, ls, b, b + |g.code| + |TestBranch(c, g.res, b + |g.code|, n)|)
  {
    hide GenExpr, At, TestBranch, Distinct, LabelsIn;
    var g := GenExpr(c, b, n0, None);
    var m := b + |g.code|;
    FormExpr(p, c, b, n0, None);
    TestFormed(p, c, g.res, m, n);
    TestPlain(p, c, g.res, m, n);
    ExprJumps(p, ls, c, b, n0, None);
  }

  ghost predicate TargetsClosed(p: Nodes, ls: Labels, ctx: Context) {
    && (ctx.brk.Some? ==> KnownClosed(p, ls, ctx.brk.value.lab))
    && (ctx.cont.Some? ==> KnownClosed(p, ls, ctx.cont.value.lab))
  }

  lemma {:induction false} RhsJumps(p: Nodes, ls: Labels, x: nat, r: Rhs, b: nat, n: nat)
    requires LabelsOf(p, ls) && At(p, b, GenRhs(x, r, b, n).code)
    requires var g := GenRhs(x, r, b, n); OnlyResult(p, b, b + |g.code|, g.res)
    ensures JumpsIn(p, ls, b, b + |GenRhs(x, r, b, n).code|)
    decreases r
  {
    match r
    case Plain(e) =>
      if !IsLeaf(e) {
        hide GenExpr, At;
        ExprJumps(p, ls, e, b, n, Some(x));
      }
    case Chain(y, r') =>
      hide GenExpr, At;
      var g := GenRhs(y, r', b, n);
      var q := b + |g.code|;
      AtLast(p, b, g.code, NMov(MVar(x), g.res));
      forall i: nat, u: nat | q <= i < |p| && Uses(p[i], u) && b <= u < q ensures g.res == ONode(u) {
        if i == q { }
      }
      RhsJumps(p, ls, y, r', b, n);
  }

  lemma SimpleJumps(p: Nodes, ls: Labels, sm: Simple, b: nat, n: nat)
    requires LabelsOf(p, ls) && At(p, b, GenSimple(sm, b, n).code) && Closed(p, b + |GenSimple(sm, b, n).code|)
    ensures JumpsIn(p, ls, b, b + |GenSimple(sm, b, n).code|)
  {
    match sm
    case Skip =>
    case Evaluate(e) => ExprJumps(p, ls, e, b, n, None);
    case Assign(x, r) => RhsJumps(p, ls, x, r, b, n);
  }

  /** Everything a statement's code needs from its surroundings. */
  ghost predicate Ready(p: Nodes, ls: Labels, s: Stmt, b: nat, n: nat, ctx: Context) {
    && LabelsOf(p, ls) && At(p, b, GenStmt(s, b, n, ctx).code) && StmtSim.Allowed(s, ctx) && TargetsClosed(p, ls, ctx)
    && Closed(p, b + |GenStmt(s, b, n, ctx).code|)
  }

  ghost predicate Done(p: Nodes, ls: Labels, s: Stmt, b: nat, n: nat, ctx: Context) {
    JumpsIn(p, ls, b, b + |GenStmt(s, b, n, ctx).code|) && Closed(p, b)
  }

  lemma {:induction false} SeqJumps(p: Nodes, ls: Labels, s: Stmt, b: nat, n: nat, ctx: Context)
    requires s.Seq? && Ready(p, ls, s, b, n, ctx)
    ensures Done(p, ls, s, b, n, ctx)
    decreases s, 0
  {
    hide GenStmt, At, Compilable;
    StmtSim.AllowedParts(s, ctx);
    var g := GenStmt(s.first, b, n, ctx);
    var h := GenStmt(s.second, b + |g.code|, g.next, ctx);
    SeqUnfold(s.first, s.second, b, n, ctx);
    AtSplit(p, b, g.code, h.code);
    StmtJumps(p, ls, s.second, b + |g.code|, g.next, ctx);
    StmtJumps(p, ls, s.first, b, n, ctx);
  }

  lemma {:induction false} IfJumps(p: Nodes, ls: Labels, s: Stmt, b: nat, n: nat, ctx: Context)
    requires s.If? && Ready(p, ls, s, b, n, ctx)
    ensures Done(p, ls, s, b, n, ctx)
    decreases s, 0
  {
    hide GenStmt, GenExpr, TestBranch, At, Compilable, Distinct, LabelsIn;
    StmtSim.AllowedParts(s, ctx);
    var g := GenExpr(s.c, b, n, None);
    var mid := TestBranch(s.c, g.res, b + |g.code|, g.next);
    var m := b + |g.code| + |mid|;
    var h := GenStmt(s.yes, m, g.next + 1, ctx);
    var q := m + |h.code|;
    IfUnfold(s.c, s.yes, b, n, ctx);
    IfShape(p, b, g, mid, h);
    FormCondition(p, s.c, b, n, g.next);
    CloseFrom(p, q, q + 1);
    LabelKnown(p, ls, q, g.next);
    StmtJumps(p, ls, s.yes, m, g.next + 1, ctx);
    ConditionJumps(p, ls, s.c, b, n, g.next);
    CloseFrom(p, b, m);
  }

  lemma {:induction false} IfElseJumps(p: Nodes, ls: Labels, s: Stmt, b: nat, n: nat, ctx: Context)
    requires s.IfElse? && Ready(p, ls, s, b, n, ctx)
    ensures Done(p, ls, s, b, n, ctx)
    decreases s, 0
  {
    hide GenStmt, GenExpr, TestBranch, At, Compilable, Distinct, LabelsIn;
    StmtSim.AllowedParts(s, ctx);
    var g := GenExpr(s.c, b, n, None);
    var mid := TestBranch(s.c, g.res, b + |g.code|, g.next);
    var m := b + |g.code| + |mid|;
    var h := GenStmt(s.yes, m, g.next + 2, ctx);
    var u := m + |h.code|;
    var k := GenStmt(s.no, u + 2, h.next, ctx);
    var w := u + 2 + |k.code|;
    IfElseUnfold(s.c, s.yes, s.no, b, n, ctx);
    IfElseShape(p, b, g, mid, h, k);
    FormCondition(p, s.c, b, n, g.next);
    CloseFrom(p, w, w + 1);
    LabelKnown(p, ls, w, g.next + 1);
    StmtJumps(p, ls, s.no, u + 2, h.next, ctx);
    CloseFrom(p, u + 1, u + 2);
    LabelKnown(p, ls, u + 1, g.next);
    CloseFrom(p, u, u + 1);
    StmtJumps(p, ls, s.yes, m, g.next + 2, ctx);
    ConditionJumps(p, ls, s.c, b, n, g.next);
    CloseFrom(p, b, m);
  }

  lemma {:induction false} WhileJumps(p: Nodes, ls: Labels, s: Stmt, b: nat, n: nat, ctx: Context)
    requires s.While? && Ready(p, ls, s, b, n, ctx)
    ensures Done(p, ls, s, b, n, ctx)
    decreases s, 0
  {
    hide GenStmt, GenExpr, TestBranch, At, Compilable, Distinct, LabelsIn;
    StmtSim.AllowedParts(s, ctx);
    var g := GenExpr(s.c, b + 1, n + 2, None);
    var mid := TestBranch(s.c, g.res, b + 1 + |g.code|, n + 1);
    var m := b + 1 + |g.code| + |mid|;
    var ctx' := ctx.InLoop(n + 1, n);
    var h := GenStmt(s.body, m, g.next, ctx');
    var u := m + |h.code|;
    WhileUnfold(s.c, s.body, b, n, ctx);
    WhileShape(p, b, n, g, mid, h);
    FormCondition(p, s.c, b + 1, n + 2, n + 1);
    FormStmt(p, s.body, m, g.next, ctx');
    RefsJoin5(p, b, b, b + 1, m, u, u + 2, u + 2);
    CloseFrom(p, b, u + 2);
    CloseFrom(p, u + 1, u + 2);
    CloseFrom(p, u, u + 2);
    LabelKnown(p, ls, b, n);
    LabelKnown(p, ls, u + 1, n + 1);
    StmtJumps(p, ls, s.body, m, g.next, ctx');
    ConditionJumps(p, ls, s.c, b + 1, n + 2, n + 1);
  }

  lemma {:induction false} DoJumps(p: Nodes, ls: Labels, s: Stmt, b: nat, n: nat, ctx: Context)
    requires s.DoWhile? && Ready(p, ls, s, b, n, ctx)
    ensures Done(p, ls, s, b, n, ctx)
    decreases s, 0
  {
    hide GenStmt, GenExpr, TestCode, TestOpd, At, Compilable, Distinct, LabelsIn, Closed, JumpsIn, Formed, RefsFrom, OnlyResult;
    StmtSim.AllowedParts(s, ctx);
    var ctx' := ctx.InLoop(n + 1, n);
    var h := GenStmt(s.body, b + 1, n + 2, ctx');
    var m := b + 1 + |h.code|;
    var g := GenExpr(s.c, m, h.next, None);
    var e := m + |g.code|;
    var tc, o := TestCode(s.c, g.res), TestOpd(s.c, g.res, e);
    var u := e + |tc|;
    DoUnfold(s.body, s.c, b, n, ctx);
    DoShape(p, b, n, h, g, tc, o);
    CloseSilent(p, u + 1);
    DoTestUses(p, s.c, m, h.next, n);
    FormStmt(p, s.body, b + 1, n + 2, ctx');
    CloseFormed(p, b + 1, m, n + 2, h.next);
    CloseSilent(p, b);
    LabelKnown(p, ls, u + 1, n + 1);
    LabelKnown(p, ls, b, n);
    StmtJumps(p, ls, s.body, b + 1, n + 2, ctx');
    ExprJumps(p, ls, s.c, m, h.next, None);
    OneJump(p, ls, b);
    TestCodeJumps(p, ls, s.c, g.res, e, n);
    JoinJumps(p, ls, b, b + 1, m, e, u, u);
    OneJump(p, ls, u);
    OneJump(p, ls, u + 1);
    JoinJumps(p, ls, b, u, u + 1, u + 2, u + 2, u + 2);
  }

  /** The condition of a do loop carries nothing in and only its tested value on. */
  lemma DoTestUses(p: Nodes, c: Expr, m: nat, n0: nat, n: nat)
    requires var g := GenExpr(c, m, n0, None);
             var e := m + |g.code|;
             var u := e + |TestCode(c, g.res)|;
             && At(p, m, g.code) && At(p, e, TestCode(c, g.res)) && u + 1 < |p| && Closed(p, u + 1)
             && p[u] == NBT(TestOpd(c, g.res, e), n) && p[u + 1].NLabel?
    ensures var g := GenExpr(c, m, n0, None); Closed(p, m) && OnlyResult(p, m, m + |g.code|, g.res)
  {
    hide GenExpr, TestCode, TestOpd, At, Distinct, LabelsIn;
    var g := GenExpr(c, m, n0, None);
    var e := m + |g.code|;
    var u := e + |TestCode(c, g.res)|;
    FormExpr(p, c, m, n0, None);
    TestCodeFormed(p, c, g.res, e);
    RefsJoin5(p, m, m, e, u, u + 1, u + 1, u + 1);
    CloseFrom(p, m, u + 1);
    DoUses(p, m, e, u, g.res, TestOpd(c, g.res, e));
  }

  lemma TestCodeJumps(p: Nodes, ls: Labels, c: Expr, res: Opd, m: nat, n: nat)
    requires At(p, m, TestCode(c, res))
    ensures JumpsIn(p, ls, m, m + |TestCode(c, res)|)
  {}

  lemma DoUses(p: Nodes, m: nat, e: nat, u: nat, res: Opd, o: Opd)
    requires m <= e <= u && u + 1 < |p| && p[u].NBT? && p[u].a == o && p[u + 1].NLabel? && RefsTo(p, e, u, res) && Closed(p, u + 1)
    requires o.ONode? ==> o == res || o.n >= e
    ensures OnlyResult(p, m, e, res)
  {
    forall i: nat, r: nat | e <= i < |p| && Uses(p[i], r) && m <= r < e ensures res == ONode(r) {
      if i == u { } else if i == u + 1 { }
    }
  }

  lemma ForTestJumps(p: Nodes, ls: Labels, cond: Option<Expr>, b: nat, n0: nat, n: nat)
    requires LabelsOf(p, ls) && KnownClosed(p, ls, n) && At(p, b, GenForTest(cond, b, n0, n).code) && Closed(p, b + |GenForTest(cond, b, n0, n).code|)
    ensures JumpsIn(p, ls, b, b + |GenForTest(cond, b, n0, n).code|)
  {
    hide GenExpr, At, TestBranch;
    if cond.Some? {
      var g := GenExpr(cond.value, b, n0, None);
      AtSplit(p, b, g.code, TestBranch(cond.value, g.res, b + |g.code|, n));
      ConditionJumps(p, ls, cond.value, b, n0, n);
    }
  }

  lemma {:induction false} ForJumps(p: Nodes, ls: Labels, s: Stmt, b: nat, n: nat, ctx: Context)
    requires s.For? && Ready(p, ls, s, b, n, ctx)
    ensures Done(p, ls, s, b, n, ctx)
    decreases s, 0
  {
    hide GenStmt, GenSimple, GenForTest, At, Compilable, Distinct, LabelsIn, Closed, JumpsIn, Formed;
    StmtSim.AllowedParts(s, ctx);
    var i := GenSimple(s.init, b, n + 3);
    var m := b + |i.code|;
    var g := GenForTest(s.cond, m + 1, i.next, n + 1);
    var u := m + 1 + |g.code|;
    var ctx' := ctx.InLoop(n + 1, n + 2);
    var h := GenStmt(s.body, u, g.next, ctx');
    var w := u + |h.code|;
    var j := GenSimple(s.incr, w + 1, h.next);
    var z := w + 1 + |j.code|;
    ForUnfold(s.init, s.cond, s.incr, s.body, b, n, ctx);
    ForShape(p, b, n, i, g, h, j);
    FormSimple(p, s.init, b, n + 3);
    FormForTest(p, s.cond, m + 1, i.next, n + 1);
    FormStmt(p, s.body, u, g.next, ctx');
    FormSimple(p, s.incr, w + 1, h.next);
    CloseSilent(p, z + 1);
    LabelKnown(p, ls, z + 1, n + 1);
    CloseSilent(p, z);
    CloseFormed(p, w + 1, z, h.next, j.next);
    CloseSilent(p, w);
    LabelKnown(p, ls, w, n + 2);
    CloseFormed(p, u, w, g.next, h.next);
    CloseFormed(p, m + 1, u, i.next, g.next);
    CloseSilent(p, m);
    LabelKnown(p, ls, m, n);
    CloseFormed(p, b, m, n + 3, i.next);
    SimpleJumps(p, ls, s.init, b, n + 3);
    ForTestJumps(p, ls, s.cond, m + 1, i.next, n + 1);
    StmtJumps(p, ls, s.body, u, g.next, ctx');
    SimpleJumps(p, ls, s.incr, w + 1, h.next);
    OneJump(p, ls, m);
    JoinJumps(p, ls, b, m, m + 1, u, w, w);
    OneJump(p, ls, w);
    OneJump(p, ls, z);
    OneJump(p, ls, z + 1);
    JoinJumps(p, ls, b, w, w + 1, z, z + 1, z + 2);
  }

  lemma OptionJumps(p: Nodes, ls: Labels, e: Option<Expr>, b: nat, n: nat)
    requires LabelsOf(p, ls) && At(p, b, GenOption(e, b, n).code)
    requires var g := GenOption(e, b, n); OnlyResult(p, b, b + |g.code|, g.res)
    ensures JumpsIn(p, ls, b, b + |GenOption(e, b, n).code|)
  {
    if e.Some? { ExprJumps(p, ls, e.value, b, n, None); }
  }

  lemma {:induction false} ForeachJumps(p: Nodes, ls: Labels, s: Stmt, b: nat, n: nat, ctx: Context)
    requires s.Foreach? && Ready(p, ls, s, b, n, ctx)
    ensures Done(p, ls, s, b, n, ctx)
    decreases s, 0
  {
    hide GenStmt, GenExpr, GenOption, At, Compilable, Distinct, LabelsIn, Closed, JumpsIn, Formed, RefsFrom, OnlyResult, LabelsOf;
    StmtSim.AllowedParts(s, ctx);
    var g := GenExpr(s.e, b, n + 3, None);
    var b1 := b + |g.code|;
    var k := GenOption(s.hi, b1, g.next);
    var m := b1 + |k.code|;
    var ctx' := ctx.InLoop(n + 2, n).(fors := ctx.fors + 1);
    var h := GenStmt(s.body, m + 1, k.next, ctx');
    var u := m + 1 + |h.code|;
    var hiOpd := if s.hi.None? then None else Some(k.res);
    ForeachUnfold(s.x, s.e, s.hi, s.body, b, n, ctx);
    ForeachShape(p, b, n, s.x, g, hiOpd, k, h);
    CloseSilent(p, u + 3);
    CloseSilent(p, u + 2);
    CloseSilent(p, u + 1);
    CloseSilent(p, u);
    LabelKnown(p, ls, u + 3, n + 1);
    LabelKnown(p, ls, u + 2, n + 2);
    LabelKnown(p, ls, u, n);
    StmtJumps(p, ls, s.body, m + 1, k.next, ctx');
    ForeachOperands(p, s.x, s.e, s.hi, b, n + 3, n + 1);
    ExprJumps(p, ls, s.e, b, n + 3, None);
    OptionJumps(p, ls, s.hi, b1, g.next);
    ForeachHead(p, s.x, s.e, s.hi, b, n + 3, n + 1);
    CloseFormed(p, b, m + 1, n + 3, k.next);
    OneJump(p, ls, m);
    JoinJumps(p, ls, b, b1, m, m + 1, u, u);
    EachEnd(p, ls, u);
    JoinJumps(p, ls, b, u, u + 4, u + 4, u + 4, u + 4);
  }

  lemma EachEnd(p: Nodes, ls: Labels, u: nat)
    requires u + 3 < |p| && p[u].NLabel? && p[u + 1].NNext? && p[u + 2].NLabel? && p[u + 3].NLabel?
    ensures JumpsIn(p, ls, u, u + 4)
  {}

  /** The collection and the upper bound of a foreach are used by the FOREACH node only. */
  lemma ForeachOperands(p: Nodes, x: nat, e: Expr, hi: Option<Expr>, b: nat, n0: nat, n: nat)
    requires var g := GenExpr(e, b, n0, None);
             var k := GenOption(hi, b + |g.code|, g.next);
             var m := b + |g.code| + |k.code|;
             && At(p, b, g.code) && At(p, b + |g.code|, k.code) && Closed(p, m + 1)
             && m < |p| && p[m] == NForeach(x, g.res, if hi.None? then None else Some(k.res), n)
    ensures var g := GenExpr(e, b, n0, None);
            var k := GenOption(hi, b + |g.code|, g.next);
            OnlyResult(p, b, b + |g.code|, g.res) && OnlyResult(p, b + |g.code|, b + |g.code| + |k.code|, k.res)
  {
    hide GenExpr, GenOption, At, Distinct, LabelsIn;
    var g := GenExpr(e, b, n0, None);
    var k := GenOption(hi, b + |g.code|, g.next);
    FormExpr(p, e, b, n0, None);
    FormOption(p, hi, b + |g.code|, g.next);
    ForeachUses(p, b, b + |g.code|, b + |g.code| + |k.code|, g.res, k.res, hi.Some?);
  }

  lemma ForeachUses(p: Nodes, b: nat, b1: nat, m: nat, res: Opd, res': Opd, ranged: bool)
    requires b <= b1 <= m < |p| && p[m].NForeach? && p[m].a == res && p[m].hi == (if ranged then Some(res') else None)
    requires Closed(p, m + 1) && RefsFrom(p, b1, b1, m) && (res.ONode? ==> res.n < b1) && (res'.ONode? ==> res'.n >= b1)
    ensures OnlyResult(p, b, b1, res) && OnlyResult(p, b1, m, res')
  {
    forall i: nat, r: nat | b1 <= i < |p| && Uses(p[i], r) && b <= r < b1 ensures res == ONode(r) {
      if i == m { }
    }
    forall i: nat, r: nat | m <= i < |p| && Uses(p[i], r) && b1 <= r < m ensures res' == ONode(r) {
      if i == m { }
    }
  }

  lemma {:induction false} CompoundJumps(p: Nodes, ls: Labels, s: Stmt, b: nat, n: nat, ctx: Context)
    requires s.Compound? && Ready(p, ls, s, b, n, ctx)
    ensures Done(p, ls, s, b, n, ctx)
    decreases s, 0
  {
    hide GenStmt, ClearCode, At, Compilable, Distinct, LabelsIn;
    StmtSim.AllowedParts(s, ctx);
    var ctx' := ctx.(scope := ctx.scope + 1);
    var m := b + 1 + |ClearCode(s.inits)|;
    var h := GenStmt(s.body, m, n, ctx');
    var u := m + |h.code|;
    CompoundUnfold(s.inits, s.body, b, n, ctx);
    CompoundShape(p, b, ClearCode(s.inits), h);
    ClearFormed(p, s.inits, b + 1);
    ClearJumps(p, ls, s.inits, b + 1);
    CloseFrom(p, u, u + 1);
    StmtJumps(p, ls, s.body, m, n, ctx');
    CloseFrom(p, b + 1, m);
    CloseFrom(p, b, b + 1);
  }

  lemma {:induction false} ClearJumps(p: Nodes, ls: Labels, xs: seq<nat>, b: nat)
    requires At(p, b, ClearCode(xs))
    ensures JumpsIn(p, ls, b, b + |ClearCode(xs)|)
    decreases |xs|
  {
    if xs != [] {
      AtSplit(p, b, [NMov(MVar(xs[0]), OImm(Nothing))], ClearCode(xs[1..]));
      ClearJumps(p, ls, xs[1..], b + 1);
    }
  }

  lemma {:induction false} TryJumps(p: Nodes, ls: Labels, s: Stmt, b: nat, n: nat, ctx: Context)
    requires s.TryCatch? && Ready(p, ls, s, b, n, ctx)
    ensures Done(p, ls, s, b, n, ctx)
    decreases s, 0
  {
    hide GenStmt, At, Compilable, Distinct, LabelsIn;
    StmtSim.AllowedParts(s, ctx);
    var ctx' := ctx.(tries := ctx.tries + 1);
    var h := GenStmt(s.body, b + 1, n + 2, ctx');
    var u := b + 1 + |h.code|;
    var k := GenStmt(s.handler, u + 3, h.next, ctx);
    var w := u + 3 + |k.code|;
    TryUnfold(s.body, s.x, s.handler, b, n, ctx);
    TryShape(p, b, n, s.x, h, k);
    CloseFrom(p, w, w + 1);
    LabelKnown(p, ls, w, n + 1);
    StmtJumps(p, ls, s.handler, u + 3, h.next, ctx);
    CloseFrom(p, u + 1, u + 3);
    LabelKnown(p, ls, u + 1, n);
    CloseFrom(p, u, u + 1);
    StmtJumps(p, ls, s.body, b + 1, n + 2, ctx');
    CloseFrom(p, b, b + 1);
  }

  lemma {:induction false} ReturnJumps(p: Nodes, ls: Labels, s: Stmt, b: nat, n: nat, ctx: Context)
    requires s.Return? && Ready(p, ls, s, b, n, ctx)
    ensures Done(p, ls, s, b, n, ctx)
  {
    hide GenStmt, GenOption, At, Distinct, LabelsIn;
    var g := GenOption(s.result, b, n);
    var pop := ReturnPop(ctx);
    var m := b + |g.code|;
    var e := m + |pop|;
    ReturnUnfold(s.result, b, n, ctx);
    ReturnShape(p, b, g, pop, if s.result.None? then NRet else NRetVal(g.res));
    FormReturn(p, s, b, n, ctx);
    CloseFrom(p, b, e + 1);
    if pop != [] { AtOne(p, m, pop[0]); }
    forall i: nat, r: nat | m <= i < |p| && Uses(p[i], r) && b <= r < m ensures g.res == ONode(r) {
      if i == e { } else if i == m { }
    }
    OptionJumps(p, ls, s.result, b, n);
  }

  lemma {:induction false} ThrowJumps(p: Nodes, ls: Labels, s: Stmt, b: nat, n: nat, ctx: Context)
    requires s.Throw? && Ready(p, ls, s, b, n, ctx)
    ensures Done(p, ls, s, b, n, ctx)
  {
    hide GenExpr, At, Distinct, LabelsIn;
    var g := GenExpr(s.e, b, n, None);
    var m := b + |g.code|;
    AtLast(p, b, g.code, NThrow(g.res));
    FormThrow(p, s, b, n, ctx);
    CloseFrom(p, b, m + 1);
    forall i: nat, r: nat | m <= i < |p| && Uses(p[i], r) && b <= r < m ensures g.res == ONode(r) {
      if i == m { }
    }
    ExprJumps(p, ls, s.e, b, n, None);
  }

  lemma {:induction false} LeaveJumps(p: Nodes, ls: Labels, s: Stmt, b: nat, n: nat, ctx: Context)
    requires (s.Break? || s.Continue?) && Ready(p, ls, s, b, n, ctx)
    ensures Done(p, ls, s, b, n, ctx)
  {
    var t := if s.Break? then ctx.brk else ctx.cont;
    var code := LeaveCode(ctx, t, s.Break?);
    AtTwo(p, b, code[0], code[1]);
    CloseFrom(p, b, b + 2);
  }

  lemma {:induction false} DoSimpleJumps(p: Nodes, ls: Labels, s: Stmt, b: nat, n: nat, ctx: Context)
    requires s.Do? && Ready(p, ls, s, b, n, ctx)
    ensures Done(p, ls, s, b, n, ctx)
  {
    hide GenSimple, At, Distinct, LabelsIn;
    FormSimple(p, s.simple, b, n);
    CloseFrom(p, b, b + |GenSimple(s.simple, b, n).code|);
    SimpleJumps(p, ls, s.simple, b, n);
  }

  // ----- switch -----

  lemma {:induction false} BodiesJumps(p: Nodes, ls: Labels, cs: Cases, labels: seq<Option<nat>>, dflt: nat, b: nat, n: nat, ctx: Context)
    requires |labels| == CountCases(cs) && LabelsOf(p, ls) && At(p, b, GenBodies(cs, labels, dflt, b, n, ctx).code)
    requires ctx.brk.Some? && CompilableCases(cs, ctx.cont.Some?, ctx.scope, ctx.tries, ctx.fors)
    requires TargetsClosed(p, ls, ctx) && Closed(p, b + |GenBodies(cs, labels, dflt, b, n, ctx).code|)
    ensures JumpsIn(p, ls, b, b + |GenBodies(cs, labels, dflt, b, n, ctx).code|) && Closed(p, b)
    decreases cs, 2
  {
    if !cs.NoCases? {
      ClauseJumps(p, ls, cs, labels, dflt, b, n, ctx);
    }
  }

  lemma {:induction false} ClauseJumps(p: Nodes, ls: Labels, cs: Cases, labels: seq<Option<nat>>, dflt: nat, b: nat, n: nat, ctx: Context)
    requires !cs.NoCases?
    requires |labels| == CountCases(cs) && LabelsOf(p, ls) && At(p, b, GenBodies(cs, labels, dflt, b, n, ctx).code)
    requires ctx.brk.Some? && CompilableCases(cs, ctx.cont.Some?, ctx.scope, ctx.tries, ctx.fors)
    requires TargetsClosed(p, ls, ctx) && Closed(p, b + |GenBodies(cs, labels, dflt, b, n, ctx).code|)
    ensures JumpsIn(p, ls, b, b + |GenBodies(cs, labels, dflt, b, n, ctx).code|) && Closed(p, b)
    decreases cs, 1
  {
    hide GenStmt, GenBodies, At, Compilable, Closed;
    StmtSim.BodiesUnfold(cs, labels, dflt, b, n, ctx);
    var g := GenStmt(cs.body, b + 1, n, ctx);
    var m := b + 1 + |g.code|;
    var h := GenBodies(cs.rest, labels[1..], dflt, m, g.next, ctx);
    ClauseShape(p, b, ClauseLabel(cs, labels, dflt), g, h);
    BodiesJumps(p, ls, cs.rest, labels[1..], dflt, m, g.next, ctx);
    StmtJumps(p, ls, cs.body, b + 1, n, ctx);
    CloseSilent(p, b);
  }

  /** The labels of the comparisons lead to closed positions. */
  ghost predicate LabelsClosed(p: Nodes, ls: Labels, labels: seq<Option<nat>>) {
    forall i :: 0 <= i < |labels| && labels[i].Some? ==> KnownClosed(p, ls, labels[i].value)
  }

  lemma {:induction false} TestsJumps(p: Nodes, ls: Labels, cs: Cases, o: Opd, b: nat, n: nat)
    requires LabelsOf(p, ls) && At(p, b, GenTests(cs, o, b, n).code) && (o.ONode? ==> o.n < b && IsValue(p, o.n))
    requires LabelsClosed(p, ls, GenTests(cs, o, b, n).labels) && Closed(p, b + |GenTests(cs, o, b, n).code|)
    ensures JumpsIn(p, ls, b, b + |GenTests(cs, o, b, n).code|)
    decreases cs, 1
  {
    match cs
    case NoCases =>
    case Default(_, rest) =>
      hide At, GenExpr, JumpsIn, Closed, KnownClosed;
      var g := GenTests(rest, o, b, n);
      assert forall i :: 0 <= i < |g.labels| ==> g.labels[i] == GenTests(cs, o, b, n).labels[i + 1];
      TestsJumps(p, ls, rest, o, b, n);
    case Case(op, e, body, rest) =>
      TestJumps(p, ls, op, e, body, rest, o, b, n);
  }

  lemma {:induction false} TestJumps(p: Nodes, ls: Labels, op: CaseOp, e: Expr, body: Stmt, rest: Cases, o: Opd, b: nat, n: nat)
    requires var cs := Case(op, e, body, rest);
             && LabelsOf(p, ls) && At(p, b, GenTests(cs, o, b, n).code) && (o.ONode? ==> o.n < b && IsValue(p, o.n))
             && LabelsClosed(p, ls, GenTests(cs, o, b, n).labels) && Closed(p, b + |GenTests(cs, o, b, n).code|)
    ensures JumpsIn(p, ls, b, b + |GenTests(Case(op, e, body, rest), o, b, n).code|)
    decreases rest, 2
  {
    hide GenExpr, GenTests, At, KnownClosed, LabelsClosed, Distinct, LabelsIn, JumpsIn, Closed, OnlyResult, RefsTo, RefsFrom;
    var cs := Case(op, e, body, rest);
    var c := GenExpr(e, b, n + 1, None);
    var m := b + |c.code|;
    var g := GenTests(rest, o, m + 2, c.next);
    var end := m + 2 + |g.code|;
    StmtSim.TestsUnfold(op, e, body, rest, o, b, n);
    TestShape(p, op, o, b, n, c, g);
    var labels := GenTests(cs, o, b, n).labels;
    assert labels[1..] == g.labels;
    ClosedTail(p, ls, labels);
    FormExpr(p, e, b, n + 1, None);
    FormTests(p, rest, o, m + 2, c.next);
    TestUses(p, o, b, m, end, c.res);
    ExprJumps(p, ls, e, b, n + 1, None);
    TestsJumps(p, ls, rest, o, m + 2, c.next);
    TestJoined(p, ls, b, m, end, n);
  }

  lemma ClosedTail(p: Nodes, ls: Labels, labels: seq<Option<nat>>)
    requires labels != [] && LabelsClosed(p, ls, labels)
    ensures LabelsClosed(p, ls, labels[1..]) && (labels[0].Some? ==> KnownClosed(p, ls, labels[0].value))
  {
    hide KnownClosed;
    forall i | 0 <= i < |labels[1..]| && labels[1..][i].Some? ensures KnownClosed(p, ls, labels[1..][i].value) {
      assert labels[1..][i] == labels[i + 1];
    }
  }

  lemma TestJoined(p: Nodes, ls: Labels, b: nat, m: nat, end: nat, n: nat)
    requires b <= m && m + 2 <= end && m + 1 < |p| && p[m].NBin? && p[m + 1].NBT? && p[m + 1].l == n && KnownClosed(p, ls, n)
    requires JumpsIn(p, ls, b, m) && JumpsIn(p, ls, m + 2, end)
    ensures JumpsIn(p, ls, b, end)
  {
    ClosedIsOk(p, ls, m + 1, n);
    OneJump(p, ls, m);
    OneJump(p, ls, m + 1);
    JoinJumps(p, ls, b, m, m + 1, m + 2, end, end);
  }

  lemma ClosedIsOk(p: Nodes, ls: Labels, i: nat, l: nat)
    requires KnownClosed(p, ls, l)
    ensures Known(p, ls, l) && JumpOk(p, i, ls[l])
  {}

  lemma TestUses(p: Nodes, o: Opd, b: nat, m: nat, end: nat, res: Opd)
    requires b <= m && m + 2 <= end <= |p| && p[m].NBin? && p[m].a == o && p[m].b == res && p[m + 1].NBT? && p[m + 1].a == ONode(m)
    requires RefsTo(p, m + 2, end, o) && Closed(p, end) && (o.ONode? ==> o.n < b)
    ensures OnlyResult(p, b, m, res)
  {
    forall i: nat, r: nat | m <= i < |p| && Uses(p[i], r) && b <= r < m ensures res == ONode(r) {
      if i == m { } else if i == m + 1 { }
    }
  }

  lemma {:induction false} AllLabelsClosed(p: Nodes, ls: Labels, cs: Cases, o: Opd, b0: nat, n0: nat, dflt: nat, b: nat, n: nat, ctx: Context)
    requires LabelsOf(p, ls) && At(p, b, GenBodies(cs, GenTests(cs, o, b0, n0).labels, dflt, b, n, ctx).code)
    requires ctx.brk.Some? && CompilableCases(cs, ctx.cont.Some?, ctx.scope, ctx.tries, ctx.fors) && TargetsClosed(p, ls, ctx)
    requires Closed(p, b + |GenBodies(cs, GenTests(cs, o, b0, n0).labels, dflt, b, n, ctx).code|)
    ensures LabelsClosed(p, ls, GenTests(cs, o, b0, n0).labels)
    ensures HasDefault(cs) ==> KnownClosed(p, ls, dflt)
    decreases cs, 5
  {
    hide GenBodies, GenTests, At, Closed, CompilableCases, TargetsClosed;
    var labels := GenTests(cs, o, b0, n0).labels;
    forall i | 0 <= i < |labels| && labels[i].Some? ensures KnownClosed(p, ls, labels[i].value) {
      ClauseClosed(p, ls, cs, o, b0, n0, dflt, b, n, ctx, i);
      StmtSim.LabelKinds(cs, o, b0, n0, i);
      assert labels[i..][0] == labels[i];
    }
    if HasDefault(cs) {
      var i := StmtSim.DefaultAt(cs);
      ClauseClosed(p, ls, cs, o, b0, n0, dflt, b, n, ctx, i);
    }
  }

  lemma {:induction false} ClauseClosed(p: Nodes, ls: Labels, cs: Cases, o: Opd, b0: nat, n0: nat, dflt: nat, b: nat, n: nat, ctx: Context, i: nat)
    requires LabelsOf(p, ls) && At(p, b, GenBodies(cs, GenTests(cs, o, b0, n0).labels, dflt, b, n, ctx).code) && i < CountCases(cs)
    requires ctx.brk.Some? && CompilableCases(cs, ctx.cont.Some?, ctx.scope, ctx.tries, ctx.fors) && TargetsClosed(p, ls, ctx)
    requires Closed(p, b + |GenBodies(cs, GenTests(cs, o, b0, n0).labels, dflt, b, n, ctx).code|)
    ensures var labels := GenTests(cs, o, b0, n0).labels;
            KnownClosed(p, ls, ClauseLabel(StmtSim.DropCases(cs, i), labels[i..], dflt))
    decreases cs, 4
  {
    hide GenBodies, GenTests, At, Closed, CompilableCases, TargetsClosed;
    var labels := GenTests(cs, o, b0, n0).labels;
    var b', n' := StmtSim.BodiesFrom(p, cs, labels, dflt, b, n, ctx, i);
    StmtSim.AllowedFrom(cs, i, ctx.cont.Some?, ctx.scope, ctx.tries, ctx.fors);
    StmtSim.DropSmaller(cs, i);
    LabelKnown(p, ls, b', ClauseLabel(StmtSim.DropCases(cs, i), labels[i..], dflt));
    BodiesJumps(p, ls, StmtSim.DropCases(cs, i), labels[i..], dflt, b', n', ctx);
  }

  lemma {:induction false} SwitchJumps(p: Nodes, ls: Labels, s: Stmt, b: nat, n: nat, ctx: Context)
    requires s.Switch? && Ready(p, ls, s, b, n, ctx)
    ensures Done(p, ls, s, b, n, ctx)
    decreases s, 0
  {
    hide GenStmt, GenExpr, GenTests, GenBodies, At, CompilableCases, Closed, JumpsIn, Distinct, LabelsIn, RefsFrom, OnlyResult, LabelSet, Different;
    StmtSim.AllowedSwitch(s.e, s.cases, ctx);
    var ctx' := ctx.InSwitch(n);
    var g := GenExpr(s.e, b, n + 1, None);
    var b0 := b + |g.code|;
    var t := GenTests(s.cases, g.res, b0, g.next);
    var m := b0 + |t.code|;
    var dflt := if HasDefault(s.cases) then t.next else n;
    var n' := if HasDefault(s.cases) then t.next + 1 else t.next;
    var h := GenBodies(s.cases, t.labels, dflt, m + 1, n', ctx');
    var q := m + 1 + |h.code|;
    SwitchUnfold(s.e, s.cases, b, n, ctx);
    SwitchShape(p, b, n, g, t, dflt, h);
    CloseSilent(p, q);
    LabelKnown(p, ls, q, n);
    AllLabelsClosed(p, ls, s.cases, g.res, b0, g.next, dflt, m + 1, n', ctx');
    BodiesJumps(p, ls, s.cases, t.labels, dflt, m + 1, n', ctx');
    CloseSilent(p, m);
    ClosedIsOk(p, ls, m, dflt);
    FormExpr(p, s.e, b, n + 1, None);
    TestsJumps(p, ls, s.cases, g.res, b0, g.next);
    FormTests(p, s.cases, g.res, b0, g.next);
    SwitchUses(p, b, b0, m, g.res);
    ExprJumps(p, ls, s.e, b, n + 1, None);
    OneJump(p, ls, m);
    OneJump(p, ls, q);
    JoinJumps(p, ls, b, b0, m, m + 1, q, q + 1);
  }

  lemma SwitchUses(p: Nodes, b: nat, b0: nat, m: nat, res: Opd)
    requires b <= b0 <= m && RefsFrom(p, b, b, b0) && RefsTo(p, b0, m, res) && Closed(p, m) && (res.ONode? ==> b <= res.n < b0)
    ensures OnlyResult(p, b, b0, res) && Closed(p, b)
  {}

  // ----- all statements -----

  lemma {:induction false} StmtJumps(p: Nodes, ls: Labels, s: Stmt, b: nat, n: nat, ctx: Context)
    requires Ready(p, ls, s, b, n, ctx)
    ensures Done(p, ls, s, b, n, ctx)
    decreases s, 1
  {
    hide Ready, Done;
    match s
    case Do(sm) => DoSimpleJumps(p, ls, s, b, n, ctx);
    case Seq(_, _) => SeqJumps(p, ls, s, b, n, ctx);
    case If(_, _) => IfJumps(p, ls, s, b, n, ctx);
    case IfElse(_, _, _) => IfElseJumps(p, ls, s, b, n, ctx);
    case While(_, _) => WhileJumps(p, ls, s, b, n, ctx);
    case DoWhile(_, _) => DoJumps(p, ls, s, b, n, ctx);
    case For(_, _, _, _) => ForJumps(p, ls, s, b, n, ctx);
    case Foreach(_, _, _, _) => ForeachJumps(p, ls, s, b, n, ctx);
    case Compound(_, _) => CompoundJumps(p, ls, s, b, n, ctx);
    case Break => LeaveJumps(p, ls, s, b, n, ctx);
    case Continue => LeaveJumps(p, ls, s, b, n, ctx);
    case Return(_) => ReturnJumps(p, ls, s, b, n, ctx);
    case TryCatch(_, _, _) => TryJumps(p, ls, s, b, n, ctx);
    case Throw(_) => ThrowJumps(p, ls, s, b, n, ctx);
    case Switch(_, _) => SwitchJumps(p, ls, s, b, n, ctx);
  }
}

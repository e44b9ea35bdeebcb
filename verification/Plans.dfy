/** Code from the compiler nests properly: a plan of depths for every program. */
module Plans {
  import opened Values
  import opened Source
  import opened IntermediateForm
  import opened NodeMachine
  import opened StmtShape
  import Calls
  import ExprSim
  import Jumps
  import Levels
  import N = Nesting
  import NodeForm
  import StmtSim

  type Depths = seq<N.Depth>

  const OUTSIDE := N.Depth([], [])

  ghost predicate On(ds: Depths, q: nat, d: N.Depth) {
    N.At([ds], 0, q, d)
  }

  /** Try blocks end in loops that are still running, and the handler is where the plan says. */
  ghost predicate Sound(ds: Depths, d: N.Depth) {
    N.Ordered(d) && (d.marks != [] ==> On(ds, d.marks[0].catchAddr, N.AtHandler(d)))
  }

  ghost predicate Goes(ls: Labels, ds: Depths, l: nat, d: N.Depth) {
    On(ds, Lookup(ls, l), d)
  }

  ghost predicate KeepsAt(p: Nodes, ls: Labels, ds: Depths, i: nat)
    requires i < |p|
  {
    i < |ds| && N.Keeps([ds], 0, i, Calls.Plain(Translate(p, ls, i)))
  }

  ghost predicate KeepsIn(p: Nodes, ls: Labels, ds: Depths, b: nat, e: nat) {
    forall i: nat :: b <= i < e && i < |p| ==> KeepsAt(p, ls, ds, i)
  }

  // ----- single nodes -----

  /** Nodes that go on to the next one and enter and leave nothing. */
  predicate Passes(x: Node) {
    x.NTemp? || x.NUn? || x.NBin? || x.NMov? || x.NLabel? || x.NPushScope? || x.NCatch?
  }

  predicate JumpsTo(x: Node, l: nat) {
    x == NB(l) || (x.NBT? && x.l == l) || (x.NBF? && x.l == l)
  }

  lemma PassKeeps(p: Nodes, ls: Labels, ds: Depths, i: nat, d: N.Depth)
    requires i < |p| && Passes(p[i]) && On(ds, i, d) && On(ds, i + 1, d) && Sound(ds, d)
    ensures KeepsAt(p, ls, ds, i)
  {
    hide N.Ordered, N.AtHandler, Resolve, ResolveDest, ResolveMove;
  }

  lemma JumpKeeps(p: Nodes, ls: Labels, ds: Depths, i: nat, l: nat, d: N.Depth)
    requires i < |p| && JumpsTo(p[i], l) && On(ds, i, d) && Goes(ls, ds, l, d) && (p[i].NB? || On(ds, i + 1, d)) && Sound(ds, d)
    ensures KeepsAt(p, ls, ds, i)
  {
    hide N.Ordered, N.AtHandler, Resolve;
  }

  // ----- expressions -----

  /** Node i passes on or jumps within lo .. hi or to the label out. */
  ghost predicate Stays(p: Nodes, ls: Labels, lo: nat, hi: nat, out: Option<nat>, i: nat)
    requires i < |p|
  {
    Passes(p[i]) || exists l: nat :: JumpsTo(p[i], l) && (out == Some(l) || (Jumps.Known(p, ls, l) && lo <= ls[l] <= hi))
  }

  ghost predicate Inner(p: Nodes, ls: Labels, lo: nat, hi: nat, out: Option<nat>, b: nat, e: nat) {
    forall i: nat :: b <= i < e && i < |p| ==> Stays(p, ls, lo, hi, out, i)
  }

  lemma Widen(p: Nodes, ls: Labels, lo: nat, hi: nat, out: Option<nat>, lo': nat, hi': nat, out': Option<nat>, b: nat, e: nat)
    requires Inner(p, ls, lo, hi, out, b, e) && lo' <= lo && hi <= hi'
    requires out == out' || (out.Some? && Jumps.Known(p, ls, out.value) && lo' <= ls[out.value] <= hi')
    ensures Inner(p, ls, lo', hi', out', b, e)
  {
    hide Passes, JumpsTo;
    forall i: nat | b <= i < e && i < |p| ensures Stays(p, ls, lo', hi', out', i) {
      assert Stays(p, ls, lo, hi, out, i);
    }
  }

  lemma PassesInner(p: Nodes, ls: Labels, lo: nat, hi: nat, out: Option<nat>, i: nat)
    requires i < |p| && Passes(p[i])
    ensures Inner(p, ls, lo, hi, out, i, i + 1)
  {}

  lemma JoinInner(p: Nodes, ls: Labels, lo: nat, hi: nat, out: Option<nat>, a: nat, b: nat, c: nat, d: nat, e: nat, f: nat)
    requires a <= b <= c <= d <= e <= f
    requires Inner(p, ls, lo, hi, out, a, b) && Inner(p, ls, lo, hi, out, b, c) && Inner(p, ls, lo, hi, out, c, d)
    requires Inner(p, ls, lo, hi, out, d, e) && Inner(p, ls, lo, hi, out, e, f)
    ensures Inner(p, ls, lo, hi, out, a, f)
  {}

  /** A stretch of nodes at one depth. */
  ghost predicate Level(ds: Depths, b: nat, e: nat, d: N.Depth) {
    forall i: nat :: b <= i <= e ==> On(ds, i, d)
  }

  /** Code that stays inside, at one depth. */
  lemma LevelKeeps(p: Nodes, ls: Labels, ds: Depths, b: nat, e: nat, out: Option<nat>, d: N.Depth)
    requires Inner(p, ls, b, e, out, b, e) && Sound(ds, d) && (out.Some? ==> Goes(ls, ds, out.value, d)) && Level(ds, b, e, d)
    ensures KeepsIn(p, ls, ds, b, e)
  {
    hide KeepsAt, Sound, Passes, JumpsTo, On;
    forall i: nat | b <= i < e && i < |p| ensures KeepsAt(p, ls, ds, i) {
      assert Stays(p, ls, b, e, out, i) && On(ds, i, d) && On(ds, i + 1, d);
      if Passes(p[i]) {
        PassKeeps(p, ls, ds, i, d);
      } else {
        var l: nat :| JumpsTo(p[i], l) && (out == Some(l) || (Jumps.Known(p, ls, l) && b <= ls[l] <= e));
        assert Goes(ls, ds, l, d);
        JumpKeeps(p, ls, ds, i, l, d);
      }
    }
  }

  lemma TestInner(p: Nodes, ls: Labels, c: Expr, res: Opd, m: nat, n: nat, lo: nat, hi: nat)
    requires At(p, m, TestBranch(c, res, m, n))
    ensures Inner(p, ls, lo, hi, Some(n), m, m + |TestBranch(c, res, m, n)|)
  {
    AtLast(p, m, TestCode(c, res), NBF(TestOpd(c, res, m), n));
    assert JumpsTo(p[m + |TestCode(c, res)|], n);
  }

  lemma MidInner(p: Nodes, ls: Labels, e: Expr, l: Gen, b: nat, n: nat, lo: nat, hi: nat)
    requires (e.And? || e.Or?) && l == GenExpr(e.a, b + 1, n + 1, None)
    requires var mid := if e.And? then AndMid(e.a, l, b, n) else OrMid(l, b, n); At(p, b + 1 + |l.code|, mid)
    ensures var mid := if e.And? then AndMid(e.a, l, b, n) else OrMid(l, b, n);
            var m := b + 1 + |l.code|;
            Inner(p, ls, lo, hi, Some(n), m, m + |mid|)
  {
    hide GenExpr;
    var m := b + 1 + |l.code|;
    if e.And? {
      var tc := TestCode(e.a, l.res);
      AtLast(p, m, [NMov(MNode(b), l.res)] + tc, NBF(TestOpd(e.a, l.res, m + 1), n));
      AtSplit(p, m, [NMov(MNode(b), l.res)], tc);
      assert JumpsTo(p[m + 1 + |tc|], n);
    } else {
      AtTwo(p, m, NMov(MNode(b), l.res), NBT(l.res, n));
      assert JumpsTo(p[m + 1], n);
    }
  }

  lemma {:induction false} LogicalInner(p: Nodes, ls: Labels, e: Expr, b: nat, n: nat, d: Option<nat>, out: Option<nat>)
    requires (e.And? || e.Or?) && LabelsOf(p, ls) && At(p, b, GenExpr(e, b, n, d).code)
    ensures var q := b + |GenExpr(e, b, n, d).code|; Inner(p, ls, b, q, out, b, q)
    decreases e, 0
  {
    hide GenExpr, AndMid, OrMid, At, Inner, LabelsOf, Passes;
    var l := GenExpr(e.a, b + 1, n + 1, None);
    var mid := if e.And? then AndMid(e.a, l, b, n) else OrMid(l, b, n);
    var m := b + 1 + |l.code|;
    var r := GenExpr(e.b, m + |mid|, l.next, None);
    if e.And? { ExprSim.AndUnfold(e.a, e.b, b, n, d); } else { ExprSim.OrUnfold(e.a, e.b, b, n, d); }
    ExprSim.LogicalShape(p, b, n, d, l, mid, r);
    var q := m + |mid| + |r.code|;
    Jumps.LabelKnown(p, ls, q + 1, n);
    ExprInner(p, ls, e.a, b + 1, n + 1, None, out);
    Widen(p, ls, b + 1, m, out, b, q + 2, out, b + 1, m);
    MidInner(p, ls, e, l, b, n, b, q + 2);
    Widen(p, ls, b, q + 2, Some(n), b, q + 2, out, m, m + |mid|);
    ExprInner(p, ls, e.b, m + |mid|, l.next, None, out);
    Widen(p, ls, m + |mid|, q, out, b, q + 2, out, m + |mid|, q);
    Ends(p, ls, b, q + 2, out, b, q);
    JoinInner(p, ls, b, q + 2, out, b, b + 1, m, m + |mid|, q, q + 2);
  }

  lemma Ends(p: Nodes, ls: Labels, lo: nat, hi: nat, out: Option<nat>, b: nat, q: nat)
    requires b <= q && q + 1 < |p| && p[b].NTemp? && p[q].NMov? && p[q + 1].NLabel?
    ensures Inner(p, ls, lo, hi, out, b, b + 1) && Inner(p, ls, lo, hi, out, q, q + 2)
  {}

  lemma {:induction false} CondInner(p: Nodes, ls: Labels, e: Expr, b: nat, n: nat, d: Option<nat>, out: Option<nat>)
    requires e.Cond? && LabelsOf(p, ls) && At(p, b, GenExpr(e, b, n, d).code)
    ensures var q := b + |GenExpr(e, b, n, d).code|; Inner(p, ls, b, q, out, b, q)
    decreases e, 0
  {
    hide GenExpr, TestBranch, At, Inner, LabelsOf, Passes;
    var l := GenExpr(e.c, b + 1, n, None);
    var m := b + 1 + |l.code|;
    var mid := TestBranch(e.c, l.res, m, l.next);
    var r := GenExpr(e.a, m + |mid|, l.next + 2, None);
    var u := m + |mid| + |r.code|;
    var q := GenExpr(e.b, u + 3, r.next, None);
    var w := u + 3 + |q.code|;
    ExprSim.CondUnfold(e.c, e.a, e.b, b, n, d);
    ExprSim.CondShape(p, b, d, l, mid, r, q);
    Jumps.LabelKnown(p, ls, u + 2, l.next);
    Jumps.LabelKnown(p, ls, w + 1, l.next + 1);
    ExprInner(p, ls, e.c, b + 1, n, None, out);
    Widen(p, ls, b + 1, m, out, b, w + 2, out, b + 1, m);
    TestInner(p, ls, e.c, l.res, m, l.next, b, w + 2);
    Widen(p, ls, b, w + 2, Some(l.next), b, w + 2, out, m, m + |mid|);
    ExprInner(p, ls, e.a, m + |mid|, l.next + 2, None, out);
    Widen(p, ls, m + |mid|, u, out, b, w + 2, out, m + |mid|, u);
    Crossing(p, ls, b, w + 2, out, u, l.next + 1);
    ExprInner(p, ls, e.b, u + 3, r.next, None, out);
    Widen(p, ls, u + 3, w, out, b, w + 2, out, u + 3, w);
    Ends(p, ls, b, w + 2, out, b, w);
    JoinInner(p, ls, b, w + 2, out, b, b + 1, m, m + |mid|, u, u + 3);
    JoinInner(p, ls, b, w + 2, out, b, u + 3, w, w + 2, w + 2, w + 2);
  }

  lemma Crossing(p: Nodes, ls: Labels, lo: nat, hi: nat, out: Option<nat>, u: nat, l: nat)
    requires u + 2 < |p| && p[u].NMov? && p[u + 1] == NB(l) && p[u + 2].NLabel? && Jumps.Known(p, ls, l) && lo <= ls[l] <= hi
    ensures Inner(p, ls, lo, hi, out, u, u + 3)
  {
    assert JumpsTo(p[u + 1], l);
  }

  lemma {:induction false} OperatorInner(p: Nodes, ls: Labels, e: Expr, b: nat, n: nat, d: Option<nat>, out: Option<nat>)
    requires (e.Un? || e.Bin?) && LabelsOf(p, ls) && At(p, b, GenExpr(e, b, n, d).code)
    ensures var q := b + |GenExpr(e, b, n, d).code|; Inner(p, ls, b, q, out, b, q)
    decreases e, 0
  {
    hide GenExpr, At, Inner, LabelsOf;
    var l := GenExpr(e.a, b, n, None);
    var m := b + |l.code|;
    ExprInner(p, ls, e.a, b, n, None, out) by { if e.Un? { UnShape(p, e, b, n, d); } else { BinShape(p, e, b, n, d); } }
    if e.Un? {
      UnShape(p, e, b, n, d);
      Widen(p, ls, b, m, out, b, m + 1, out, b, m);
      PassesInner(p, ls, b, m + 1, out, m);
      JoinInner(p, ls, b, m + 1, out, b, m, m + 1, m + 1, m + 1, m + 1);
    } else {
      BinShape(p, e, b, n, d);
      var r := GenExpr(e.b, m, l.next, None);
      var q := m + |r.code|;
      ExprInner(p, ls, e.b, m, l.next, None, out);
      Widen(p, ls, b, m, out, b, q + 1, out, b, m);
      Widen(p, ls, m, q, out, b, q + 1, out, m, q);
      PassesInner(p, ls, b, q + 1, out, q);
      JoinInner(p, ls, b, q + 1, out, b, m, q, q + 1, q + 1, q + 1);
    }
  }

  lemma UnShape(p: Nodes, e: Expr, b: nat, n: nat, d: Option<nat>)
    requires e.Un? && At(p, b, GenExpr(e, b, n, d).code)
    ensures var l := GenExpr(e.a, b, n, None);
            At(p, b, l.code) && b + |GenExpr(e, b, n, d).code| == b + |l.code| + 1 <= |p| && p[b + |l.code|].NUn?
  {
    hide GenExpr, At;
    var l := GenExpr(e.a, b, n, None);
    ExprSim.UnUnfold(e.uop, e.a, b, n, d);
    AtLast(p, b, l.code, NUn(e.uop, l.res, d));
  }

  lemma BinShape(p: Nodes, e: Expr, b: nat, n: nat, d: Option<nat>)
    requires e.Bin? && At(p, b, GenExpr(e, b, n, d).code)
    ensures var l := GenExpr(e.a, b, n, None);
            var r := GenExpr(e.b, b + |l.code|, l.next, None);
            var q := b + |l.code| + |r.code|;
            At(p, b, l.code) && At(p, b + |l.code|, r.code) && b + |GenExpr(e, b, n, d).code| == q + 1 <= |p| && p[q].NBin?
  {
    hide GenExpr, At;
    var l := GenExpr(e.a, b, n, None);
    var r := GenExpr(e.b, b + |l.code|, l.next, None);
    ExprSim.BinUnfold(e.bop, e.a, e.b, b, n, d);
    AtLast(p, b, l.code + r.code, NBin(e.bop, l.res, r.res, d));
    AtSplit(p, b, l.code, r.code);
  }

  /** The code of an expression does not jump out of itself. */
  lemma {:induction false} ExprInner(p: Nodes, ls: Labels, e: Expr, b: nat, n: nat, d: Option<nat>, out: Option<nat>)
    requires LabelsOf(p, ls) && At(p, b, GenExpr(e, b, n, d).code)
    ensures var q := b + |GenExpr(e, b, n, d).code|; Inner(p, ls, b, q, out, b, q)
    decreases e, 1
  {
    if e.And? || e.Or? {
      LogicalInner(p, ls, e, b, n, d, out);
    } else if e.Cond? {
      CondInner(p, ls, e, b, n, d, out);
    } else if e.Un? || e.Bin? {
      OperatorInner(p, ls, e, b, n, d, out);
    }
  }

  lemma {:induction false} RhsInner(p: Nodes, ls: Labels, x: nat, r: Rhs, b: nat, n: nat)
    requires LabelsOf(p, ls) && At(p, b, GenRhs(x, r, b, n).code)
    ensures var q := b + |GenRhs(x, r, b, n).code|; Inner(p, ls, b, q, None, b, q)
    decreases r
  {
    hide GenExpr, At, Inner, LabelsOf;
    match r
    case Plain(e) =>
      if IsLeaf(e) {
        AtOne(p, b, NMov(MVar(x), GenExpr(e, b, n, None).res));
        PassesInner(p, ls, b, b + 1, None, b);
      } else {
        ExprInner(p, ls, e, b, n, Some(x), None);
      }
    case Chain(y, r') =>
      var g := GenRhs(y, r', b, n);
      MoveAfter(p, ls, b, g.code, MVar(x), g.res);
      RhsInner(p, ls, y, r', b, n);
  }

  lemma MoveAfter(p: Nodes, ls: Labels, b: nat, c: Nodes, to: MoveTo, res: Opd)
    requires At(p, b, c + [NMov(to, res)])
    ensures At(p, b, c)
    ensures var q := b + |c|; Inner(p, ls, b, q, None, b, q) ==> Inner(p, ls, b, q + 1, None, b, q + 1)
  {
    hide At, Inner;
    var q := b + |c|;
    AtLast(p, b, c, NMov(to, res));
    PassesInner(p, ls, b, q + 1, None, q);
    if Inner(p, ls, b, q, None, b, q) {
      Widen(p, ls, b, q, None, b, q + 1, None, b, q);
      JoinInner(p, ls, b, q + 1, None, b, q, q + 1, q + 1, q + 1, q + 1);
    }
  }

  lemma SimpleInner(p: Nodes, ls: Labels, sm: Simple, b: nat, n: nat)
    requires LabelsOf(p, ls) && At(p, b, GenSimple(sm, b, n).code)
    ensures var q := b + |GenSimple(sm, b, n).code|; Inner(p, ls, b, q, None, b, q)
  {
    match sm
    case Skip =>
    case Evaluate(e) => ExprInner(p, ls, e, b, n, None, None);
    case Assign(x, r) => RhsInner(p, ls, x, r, b, n);
  }

  lemma {:induction false} ClearInner(p: Nodes, ls: Labels, xs: seq<nat>, b: nat, lo: nat, hi: nat)
    requires At(p, b, ClearCode(xs))
    ensures Inner(p, ls, lo, hi, None, b, b + |ClearCode(xs)|)
    decreases |xs|
  {
    if xs != [] {
      AtSplit(p, b, [NMov(MVar(xs[0]), OImm(Nothing))], ClearCode(xs[1..]));
      ClearInner(p, ls, xs[1..], b + 1, lo, hi);
    }
  }

  // ----- the depth at each node of a statement -----

  /** The last n elements. */
  function Last<T>(s: seq<T>, n: nat): seq<T> {
    if n <= |s| then s[|s| - n..] else s
  }

  /** What is left when a break or continue has left everything entered since its target. */
  function Left(t: Target, d: N.Depth, popFors: bool): N.Depth {
    N.Depth(Last(d.marks, Levels.GetTry(t.level)), if popFors then Last(d.loops, Levels.GetFor(t.level)) else d.loops)
  }

  function InEach(ls: Labels, n: nat, m: nat, d: N.Depth): N.Depth {
    N.Depth(d.marks, [N.Loop(Lookup(ls, n + 1), m)] + d.loops)
  }

  function InTry(ls: Labels, n: nat, d: N.Depth): N.Depth {
    N.Depth([N.Mark(Lookup(ls, n), Lookup(ls, n + 1), |d.loops|)] + d.marks, d.loops)
  }

  function EachCtx(ctx: Context, n: nat): Context {
    ctx.InLoop(n + 2, n).(fors := ctx.fors + 1)
  }

  predicate Part(b: nat, i: nat, c: seq<Node>) {
    b <= i < b + |c|
  }

  /** The depth at node i of the statement s, which stands at b and is entered at depth d. */
  function DepthAt(ls: Labels, s: Stmt, b: nat, n: nat, ctx: Context, d: N.Depth, i: nat): N.Depth
    decreases s
  {
    match s
    case Do(_) => d
    case Throw(_) => d
    case Seq(s1, s2) =>
      var g := GenStmt(s1, b, n, ctx);
      if i < b + |g.code| then DepthAt(ls, s1, b, n, ctx, d, i) else DepthAt(ls, s2, b + |g.code|, g.next, ctx, d, i)
    case If(c, s1) =>
      var g := GenExpr(c, b, n, None);
      var m := b + |g.code| + |TestBranch(c, g.res, b + |g.code|, g.next)|;
      if Part(m, i, GenStmt(s1, m, g.next + 1, ctx).code) then DepthAt(ls, s1, m, g.next + 1, ctx, d, i) else d
    case IfElse(c, s1, s2) =>
      var g := GenExpr(c, b, n, None);
      var m := b + |g.code| + |TestBranch(c, g.res, b + |g.code|, g.next)|;
      var h := GenStmt(s1, m, g.next + 2, ctx);
      var u := m + |h.code| + 2;
      if Part(m, i, h.code) then DepthAt(ls, s1, m, g.next + 2, ctx, d, i)
      else if Part(u, i, GenStmt(s2, u, h.next, ctx).code) then DepthAt(ls, s2, u, h.next, ctx, d, i)
      else d
    case While(c, body) =>
      var g := GenExpr(c, b + 1, n + 2, None);
      var m := b + 1 + |g.code| + |TestBranch(c, g.res, b + 1 + |g.code|, n + 1)|;
      var ctx' := ctx.InLoop(n + 1, n);
      if Part(m, i, GenStmt(body, m, g.next, ctx').code) then DepthAt(ls, body, m, g.next, ctx', d, i) else d
    case DoWhile(body, _) =>
      var ctx' := ctx.InLoop(n + 1, n);
      if Part(b + 1, i, GenStmt(body, b + 1, n + 2, ctx').code) then DepthAt(ls, body, b + 1, n + 2, ctx', d, i) else d
    case For(init, cond, _, body) =>
      var j := GenSimple(init, b, n + 3);
      var g := GenForTest(cond, b + |j.code| + 1, j.next, n + 1);
      var m := b + |j.code| + 1 + |g.code|;
      var ctx' := ctx.InLoop(n + 1, n + 2);
      if Part(m, i, GenStmt(body, m, g.next, ctx').code) then DepthAt(ls, body, m, g.next, ctx', d, i) else d
    case Switch(e, cs) =>
      var g := GenExpr(e, b, n + 1, None);
      var t := GenTests(cs, g.res, b + |g.code|, g.next);
      var dflt := if HasDefault(cs) then t.next else n;
      var n' := if HasDefault(cs) then t.next + 1 else t.next;
      var m := b + |g.code| + |t.code| + 1;
      if Part(m, i, GenBodies(cs, t.labels, dflt, m, n', ctx.InSwitch(n)).code) then ClauseDepthAt(ls, cs, t.labels, dflt, m, n', ctx.InSwitch(n), d, i) else d
    case Foreach(_, e, hi, body) =>
      var g := GenExpr(e, b, n + 3, None);
      var k := GenOption(hi, b + |g.code|, g.next);
      var m := b + |g.code| + |k.code| + 1;
      var u := m + |GenStmt(body, m, k.next, EachCtx(ctx, n)).code|;
      if m <= i < u then DepthAt(ls, body, m, k.next, EachCtx(ctx, n), InEach(ls, n, m, d), i)
      else if u <= i < u + 2 then InEach(ls, n, m, d)
      else d
    case Compound(xs, body) =>
      var m := b + 1 + |ClearCode(xs)|;
      var ctx' := ctx.(scope := ctx.scope + 1);
      if Part(m, i, GenStmt(body, m, n, ctx').code) then DepthAt(ls, body, m, n, ctx', d, i) else d
    case Break => if i > b && ctx.brk.Some? then Left(ctx.brk.value, d, true) else d
    case Continue => if i > b && ctx.cont.Some? then Left(ctx.cont.value, d, false) else d
    case Return(e) => if i == b + |GenOption(e, b, n).code| + |ReturnPop(ctx)| then OUTSIDE else d
    case TryCatch(body, _, handler) =>
      var ctx' := ctx.(tries := ctx.tries + 1);
      var h := GenStmt(body, b + 1, n + 2, ctx');
      var u := b + 1 + |h.code|;
      if b + 1 <= i < u then DepthAt(ls, body, b + 1, n + 2, ctx', InTry(ls, n, d), i)
      else if i == u then InTry(ls, n, d)
      else if Part(u + 3, i, GenStmt(handler, u + 3, h.next, ctx).code) then DepthAt(ls, handler, u + 3, h.next, ctx, d, i)
      else d
  }

  function ClauseDepthAt(ls: Labels, cs: Cases, labels: seq<Option<nat>>, dflt: nat, b: nat, n: nat, ctx: Context, d: N.Depth, i: nat): N.Depth
    requires |labels| == CountCases(cs)
    decreases cs
  {
    if cs.NoCases? then d
    else
      var g := GenStmt(cs.body, b + 1, n, ctx);
      if Part(b + 1, i, g.code) then DepthAt(ls, cs.body, b + 1, n, ctx, d, i)
      else if i <= b then d
      else ClauseDepthAt(ls, cs.rest, labels[1..], dflt, b + 1 + |g.code|, g.next, ctx, d, i)
  }

  // ----- what surrounds a statement -----

  ghost predicate LeadsTo(ls: Labels, ds: Depths, ctx: Context, d: N.Depth, t: Option<Target>, popFors: bool) {
    t.Some? ==>
      && Levels.GetTry(t.value.level) <= ctx.tries && Levels.GetFor(t.value.level) <= ctx.fors
      && Sound(ds, Left(t.value, d, popFors)) && Goes(ls, ds, t.value.lab, Left(t.value, d, popFors))
  }

  /** In context ctx so much has been entered, and break and continue lead to where the plan says. */
  ghost predicate Leads(ls: Labels, ds: Depths, ctx: Context, d: N.Depth) {
    && |d.marks| == ctx.tries && |d.loops| == ctx.fors && Sound(ds, d)
    && LeadsTo(ls, ds, ctx, d, ctx.brk, true) && LeadsTo(ls, ds, ctx, d, ctx.cont, false)
  }

  /** ds has the depths of the statement. */
  ghost predicate Laid(ls: Labels, ds: Depths, s: Stmt, b: nat, n: nat, ctx: Context, d: N.Depth) {
    forall i: nat :: Part(b, i, GenStmt(s, b, n, ctx).code) ==> On(ds, i, DepthAt(ls, s, b, n, ctx, d, i))
  }

  ghost predicate Ready(p: Nodes, ls: Labels, ds: Depths, s: Stmt, b: nat, n: nat, ctx: Context, d: N.Depth) {
    && LabelsOf(p, ls) && At(p, b, GenStmt(s, b, n, ctx).code) && StmtSim.Allowed(s, ctx) && Leads(ls, ds, ctx, d)
    && Laid(ls, ds, s, b, n, ctx, d) && On(ds, b + |GenStmt(s, b, n, ctx).code|, d)
  }

  ghost predicate Done(p: Nodes, ls: Labels, ds: Depths, s: Stmt, b: nat, n: nat, ctx: Context, d: N.Depth) {
    KeepsIn(p, ls, ds, b, b + |GenStmt(s, b, n, ctx).code|) && On(ds, b, d)
  }

  lemma LevelKept(ctx: Context)
    requires DepthFits(ctx.scope, ctx.tries, ctx.fors)
    ensures Levels.GetTry(ctx.Level()) == ctx.tries && Levels.GetFor(ctx.Level()) == ctx.fors
  {
    Levels.PackRoundTrip(0, ctx.tries, ctx.scope, ctx.fors);
  }

  lemma LoopLeads(ls: Labels, ds: Depths, ctx: Context, d: N.Depth, brk: nat, cont: nat)
    requires Leads(ls, ds, ctx, d) && DepthFits(ctx.scope, ctx.tries, ctx.fors) && Goes(ls, ds, brk, d) && Goes(ls, ds, cont, d)
    ensures Leads(ls, ds, ctx.InLoop(brk, cont), d)
  {
    hide Levels.GetTry, Levels.GetFor, Levels.Pack, Sound, Goes;
    LevelKept(ctx);
    assert Left(Target(brk, ctx.Level()), d, true) == d && Left(Target(cont, ctx.Level()), d, false) == d;
  }

  lemma SwitchLeads(ls: Labels, ds: Depths, ctx: Context, d: N.Depth, brk: nat)
    requires Leads(ls, ds, ctx, d) && DepthFits(ctx.scope, ctx.tries, ctx.fors) && Goes(ls, ds, brk, d)
    ensures Leads(ls, ds, ctx.InSwitch(brk), d)
  {
    hide Levels.GetTry, Levels.GetFor, Levels.Pack, Sound, Goes;
    LevelKept(ctx);
    assert Left(Target(brk, ctx.Level()), d, true) == d;
  }

  lemma ScopeLeads(ls: Labels, ds: Depths, ctx: Context, d: N.Depth)
    requires Leads(ls, ds, ctx, d)
    ensures Leads(ls, ds, ctx.(scope := ctx.scope + 1), d)
  {
    hide Levels.GetTry, Levels.GetFor, Sound, Goes;
  }

  lemma EachLeads(ls: Labels, ds: Depths, ctx: Context, d: N.Depth, n: nat, m: nat)
    requires Leads(ls, ds, ctx, d) && DepthFits(ctx.scope, ctx.tries, ctx.fors) && Goes(ls, ds, n + 2, d) && Goes(ls, ds, n, InEach(ls, n, m, d))
    ensures Leads(ls, ds, EachCtx(ctx, n), InEach(ls, n, m, d))
  {
    hide Levels.GetTry, Levels.GetFor, Levels.Pack, Goes;
    LevelKept(ctx);
    var d' := InEach(ls, n, m, d);
    assert Left(Target(n + 2, ctx.Level()), d', true) == d && Left(Target(n, ctx.Level()), d', false) == d';
    assert d.marks != [] ==> N.AtHandler(d') == N.AtHandler(d);
  }

  lemma TryLeads(ls: Labels, ds: Depths, ctx: Context, d: N.Depth, n: nat)
    requires Leads(ls, ds, ctx, d) && Goes(ls, ds, n, d)
    ensures Leads(ls, ds, ctx.(tries := ctx.tries + 1), InTry(ls, n, d))
  {
    hide Levels.GetTry, Levels.GetFor, Left, Sound, Goes, InTry;
    InTryDepth(ls, ds, n, d);
    if ctx.brk.Some? { TryLeft(ls, n, d, ctx.brk.value, true); }
    if ctx.cont.Some? { TryLeft(ls, n, d, ctx.cont.value, false); }
  }

  lemma TryLeft(ls: Labels, n: nat, d: N.Depth, t: Target, popFors: bool)
    requires Levels.GetTry(t.level) <= |d.marks|
    ensures Left(t, InTry(ls, n, d), popFors) == Left(t, d, popFors)
  {
    hide Levels.GetTry, Levels.GetFor;
  }

  lemma InTryDepth(ls: Labels, ds: Depths, n: nat, d: N.Depth)
    requires Sound(ds, d) && Goes(ls, ds, n, d)
    ensures Sound(ds, InTry(ls, n, d)) && |InTry(ls, n, d).marks| == |d.marks| + 1 && |InTry(ls, n, d).loops| == |d.loops|
  {
    hide N.Ordered;
    InTryOrdered(ls, n, d);
    assert N.AtHandler(InTry(ls, n, d)) == d;
  }

  lemma InTryOrdered(ls: Labels, n: nat, d: N.Depth)
    requires N.Ordered(d)
    ensures N.Ordered(InTry(ls, n, d))
  {}

  // ----- statements -----

  lemma ExprKeeps(p: Nodes, ls: Labels, ds: Depths, e: Expr, b: nat, n: nat, d: N.Depth)
    requires LabelsOf(p, ls) && At(p, b, GenExpr(e, b, n, None).code) && Level(ds, b, b + |GenExpr(e, b, n, None).code|, d) && Sound(ds, d)
    ensures KeepsIn(p, ls, ds, b, b + |GenExpr(e, b, n, None).code|)
  {
    hide GenExpr, At, LabelsOf, Level, Sound, Inner, KeepsIn;
    ExprInner(p, ls, e, b, n, None, None);
    LevelKeeps(p, ls, ds, b, b + |GenExpr(e, b, n, None).code|, None, d);
  }

  lemma OptionKeeps(p: Nodes, ls: Labels, ds: Depths, e: Option<Expr>, b: nat, n: nat, d: N.Depth)
    requires LabelsOf(p, ls) && At(p, b, GenOption(e, b, n).code) && Level(ds, b, b + |GenOption(e, b, n).code|, d) && Sound(ds, d)
    ensures KeepsIn(p, ls, ds, b, b + |GenOption(e, b, n).code|)
  {
    hide At, LabelsOf, Level, Sound, KeepsAt, GenExpr;
    if e.Some? { ExprKeeps(p, ls, ds, e.value, b, n, d); }
  }

  lemma SimpleKeeps(p: Nodes, ls: Labels, ds: Depths, sm: Simple, b: nat, n: nat, d: N.Depth)
    requires LabelsOf(p, ls) && At(p, b, GenSimple(sm, b, n).code) && Level(ds, b, b + |GenSimple(sm, b, n).code|, d) && Sound(ds, d)
    ensures KeepsIn(p, ls, ds, b, b + |GenSimple(sm, b, n).code|)
  {
    hide GenSimple, At, LabelsOf, Level, Sound, Inner, KeepsIn;
    SimpleInner(p, ls, sm, b, n);
    LevelKeeps(p, ls, ds, b, b + |GenSimple(sm, b, n).code|, None, d);
  }

  /** A condition and the branch taken when it fails. */
  lemma ConditionKeeps(p: Nodes, ls: Labels, ds: Depths, c: Expr, b: nat, n0: nat, n: nat, d: N.Depth)
    requires var g := GenExpr(c, b, n0, None);
             var m := b + |g.code|;
             var mid := TestBranch(c, g.res, m, n);
             LabelsOf(p, ls) && At(p, b, g.code) && At(p, m, mid) && Level(ds, b, m + |mid|, d) && Sound(ds, d) && Goes(ls, ds, n, d)
    ensures var g := GenExpr(c, b, n0, None);
            KeepsIn(p, ls, ds, b, b + |g.code| + |TestBranch(c, g.res, b + |g.code|, n)|)
  {
    hide GenExpr, TestBranch, At, LabelsOf, On, Sound, Inner, KeepsAt, Goes;
    var g := GenExpr(c, b, n0, None);
    var m := b + |g.code|;
    ExprKeeps(p, ls, ds, c, b, n0, d);
    TestInner(p, ls, c, g.res, m, n, m, m + |TestBranch(c, g.res, m, n)|);
    LevelKeeps(p, ls, ds, m, m + |TestBranch(c, g.res, m, n)|, Some(n), d);
  }

  lemma {:induction false} SeqKeeps(p: Nodes, ls: Labels, ds: Depths, s: Stmt, b: nat, n: nat, ctx: Context, d: N.Depth)
    requires s.Seq? && Ready(p, ls, ds, s, b, n, ctx, d)
    ensures Done(p, ls, ds, s, b, n, ctx, d)
    decreases s, 0
  {
    hide GenStmt, At, LabelsOf, Compilable, Leads, On, KeepsAt;
    StmtSim.AllowedParts(s, ctx);
    var g := GenStmt(s.first, b, n, ctx);
    var m := b + |g.code|;
    SeqUnfold(s.first, s.second, b, n, ctx);
    AtSplit(p, b, g.code, GenStmt(s.second, m, g.next, ctx).code);
    forall i: nat | Part(m, i, GenStmt(s.second, m, g.next, ctx).code) ensures On(ds, i, DepthAt(ls, s.second, m, g.next, ctx, d, i)) {
      assert Part(b, i, GenStmt(s, b, n, ctx).code);
    }
    StmtKeeps(p, ls, ds, s.second, m, g.next, ctx, d);
    forall i: nat | Part(b, i, g.code) ensures On(ds, i, DepthAt(ls, s.first, b, n, ctx, d, i)) {
      assert Part(b, i, GenStmt(s, b, n, ctx).code);
    }
    StmtKeeps(p, ls, ds, s.first, b, n, ctx, d);
  }

  lemma {:induction false} IfKeeps(p: Nodes, ls: Labels, ds: Depths, s: Stmt, b: nat, n: nat, ctx: Context, d: N.Depth)
    requires s.If? && Ready(p, ls, ds, s, b, n, ctx, d)
    ensures Done(p, ls, ds, s, b, n, ctx, d)
    decreases s, 0
  {
    hide GenStmt, GenExpr, TestBranch, At, LabelsOf, Compilable, Leads, On, KeepsAt, Sound;
    StmtSim.AllowedParts(s, ctx);
    var g := GenExpr(s.c, b, n, None);
    var mid := TestBranch(s.c, g.res, b + |g.code|, g.next);
    var m := b + |g.code| + |mid|;
    var h := GenStmt(s.yes, m, g.next + 1, ctx);
    var q := m + |h.code|;
    IfUnfold(s.c, s.yes, b, n, ctx);
    IfShape(p, b, g, mid, h);
    forall i: nat | b <= i <= q && !Part(m, i, h.code) ensures On(ds, i, d) {
      assert Part(b, i, GenStmt(s, b, n, ctx).code);
    }
    LabelGoes(p, ls, ds, q, g.next, d);
    forall i: nat | Part(m, i, h.code) ensures On(ds, i, DepthAt(ls, s.yes, m, g.next + 1, ctx, d, i)) {
      assert Part(b, i, GenStmt(s, b, n, ctx).code);
    }
    StmtKeeps(p, ls, ds, s.yes, m, g.next + 1, ctx, d);
    assert Level(ds, b, m, d);
    assert Sound(ds, d) by { LeadsSound(ls, ds, ctx, d); }
    ConditionKeeps(p, ls, ds, s.c, b, n, g.next, d);
    PassKeeps(p, ls, ds, q, d);
  }

  lemma IfElseLaid(ls: Labels, ds: Depths, s: Stmt, b: nat, n: nat, ctx: Context, d: N.Depth)
    requires s.IfElse? && Laid(ls, ds, s, b, n, ctx, d) && On(ds, b + |GenStmt(s, b, n, ctx).code|, d)
    ensures var g := GenExpr(s.c, b, n, None);
            var m := b + |g.code| + |TestBranch(s.c, g.res, b + |g.code|, g.next)|;
            var h := GenStmt(s.yes, m, g.next + 2, ctx);
            var v := m + |h.code| + 2;
            && Laid(ls, ds, s.yes, m, g.next + 2, ctx, d) && Laid(ls, ds, s.no, v, h.next, ctx, d)
            && (forall i: nat :: b <= i <= v + |GenStmt(s.no, v, h.next, ctx).code| && !Part(m, i, h.code) && !Part(v, i, GenStmt(s.no, v, h.next, ctx).code) ==> On(ds, i, d))
  {
    hide GenStmt, GenExpr, TestBranch, On;
    var g := GenExpr(s.c, b, n, None);
    var mid := TestBranch(s.c, g.res, b + |g.code|, g.next);
    var m := b + |g.code| + |mid|;
    var h := GenStmt(s.yes, m, g.next + 2, ctx);
    var v := m + |h.code| + 2;
    var k := GenStmt(s.no, v, h.next, ctx);
    IfElseUnfold(s.c, s.yes, s.no, b, n, ctx);
    assert |GenStmt(s, b, n, ctx).code| == |g.code| + |mid| + |h.code| + 2 + |k.code| + 1;
    forall i: nat | Part(m, i, h.code) ensures On(ds, i, DepthAt(ls, s.yes, m, g.next + 2, ctx, d, i)) {
      assert Part(b, i, GenStmt(s, b, n, ctx).code);
    }
    forall i: nat | Part(v, i, k.code) ensures On(ds, i, DepthAt(ls, s.no, v, h.next, ctx, d, i)) {
      assert Part(b, i, GenStmt(s, b, n, ctx).code);
    }
    forall i: nat | b <= i <= v + |k.code| && !Part(m, i, h.code) && !Part(v, i, k.code) ensures On(ds, i, d) {
      assert Part(b, i, GenStmt(s, b, n, ctx).code);
    }
  }

  lemma {:induction false} IfElseKeeps(p: Nodes, ls: Labels, ds: Depths, s: Stmt, b: nat, n: nat, ctx: Context, d: N.Depth)
    requires s.IfElse? && Ready(p, ls, ds, s, b, n, ctx, d)
    ensures Done(p, ls, ds, s, b, n, ctx, d)
    decreases s, 0
  {
    hide GenStmt, GenExpr, TestBranch, At, LabelsOf, Compilable, Leads, Laid, On, KeepsAt, Sound, Goes;
    StmtSim.AllowedParts(s, ctx);
    LeadsSound(ls, ds, ctx, d);
    var g := GenExpr(s.c, b, n, None);
    var mid := TestBranch(s.c, g.res, b + |g.code|, g.next);
    var m := b + |g.code| + |mid|;
    var h := GenStmt(s.yes, m, g.next + 2, ctx);
    var u := m + |h.code|;
    var k := GenStmt(s.no, u + 2, h.next, ctx);
    var w := u + 2 + |k.code|;
    IfElseUnfold(s.c, s.yes, s.no, b, n, ctx);
    IfElseShape(p, b, g, mid, h, k);
    IfElseLaid(ls, ds, s, b, n, ctx, d);
    LabelGoes(p, ls, ds, u + 1, g.next, d);
    LabelGoes(p, ls, ds, w, g.next + 1, d);
    StmtKeeps(p, ls, ds, s.no, u + 2, h.next, ctx, d);
    StmtKeeps(p, ls, ds, s.yes, m, g.next + 2, ctx, d);
    assert Level(ds, b, m, d);
    ConditionKeeps(p, ls, ds, s.c, b, n, g.next, d);
    JumpKeeps(p, ls, ds, u, g.next + 1, d);
    PassKeeps(p, ls, ds, u + 1, d);
    PassKeeps(p, ls, ds, w, d);
  }

  lemma WhileLaid(ls: Labels, ds: Depths, s: Stmt, b: nat, n: nat, ctx: Context, d: N.Depth)
    requires s.While? && Laid(ls, ds, s, b, n, ctx, d)
    ensures var g := GenExpr(s.c, b + 1, n + 2, None);
            var m := b + 1 + |g.code| + |TestBranch(s.c, g.res, b + 1 + |g.code|, n + 1)|;
            var h := GenStmt(s.body, m, g.next, ctx.InLoop(n + 1, n));
            var u := m + |h.code|;
            && Laid(ls, ds, s.body, m, g.next, ctx.InLoop(n + 1, n), d)
            && (forall i: nat :: b <= i <= u + 1 && !Part(m, i, h.code) ==> On(ds, i, d))
  {
    hide GenStmt, GenExpr, TestBranch, On;
    var g := GenExpr(s.c, b + 1, n + 2, None);
    var mid := TestBranch(s.c, g.res, b + 1 + |g.code|, n + 1);
    var m := b + 1 + |g.code| + |mid|;
    var ctx' := ctx.InLoop(n + 1, n);
    var h := GenStmt(s.body, m, g.next, ctx');
    WhileUnfold(s.c, s.body, b, n, ctx);
    assert b + |GenStmt(s, b, n, ctx).code| == m + |h.code| + 2;
    forall i: nat | b <= i <= m + |h.code| + 1 && !Part(m, i, h.code) ensures On(ds, i, d) {
      assert Part(b, i, GenStmt(s, b, n, ctx).code);
    }
    forall i: nat | Part(m, i, h.code) ensures On(ds, i, DepthAt(ls, s.body, m, g.next, ctx', d, i)) {
      assert Part(b, i, GenStmt(s, b, n, ctx).code);
    }
  }

  lemma {:induction false} WhileKeeps(p: Nodes, ls: Labels, ds: Depths, s: Stmt, b: nat, n: nat, ctx: Context, d: N.Depth)
    requires s.While? && Ready(p, ls, ds, s, b, n, ctx, d)
    ensures Done(p, ls, ds, s, b, n, ctx, d)
    decreases s, 0
  {
    hide GenStmt, GenExpr, TestBranch, At, LabelsOf, Compilable, Leads, Laid, On, KeepsAt, Sound, Goes, DepthAt;
    StmtSim.AllowedParts(s, ctx);
    LeadsSound(ls, ds, ctx, d);
    var g := GenExpr(s.c, b + 1, n + 2, None);
    var mid := TestBranch(s.c, g.res, b + 1 + |g.code|, n + 1);
    var m := b + 1 + |g.code| + |mid|;
    var ctx' := ctx.InLoop(n + 1, n);
    var h := GenStmt(s.body, m, g.next, ctx');
    var u := m + |h.code|;
    WhileUnfold(s.c, s.body, b, n, ctx);
    WhileShape(p, b, n, g, mid, h);
    WhileLaid(ls, ds, s, b, n, ctx, d);
    LabelGoes(p, ls, ds, b, n, d);
    LabelGoes(p, ls, ds, u + 1, n + 1, d);
    LoopLeads(ls, ds, ctx, d, n + 1, n);
    StmtKeeps(p, ls, ds, s.body, m, g.next, ctx', d);
    assert Level(ds, b + 1, m, d);
    ConditionKeeps(p, ls, ds, s.c, b + 1, n + 2, n + 1, d);
    PassKeeps(p, ls, ds, b, d);
    JumpKeeps(p, ls, ds, u, n, d);
    PassKeeps(p, ls, ds, u + 1, d);
  }

  lemma DoLaid(ls: Labels, ds: Depths, s: Stmt, b: nat, n: nat, ctx: Context, d: N.Depth)
    requires s.DoWhile? && Laid(ls, ds, s, b, n, ctx, d)
    ensures var a := b + 1;
            var h := GenStmt(s.body, a, n + 2, ctx.InLoop(n + 1, n));
            && Laid(ls, ds, s.body, a, n + 2, ctx.InLoop(n + 1, n), d)
            && (forall i: nat :: b <= i < b + |GenStmt(s, b, n, ctx).code| && !Part(a, i, h.code) ==> On(ds, i, d))
  {
    hide GenStmt, GenExpr, TestCode, TestOpd, On;
    var a := b + 1;
    var ctx' := ctx.InLoop(n + 1, n);
    var h := GenStmt(s.body, a, n + 2, ctx');
    DoUnfold(s.body, s.c, b, n, ctx);
    assert |GenStmt(s, b, n, ctx).code| >= 1 + |h.code|;
    forall i: nat | b <= i < b + |GenStmt(s, b, n, ctx).code| && !Part(a, i, h.code) ensures On(ds, i, d) {
      assert Part(b, i, GenStmt(s, b, n, ctx).code);
    }
    forall i: nat | Part(a, i, h.code) ensures On(ds, i, DepthAt(ls, s.body, a, n + 2, ctx', d, i)) {
      assert Part(b, i, GenStmt(s, b, n, ctx).code);
    }
  }

  lemma {:induction false} DoKeeps(p: Nodes, ls: Labels, ds: Depths, s: Stmt, b: nat, n: nat, ctx: Context, d: N.Depth)
    requires s.DoWhile? && Ready(p, ls, ds, s, b, n, ctx, d)
    ensures Done(p, ls, ds, s, b, n, ctx, d)
    decreases s, 0
  {
    hide GenStmt, GenExpr, TestCode, TestOpd, At, LabelsOf, Compilable, Leads, Laid, On, KeepsAt, Sound, Goes, Inner, DepthAt;
    StmtSim.AllowedParts(s, ctx);
    LeadsSound(ls, ds, ctx, d);
    var ctx' := ctx.InLoop(n + 1, n);
    var h := GenStmt(s.body, b + 1, n + 2, ctx');
    var m := b + 1 + |h.code|;
    var g := GenExpr(s.c, m, h.next, None);
    var e := m + |g.code|;
    var tc, o := TestCode(s.c, g.res), TestOpd(s.c, g.res, e);
    var u := e + |tc|;
    DoUnfold(s.body, s.c, b, n, ctx);
    DoShape(p, b, n, h, g, tc, o);
    DoLaid(ls, ds, s, b, n, ctx, d);
    LabelGoes(p, ls, ds, b, n, d);
    LabelGoes(p, ls, ds, u + 1, n + 1, d);
    LoopLeads(ls, ds, ctx, d, n + 1, n);
    StmtKeeps(p, ls, ds, s.body, b + 1, n + 2, ctx', d);
    assert Level(ds, m, e, d) && Level(ds, e, u, d);
    ExprKeeps(p, ls, ds, s.c, m, h.next, d);
    TestCodeInner(p, ls, s.c, g.res, e);
    LevelKeeps(p, ls, ds, e, u, None, d);
    PassKeeps(p, ls, ds, b, d);
    JumpKeeps(p, ls, ds, u, n, d);
    PassKeeps(p, ls, ds, u + 1, d);
  }

  lemma TestCodeInner(p: Nodes, ls: Labels, c: Expr, res: Opd, m: nat)
    requires At(p, m, TestCode(c, res))
    ensures Inner(p, ls, m, m + |TestCode(c, res)|, None, m, m + |TestCode(c, res)|)
  {}

  lemma ForTestKeeps(p: Nodes, ls: Labels, ds: Depths, cond: Option<Expr>, b: nat, n0: nat, n: nat, d: N.Depth)
    requires LabelsOf(p, ls) && At(p, b, GenForTest(cond, b, n0, n).code) && Level(ds, b, b + |GenForTest(cond, b, n0, n).code|, d)
    requires Sound(ds, d) && Goes(ls, ds, n, d)
    ensures KeepsIn(p, ls, ds, b, b + |GenForTest(cond, b, n0, n).code|)
  {
    hide GenExpr, TestBranch, At, LabelsOf, On, KeepsAt, Sound, Goes;
    if cond.Some? {
      var g := GenExpr(cond.value, b, n0, None);
      AtSplit(p, b, g.code, TestBranch(cond.value, g.res, b + |g.code|, n));
      ConditionKeeps(p, ls, ds, cond.value, b, n0, n, d);
    }
  }

  lemma ForLaid(ls: Labels, ds: Depths, s: Stmt, b: nat, n: nat, ctx: Context, d: N.Depth)
    requires s.For? && Laid(ls, ds, s, b, n, ctx, d) && On(ds, b + |GenStmt(s, b, n, ctx).code|, d)
    ensures var j := GenSimple(s.init, b, n + 3);
            var g := GenForTest(s.cond, b + |j.code| + 1, j.next, n + 1);
            var u := b + |j.code| + 1 + |g.code|;
            var h := GenStmt(s.body, u, g.next, ctx.InLoop(n + 1, n + 2));
            var z := u + |h.code| + 1 + |GenSimple(s.incr, u + |h.code| + 1, h.next).code|;
            && Laid(ls, ds, s.body, u, g.next, ctx.InLoop(n + 1, n + 2), d)
            && (forall i: nat :: b <= i <= z + 1 && !Part(u, i, h.code) ==> On(ds, i, d))
  {
    hide GenStmt, GenSimple, GenForTest, On;
    var j := GenSimple(s.init, b, n + 3);
    var g := GenForTest(s.cond, b + |j.code| + 1, j.next, n + 1);
    var u := b + |j.code| + 1 + |g.code|;
    var h := GenStmt(s.body, u, g.next, ctx.InLoop(n + 1, n + 2));
    var k := GenSimple(s.incr, u + |h.code| + 1, h.next);
    ForUnfold(s.init, s.cond, s.incr, s.body, b, n, ctx);
    assert |GenStmt(s, b, n, ctx).code| == |j.code| + 1 + |g.code| + |h.code| + 1 + |k.code| + 2;
    forall i: nat | Part(u, i, h.code) ensures On(ds, i, DepthAt(ls, s.body, u, g.next, ctx.InLoop(n + 1, n + 2), d, i)) {
      assert Part(b, i, GenStmt(s, b, n, ctx).code);
    }
    forall i: nat | b <= i <= u + |h.code| + |k.code| + 2 && !Part(u, i, h.code) ensures On(ds, i, d) {
      assert Part(b, i, GenStmt(s, b, n, ctx).code);
    }
  }

  lemma ForHeadKeeps(p: Nodes, ls: Labels, ds: Depths, init: Simple, cond: Option<Expr>, b: nat, n: nat, d: N.Depth)
    requires var j := GenSimple(init, b, n + 3);
             var m := b + |j.code|;
             var g := GenForTest(cond, m + 1, j.next, n + 1);
             && LabelsOf(p, ls) && At(p, b, j.code) && m < |p| && p[m].NLabel? && At(p, m + 1, g.code)
             && Level(ds, b, m + 1 + |g.code|, d) && Sound(ds, d) && Goes(ls, ds, n + 1, d)
    ensures var j := GenSimple(init, b, n + 3);
            KeepsIn(p, ls, ds, b, b + |j.code| + 1 + |GenForTest(cond, b + |j.code| + 1, j.next, n + 1).code|)
  {
    hide GenSimple, GenForTest, At, LabelsOf, On, KeepsAt, Sound, Goes;
    var j := GenSimple(init, b, n + 3);
    var m := b + |j.code|;
    SimpleKeeps(p, ls, ds, init, b, n + 3, d);
    PassKeeps(p, ls, ds, m, d);
    ForTestKeeps(p, ls, ds, cond, m + 1, j.next, n + 1, d);
  }

  lemma ForTailKeeps(p: Nodes, ls: Labels, ds: Depths, incr: Simple, w: nat, n0: nat, n: nat, d: N.Depth)
    requires var k := GenSimple(incr, w + 1, n0);
             var z := w + 1 + |k.code|;
             && LabelsOf(p, ls) && z + 1 < |p| && p[w].NLabel? && At(p, w + 1, k.code) && p[z] == NB(n) && p[z + 1].NLabel?
             && Level(ds, w, z + 2, d) && Sound(ds, d) && Goes(ls, ds, n, d)
    ensures KeepsIn(p, ls, ds, w, w + 1 + |GenSimple(incr, w + 1, n0).code| + 2)
  {
    hide GenSimple, At, LabelsOf, On, KeepsAt, Sound, Goes;
    var z := w + 1 + |GenSimple(incr, w + 1, n0).code|;
    PassKeeps(p, ls, ds, w, d);
    SimpleKeeps(p, ls, ds, incr, w + 1, n0, d);
    JumpKeeps(p, ls, ds, z, n, d);
    PassKeeps(p, ls, ds, z + 1, d);
  }

  lemma {:induction false} ForKeeps(p: Nodes, ls: Labels, ds: Depths, s: Stmt, b: nat, n: nat, ctx: Context, d: N.Depth)
    requires s.For? && Ready(p, ls, ds, s, b, n, ctx, d)
    ensures Done(p, ls, ds, s, b, n, ctx, d)
    decreases s, 0
  {
    hide GenStmt, GenSimple, GenForTest, At, LabelsOf, Compilable, Leads, Laid, On, KeepsAt, Sound, Goes, DepthAt;
    StmtSim.AllowedParts(s, ctx);
    LeadsSound(ls, ds, ctx, d);
    var j := GenSimple(s.init, b, n + 3);
    var m := b + |j.code|;
    var g := GenForTest(s.cond, m + 1, j.next, n + 1);
    var u := m + 1 + |g.code|;
    var ctx' := ctx.InLoop(n + 1, n + 2);
    var h := GenStmt(s.body, u, g.next, ctx');
    var w := u + |h.code|;
    var k := GenSimple(s.incr, w + 1, h.next);
    var z := w + 1 + |k.code|;
    ForUnfold(s.init, s.cond, s.incr, s.body, b, n, ctx);
    ForShape(p, b, n, j, g, h, k);
    ForLaid(ls, ds, s, b, n, ctx, d);
    LabelGoes(p, ls, ds, m, n, d);
    LabelGoes(p, ls, ds, w, n + 2, d);
    LabelGoes(p, ls, ds, z + 1, n + 1, d);
    LoopLeads(ls, ds, ctx, d, n + 1, n + 2);
    StmtKeeps(p, ls, ds, s.body, u, g.next, ctx', d);
    ForHeadKeeps(p, ls, ds, s.init, s.cond, b, n, d);
    ForTailKeeps(p, ls, ds, s.incr, w, h.next, n, d);
  }

  lemma {:induction false} CompoundKeeps(p: Nodes, ls: Labels, ds: Depths, s: Stmt, b: nat, n: nat, ctx: Context, d: N.Depth)
    requires s.Compound? && Ready(p, ls, ds, s, b, n, ctx, d)
    ensures Done(p, ls, ds, s, b, n, ctx, d)
    decreases s, 0
  {
    hide GenStmt, ClearCode, At, LabelsOf, Compilable, Leads, On, KeepsAt, Sound, Inner;
    StmtSim.AllowedParts(s, ctx);
    LeadsSound(ls, ds, ctx, d);
    ScopeLeads(ls, ds, ctx, d);
    var ctx' := ctx.(scope := ctx.scope + 1);
    var m := b + 1 + |ClearCode(s.inits)|;
    var h := GenStmt(s.body, m, n, ctx');
    var u := m + |h.code|;
    CompoundUnfold(s.inits, s.body, b, n, ctx);
    CompoundShape(p, b, ClearCode(s.inits), h);
    forall i: nat | b <= i <= u && !Part(m, i, h.code) ensures On(ds, i, d) {
      assert Part(b, i, GenStmt(s, b, n, ctx).code);
    }
    forall i: nat | Part(m, i, h.code) ensures On(ds, i, DepthAt(ls, s.body, m, n, ctx', d, i)) {
      assert Part(b, i, GenStmt(s, b, n, ctx).code);
    }
    StmtKeeps(p, ls, ds, s.body, m, n, ctx', d);
    assert Level(ds, b + 1, m, d);
    ClearInner(p, ls, s.inits, b + 1, b + 1, m);
    LevelKeeps(p, ls, ds, b + 1, m, None, d);
    PassKeeps(p, ls, ds, b, d);
    PopNothing(p, ls, ds, u, d);
  }

  lemma PopNothing(p: Nodes, ls: Labels, ds: Depths, i: nat, d: N.Depth)
    requires i < |p| && p[i] == NPopScope(1, 0, 0) && On(ds, i, d) && On(ds, i + 1, d) && Sound(ds, d)
    ensures KeepsAt(p, ls, ds, i)
  {
    hide N.Ordered, N.AtHandler;
    assert N.Depth(d.marks[0..], d.loops[0..]) == d;
  }

  lemma ForeachLaid(ls: Labels, ds: Depths, s: Stmt, b: nat, n: nat, ctx: Context, d: N.Depth)
    requires s.Foreach? && Laid(ls, ds, s, b, n, ctx, d) && On(ds, b + |GenStmt(s, b, n, ctx).code|, d)
    ensures var g := GenExpr(s.e, b, n + 3, None);
            var k := GenOption(s.hi, b + |g.code|, g.next);
            var m := b + |g.code| + |k.code| + 1;
            var d' := InEach(ls, n, m, d);
            var u := m + |GenStmt(s.body, m, k.next, EachCtx(ctx, n)).code|;
            && Laid(ls, ds, s.body, m, k.next, EachCtx(ctx, n), d')
            && Level(ds, b, m - 1, d) && On(ds, u, d') && On(ds, u + 1, d') && On(ds, u + 2, d) && On(ds, u + 3, d)
  {
    hide GenStmt, GenExpr, GenOption, On, InEach;
    var g := GenExpr(s.e, b, n + 3, None);
    var k := GenOption(s.hi, b + |g.code|, g.next);
    var m := b + |g.code| + |k.code| + 1;
    var h := GenStmt(s.body, m, k.next, EachCtx(ctx, n));
    var u := m + |h.code|;
    ForeachUnfold(s.x, s.e, s.hi, s.body, b, n, ctx);
    assert b + |GenStmt(s, b, n, ctx).code| == u + 4;
    forall i: nat | Part(m, i, h.code) ensures On(ds, i, DepthAt(ls, s.body, m, k.next, EachCtx(ctx, n), InEach(ls, n, m, d), i)) {
      assert Part(b, i, GenStmt(s, b, n, ctx).code);
    }
    forall i: nat | b <= i < m ensures On(ds, i, d) {
      assert Part(b, i, GenStmt(s, b, n, ctx).code);
    }
    assert Part(b, u, GenStmt(s, b, n, ctx).code) && Part(b, u + 1, GenStmt(s, b, n, ctx).code);
    assert Part(b, u + 2, GenStmt(s, b, n, ctx).code) && Part(b, u + 3, GenStmt(s, b, n, ctx).code);
  }

  lemma {:induction false} ForeachKeeps(p: Nodes, ls: Labels, ds: Depths, s: Stmt, b: nat, n: nat, ctx: Context, d: N.Depth)
    requires s.Foreach? && Ready(p, ls, ds, s, b, n, ctx, d)
    ensures Done(p, ls, ds, s, b, n, ctx, d)
    decreases s, 0
  {
    hide GenStmt, GenExpr, GenOption, At, LabelsOf, Compilable, Leads, Laid, On, KeepsAt, Sound, Goes, InEach, DepthAt;
    StmtSim.AllowedParts(s, ctx);
    LeadsSound(ls, ds, ctx, d);
    var g := GenExpr(s.e, b, n + 3, None);
    var b1 := b + |g.code|;
    var k := GenOption(s.hi, b1, g.next);
    var m := b1 + |k.code| + 1;
    var h := GenStmt(s.body, m, k.next, EachCtx(ctx, n));
    var u := m + |h.code|;
    var d' := InEach(ls, n, m, d);
    var hiOpd := if s.hi.None? then None else Some(k.res);
    ForeachUnfold(s.x, s.e, s.hi, s.body, b, n, ctx);
    ForeachShape(p, b, n, s.x, g, hiOpd, k, h);
    ForeachLaid(ls, ds, s, b, n, ctx, d);
    LabelGoes(p, ls, ds, u + 3, n + 1, d);
    LabelGoes(p, ls, ds, u + 2, n + 2, d);
    LabelGoes(p, ls, ds, u, n, d');
    EachLeads(ls, ds, ctx, d, n, m);
    LeadsSound(ls, ds, EachCtx(ctx, n), d');
    StmtKeeps(p, ls, ds, s.body, m, k.next, EachCtx(ctx, n), d');
    assert Level(ds, b, b1, d) && Level(ds, b1, m - 1, d);
    ExprKeeps(p, ls, ds, s.e, b, n + 3, d);
    OptionKeeps(p, ls, ds, s.hi, b1, g.next, d);
    EnterKeeps(p, ls, ds, m - 1, n, d);
    PassKeeps(p, ls, ds, u, d');
    NextKeeps(p, ls, ds, u + 1, n, m, d);
    PassKeeps(p, ls, ds, u + 2, d);
    PassKeeps(p, ls, ds, u + 3, d);
  }

  lemma EnterKeeps(p: Nodes, ls: Labels, ds: Depths, i: nat, n: nat, d: N.Depth)
    requires i < |p| && p[i].NForeach? && p[i].l == n + 1 && On(ds, i, d) && Sound(ds, d)
    requires Goes(ls, ds, n + 1, d) && On(ds, i + 1, InEach(ls, n, i + 1, d))
    ensures KeepsAt(p, ls, ds, i)
  {
    hide N.Ordered, N.AtHandler, Resolve;
  }

  lemma NextKeeps(p: Nodes, ls: Labels, ds: Depths, i: nat, n: nat, m: nat, d: N.Depth)
    requires i < |p| && p[i].NNext? && On(ds, i, InEach(ls, n, m, d)) && Sound(ds, InEach(ls, n, m, d))
    requires Goes(ls, ds, n + 1, d) && On(ds, m, InEach(ls, n, m, d))
    ensures KeepsAt(p, ls, ds, i)
  {
    hide N.Ordered, N.AtHandler;
    assert InEach(ls, n, m, d).loops[1..] == d.loops;
  }

  lemma TryLaid(ls: Labels, ds: Depths, s: Stmt, b: nat, n: nat, ctx: Context, d: N.Depth)
    requires s.TryCatch? && Laid(ls, ds, s, b, n, ctx, d) && On(ds, b + |GenStmt(s, b, n, ctx).code|, d)
    ensures var ctx' := ctx.(tries := ctx.tries + 1);
            var h := GenStmt(s.body, b + 1, n + 2, ctx');
            var v := b + 1 + |h.code| + 3;
            var w := v + |GenStmt(s.handler, v, h.next, ctx).code|;
            && Laid(ls, ds, s.body, b + 1, n + 2, ctx', InTry(ls, n, d)) && Laid(ls, ds, s.handler, v, h.next, ctx, d)
            && On(ds, b, d) && On(ds, v - 3, InTry(ls, n, d)) && On(ds, v - 2, d) && On(ds, v - 1, d) && On(ds, w, d) && On(ds, w + 1, d)
  {
    hide GenStmt, On, InTry;
    var ctx' := ctx.(tries := ctx.tries + 1);
    var a := b + 1;
    var h := GenStmt(s.body, a, n + 2, ctx');
    var v := a + |h.code| + 3;
    var k := GenStmt(s.handler, v, h.next, ctx);
    var w := v + |k.code|;
    TryUnfold(s.body, s.x, s.handler, b, n, ctx);
    assert b + |GenStmt(s, b, n, ctx).code| == w + 1;
    forall i: nat | Part(a, i, h.code) ensures On(ds, i, DepthAt(ls, s.body, a, n + 2, ctx', InTry(ls, n, d), i)) {
      assert Part(b, i, GenStmt(s, b, n, ctx).code);
    }
    forall i: nat | Part(v, i, k.code) ensures On(ds, i, DepthAt(ls, s.handler, v, h.next, ctx, d, i)) {
      assert Part(b, i, GenStmt(s, b, n, ctx).code);
    }
    assert Part(b, b, GenStmt(s, b, n, ctx).code) && Part(b, v - 3, GenStmt(s, b, n, ctx).code);
    assert Part(b, v - 2, GenStmt(s, b, n, ctx).code) && Part(b, v - 1, GenStmt(s, b, n, ctx).code) && Part(b, w, GenStmt(s, b, n, ctx).code);
  }

  lemma {:induction false} TryKeeps(p: Nodes, ls: Labels, ds: Depths, s: Stmt, b: nat, n: nat, ctx: Context, d: N.Depth)
    requires s.TryCatch? && Ready(p, ls, ds, s, b, n, ctx, d)
    ensures Done(p, ls, ds, s, b, n, ctx, d)
    decreases s, 0
  {
    hide GenStmt, At, LabelsOf, Compilable, Leads, Laid, On, KeepsAt, Sound, Goes, InTry, DepthAt;
    StmtSim.AllowedParts(s, ctx);
    LeadsSound(ls, ds, ctx, d);
    var ctx' := ctx.(tries := ctx.tries + 1);
    var h := GenStmt(s.body, b + 1, n + 2, ctx');
    var u := b + 1 + |h.code|;
    var k := GenStmt(s.handler, u + 3, h.next, ctx);
    var w := u + 3 + |k.code|;
    var d' := InTry(ls, n, d);
    TryUnfold(s.body, s.x, s.handler, b, n, ctx);
    TryShape(p, b, n, s.x, h, k);
    TryLaid(ls, ds, s, b, n, ctx, d);
    LabelGoes(p, ls, ds, u + 1, n, d);
    LabelGoes(p, ls, ds, w, n + 1, d);
    TryLeads(ls, ds, ctx, d, n);
    LeadsSound(ls, ds, ctx', d');
    StmtKeeps(p, ls, ds, s.body, b + 1, n + 2, ctx', d');
    StmtKeeps(p, ls, ds, s.handler, u + 3, h.next, ctx, d);
    BeginKeeps(p, ls, ds, b, n, d);
    EndKeeps(p, ls, ds, u, n, d);
    PassKeeps(p, ls, ds, u + 1, d);
    PassKeeps(p, ls, ds, u + 2, d);
    PassKeeps(p, ls, ds, w, d);
  }

  lemma BeginKeeps(p: Nodes, ls: Labels, ds: Depths, i: nat, n: nat, d: N.Depth)
    requires i < |p| && p[i] == NTry(n, n + 1) && On(ds, i, d) && Sound(ds, d) && On(ds, i + 1, InTry(ls, n, d))
    ensures KeepsAt(p, ls, ds, i)
  {
    hide N.Ordered, N.AtHandler;
  }

  lemma EndKeeps(p: Nodes, ls: Labels, ds: Depths, i: nat, n: nat, d: N.Depth)
    requires i < |p| && p[i].NEnd? && On(ds, i, InTry(ls, n, d)) && Sound(ds, InTry(ls, n, d)) && Goes(ls, ds, n + 1, d)
    ensures KeepsAt(p, ls, ds, i)
  {
    hide N.Ordered, N.AtHandler;
    assert InTry(ls, n, d).marks[1..] == d.marks;
  }

  lemma {:induction false} ReturnKeeps(p: Nodes, ls: Labels, ds: Depths, s: Stmt, b: nat, n: nat, ctx: Context, d: N.Depth)
    requires s.Return? && Ready(p, ls, ds, s, b, n, ctx, d)
    ensures Done(p, ls, ds, s, b, n, ctx, d)
    decreases s, 0
  {
    hide GenStmt, GenExpr, GenOption, ReturnPop, At, LabelsOf, Compilable, On, KeepsAt, Sound;
    var g := GenOption(s.result, b, n);
    var m := b + |g.code|;
    var pop := ReturnPop(ctx);
    var q := m + |pop|;
    var last := if s.result.None? then NRet else NRetVal(g.res);
    ReturnUnfold(s.result, b, n, ctx);
    ReturnShape(p, b, g, pop, last);
    forall i: nat | b <= i < q ensures On(ds, i, d) {
      assert Part(b, i, GenStmt(s, b, n, ctx).code);
    }
    assert Part(b, q, GenStmt(s, b, n, ctx).code);
    PoppedAll(p, ls, ds, ctx, m, d);
    OptionKeeps(p, ls, ds, s.result, b, n, d);
    OutsideKeeps(p, ls, ds, q);
  }

  /** Before a return everything has been left. */
  lemma PoppedAll(p: Nodes, ls: Labels, ds: Depths, ctx: Context, m: nat, d: N.Depth)
    requires At(p, m, ReturnPop(ctx)) && On(ds, m + |ReturnPop(ctx)|, OUTSIDE) && (ReturnPop(ctx) != [] ==> On(ds, m, d))
    requires |d.marks| == ctx.tries && |d.loops| == ctx.fors && Sound(ds, d)
    ensures KeepsIn(p, ls, ds, m, m + |ReturnPop(ctx)|) && On(ds, m, d)
  {
    hide N.Ordered, N.AtHandler;
    if ReturnPop(ctx) != [] {
      AtOne(p, m, NPopScope(ctx.scope, ctx.tries, ctx.fors));
      assert N.Depth(d.marks[ctx.tries..], d.loops[ctx.fors..]) == OUTSIDE;
    } else {
      assert d == OUTSIDE;
    }
  }

  lemma OutsideKeeps(p: Nodes, ls: Labels, ds: Depths, i: nat)
    requires i < |p| && (p[i].NRet? || p[i].NRetVal? || p[i].NEnd?) && On(ds, i, OUTSIDE)
    ensures KeepsAt(p, ls, ds, i)
  {}

  lemma {:induction false} ThrowKeeps(p: Nodes, ls: Labels, ds: Depths, s: Stmt, b: nat, n: nat, ctx: Context, d: N.Depth)
    requires s.Throw? && Ready(p, ls, ds, s, b, n, ctx, d)
    ensures Done(p, ls, ds, s, b, n, ctx, d)
    decreases s, 0
  {
    hide GenStmt, GenExpr, At, LabelsOf, Compilable, On, Sound;
    var g := GenExpr(s.e, b, n, None);
    var q := b + |g.code|;
    assert GenStmt(s, b, n, ctx) == BuildThrow(g) by { ThrowIs(s, b, n, ctx); }
    AtLast(p, b, g.code, NThrow(g.res));
    forall i: nat | b <= i <= q ensures On(ds, i, d) {
      assert Part(b, i, GenStmt(s, b, n, ctx).code);
    }
    ExprKeeps(p, ls, ds, s.e, b, n, d);
    ThrownKeeps(p, ls, ds, q, d);
  }

  lemma ThrowIs(s: Stmt, b: nat, n: nat, ctx: Context)
    requires s.Throw?
    ensures GenStmt(s, b, n, ctx) == BuildThrow(GenExpr(s.e, b, n, None))
  {}

  lemma ThrownKeeps(p: Nodes, ls: Labels, ds: Depths, i: nat, d: N.Depth)
    requires i < |p| && p[i].NThrow? && On(ds, i, d) && Sound(ds, d)
    ensures KeepsAt(p, ls, ds, i)
  {
    hide N.Ordered, N.AtHandler, Resolve;
  }

  lemma {:induction false} LeaveKeeps(p: Nodes, ls: Labels, ds: Depths, s: Stmt, b: nat, n: nat, ctx: Context, d: N.Depth)
    requires (s.Break? || s.Continue?) && Ready(p, ls, ds, s, b, n, ctx, d)
    ensures Done(p, ls, ds, s, b, n, ctx, d)
    decreases s, 0
  {
    hide At, LabelsOf, On, Sound, Goes, KeepsAt, Left, Levels.GetTry, Levels.GetFor;
    var t := if s.Break? then ctx.brk else ctx.cont;
    assert t.Some? && GenStmt(s, b, n, ctx).code == LeaveCode(ctx, t, s.Break?);
    assert Part(b, b, GenStmt(s, b, n, ctx).code) && Part(b, b + 1, GenStmt(s, b, n, ctx).code);
    LeftKeeps(p, ls, ds, ctx, t.value, s.Break?, b, d);
  }

  lemma LeftKeeps(p: Nodes, ls: Labels, ds: Depths, ctx: Context, t: Target, popFors: bool, b: nat, d: N.Depth)
    requires At(p, b, LeaveCode(ctx, Some(t), popFors)) && |d.marks| == ctx.tries && |d.loops| == ctx.fors && Sound(ds, d)
    requires LeadsTo(ls, ds, ctx, d, Some(t), popFors) && On(ds, b, d) && On(ds, b + 1, Left(t, d, popFors))
    ensures KeepsIn(p, ls, ds, b, b + 2)
  {
    hide Levels.GetTry, Levels.GetFor, N.Ordered, N.AtHandler, On, KeepsAt;
    var nt, nf := ctx.tries - Levels.GetTry(t.level), if popFors then ctx.fors - Levels.GetFor(t.level) else 0;
    var ns := ctx.scope - Levels.GetScope(t.level);
    AtTwo(p, b, NPopScope(ns, nt, nf), NB(t.lab));
    assert Left(t, d, popFors) == N.Depth(d.marks[nt..], d.loops[nf..]);
    PopKeeps(p, ls, ds, b, ns, nt, nf, d);
    JumpKeeps(p, ls, ds, b + 1, t.lab, Left(t, d, popFors));
  }

  lemma PopKeeps(p: Nodes, ls: Labels, ds: Depths, i: nat, ns: int, nt: nat, nf: nat, d: N.Depth)
    requires i < |p| && p[i] == NPopScope(ns, nt, nf) && nt <= |d.marks| && nf <= |d.loops| && On(ds, i, d) && Sound(ds, d)
    requires On(ds, i + 1, N.Depth(d.marks[nt..], d.loops[nf..]))
    ensures KeepsAt(p, ls, ds, i)
  {
    hide N.Ordered, N.AtHandler;
  }

  lemma {:induction false} SimpleStmtKeeps(p: Nodes, ls: Labels, ds: Depths, s: Stmt, b: nat, n: nat, ctx: Context, d: N.Depth)
    requires s.Do? && Ready(p, ls, ds, s, b, n, ctx, d)
    ensures Done(p, ls, ds, s, b, n, ctx, d)
    decreases s, 0
  {
    hide GenSimple, At, LabelsOf, Compilable, On, Sound;
    var q := b + |GenStmt(s, b, n, ctx).code|;
    forall i: nat | b <= i <= q ensures On(ds, i, d) {
      if i < q { assert Part(b, i, GenStmt(s, b, n, ctx).code); }
    }
    SimpleKeeps(p, ls, ds, s.simple, b, n, d);
  }

  // ----- switch -----

  ghost predicate AllGo(ls: Labels, ds: Depths, labels: seq<Option<nat>>, d: N.Depth) {
    forall k :: 0 <= k < |labels| && labels[k].Some? ==> Goes(ls, ds, labels[k].value, d)
  }

  /** The comparisons branch to the clauses. */
  lemma {:induction false} TestsKeep(p: Nodes, ls: Labels, ds: Depths, cs: Cases, o: Opd, b: nat, n: nat, d: N.Depth)
    requires LabelsOf(p, ls) && At(p, b, GenTests(cs, o, b, n).code) && Sound(ds, d)
    requires Level(ds, b, b + |GenTests(cs, o, b, n).code|, d) && AllGo(ls, ds, GenTests(cs, o, b, n).labels, d)
    ensures KeepsIn(p, ls, ds, b, b + |GenTests(cs, o, b, n).code|)
    decreases cs, 1
  {
    hide GenExpr, At, LabelsOf, On, Sound, Goes, KeepsAt;
    match cs
    case NoCases =>
    case Default(_, rest) =>
      AllTail(ls, ds, None, GenTests(rest, o, b, n).labels, d);
      TestsKeep(p, ls, ds, rest, o, b, n, d);
    case Case(_, _, _, _) => TestKeeps(p, ls, ds, cs, o, b, n, d);
  }

  lemma {:induction false} TestKeeps(p: Nodes, ls: Labels, ds: Depths, cs: Cases, o: Opd, b: nat, n: nat, d: N.Depth)
    requires cs.Case? && LabelsOf(p, ls) && At(p, b, GenTests(cs, o, b, n).code) && Sound(ds, d)
    requires Level(ds, b, b + |GenTests(cs, o, b, n).code|, d) && AllGo(ls, ds, GenTests(cs, o, b, n).labels, d)
    ensures KeepsIn(p, ls, ds, b, b + |GenTests(cs, o, b, n).code|)
    decreases cs, 0
  {
    hide GenExpr, GenTests, At, LabelsOf, On, Sound, Goes, KeepsAt, AllGo;
    var c := GenExpr(cs.e, b, n + 1, None);
    var m := b + |c.code|;
    var g := GenTests(cs.rest, o, m + 2, c.next);
    StmtSim.TestsUnfold(cs.op, cs.e, cs.body, cs.rest, o, b, n);
    TestShape(p, cs.op, o, b, n, c, g);
    AllTail(ls, ds, Some(n), g.labels, d);
    assert Level(ds, b, m, d) && Level(ds, m + 2, m + 2 + |g.code|, d);
    ExprKeeps(p, ls, ds, cs.e, b, n + 1, d);
    PassKeeps(p, ls, ds, m, d);
    JumpKeeps(p, ls, ds, m + 1, n, d);
    TestsKeep(p, ls, ds, cs.rest, o, m + 2, c.next, d);
  }

  lemma AllTail(ls: Labels, ds: Depths, l: Option<nat>, labels: seq<Option<nat>>, d: N.Depth)
    ensures AllGo(ls, ds, [l] + labels, d) <==> AllGo(ls, ds, labels, d) && (l.Some? ==> Goes(ls, ds, l.value, d))
  {
    hide Goes;
    if AllGo(ls, ds, [l] + labels, d) {
      assert ([l] + labels)[0] == l;
      forall k | 0 <= k < |labels| && labels[k].Some? ensures Goes(ls, ds, labels[k].value, d) {
        assert ([l] + labels)[k + 1] == labels[k];
      }
    }
  }

  ghost predicate ClausesLaid(ls: Labels, ds: Depths, cs: Cases, labels: seq<Option<nat>>, dflt: nat, b: nat, n: nat, ctx: Context, d: N.Depth)
    requires |labels| == CountCases(cs)
  {
    forall i: nat :: Part(b, i, GenBodies(cs, labels, dflt, b, n, ctx).code) ==> On(ds, i, ClauseDepthAt(ls, cs, labels, dflt, b, n, ctx, d, i))
  }

  lemma ClauseLaid(ls: Labels, ds: Depths, cs: Cases, labels: seq<Option<nat>>, dflt: nat, b: nat, n: nat, ctx: Context, d: N.Depth)
    requires !cs.NoCases? && |labels| == CountCases(cs) && ClausesLaid(ls, ds, cs, labels, dflt, b, n, ctx, d)
    ensures var g := GenStmt(cs.body, b + 1, n, ctx);
            On(ds, b, d) && Laid(ls, ds, cs.body, b + 1, n, ctx, d) && ClausesLaid(ls, ds, cs.rest, labels[1..], dflt, b + 1 + |g.code|, g.next, ctx, d)
  {
    hide GenStmt, GenBodies, On, DepthAt;
    StmtSim.BodiesUnfold(cs, labels, dflt, b, n, ctx);
    var c := b + 1;
    var g := GenStmt(cs.body, c, n, ctx);
    var m := c + |g.code|;
    var all, h := GenBodies(cs, labels, dflt, b, n, ctx), GenBodies(cs.rest, labels[1..], dflt, m, g.next, ctx);
    assert |all.code| == 1 + |g.code| + |h.code|;
    assert Part(b, b, all.code);
    forall i: nat | Part(c, i, g.code) ensures On(ds, i, DepthAt(ls, cs.body, c, n, ctx, d, i)) {
      assert Part(b, i, all.code);
    }
    forall i: nat | Part(m, i, h.code) ensures On(ds, i, ClauseDepthAt(ls, cs.rest, labels[1..], dflt, m, g.next, ctx, d, i)) {
      assert Part(b, i, all.code);
    }
  }

  /** The bodies, and where their labels are. */
  lemma {:induction false} ClausesKeep(p: Nodes, ls: Labels, ds: Depths, cs: Cases, labels: seq<Option<nat>>, dflt: nat, b: nat, n: nat, ctx: Context, d: N.Depth)
    requires LabelsOf(p, ls) && NodeForm.LabelsFit(cs, labels) && At(p, b, GenBodies(cs, labels, dflt, b, n, ctx).code)
    requires ctx.brk.Some? && CompilableCases(cs, ctx.cont.Some?, ctx.scope, ctx.tries, ctx.fors) && Leads(ls, ds, ctx, d)
    requires ClausesLaid(ls, ds, cs, labels, dflt, b, n, ctx, d) && On(ds, b + |GenBodies(cs, labels, dflt, b, n, ctx).code|, d)
    ensures KeepsIn(p, ls, ds, b, b + |GenBodies(cs, labels, dflt, b, n, ctx).code|) && On(ds, b, d)
    ensures AllGo(ls, ds, labels, d) && (HasDefault(cs) ==> Goes(ls, ds, dflt, d))
    decreases cs, 1
  {
    hide GenStmt, GenBodies, At, Compilable, CompilableCases, NodeForm.LabelsFit, LabelsOf, Leads, ClausesLaid, Laid, On, Goes, KeepsAt, Sound;
    if cs.NoCases? {
      NoClauses(labels, dflt, b, n, ctx);
    } else {
      NodeForm.ClauseParts(cs, labels, ctx);
      StmtSim.BodiesUnfold(cs, labels, dflt, b, n, ctx);
      LeadsSound(ls, ds, ctx, d);
      ClauseLaid(ls, ds, cs, labels, dflt, b, n, ctx, d);
      var l := ClauseLabel(cs, labels, dflt);
      var g := GenStmt(cs.body, b + 1, n, ctx);
      var m := b + 1 + |g.code|;
      ClauseShape(p, b, l, g, GenBodies(cs.rest, labels[1..], dflt, m, g.next, ctx));
      LabelGoes(p, ls, ds, b, l, d);
      ClausesKeep(p, ls, ds, cs.rest, labels[1..], dflt, m, g.next, ctx, d);
      StmtKeeps(p, ls, ds, cs.body, b + 1, n, ctx, d);
      PassKeeps(p, ls, ds, b, d);
      assert labels == [labels[0]] + labels[1..];
      AllTail(ls, ds, labels[0], labels[1..], d);
      FirstLabel(cs, labels, dflt);
    }
  }

  lemma NoClauses(labels: seq<Option<nat>>, dflt: nat, b: nat, n: nat, ctx: Context)
    requires NodeForm.LabelsFit(NoCases, labels)
    ensures labels == [] && GenBodies(NoCases, labels, dflt, b, n, ctx).code == []
  {}

  lemma FirstLabel(cs: Cases, labels: seq<Option<nat>>, dflt: nat)
    requires !cs.NoCases? && NodeForm.LabelsFit(cs, labels)
    ensures if cs.Case? then labels[0] == Some(ClauseLabel(cs, labels, dflt)) && (HasDefault(cs) <==> HasDefault(cs.rest))
            else labels[0].None? && ClauseLabel(cs, labels, dflt) == dflt
  {}

  lemma SwitchLaid(ls: Labels, ds: Depths, s: Stmt, b: nat, n: nat, ctx: Context, d: N.Depth)
    requires s.Switch? && Laid(ls, ds, s, b, n, ctx, d)
    ensures var g := GenExpr(s.e, b, n + 1, None);
            var t := GenTests(s.cases, g.res, b + |g.code|, g.next);
            var dflt := if HasDefault(s.cases) then t.next else n;
            var n' := if HasDefault(s.cases) then t.next + 1 else t.next;
            var m := b + |g.code| + |t.code| + 1;
            var h := GenBodies(s.cases, t.labels, dflt, m, n', ctx.InSwitch(n));
            && Level(ds, b, m - 1, d) && ClausesLaid(ls, ds, s.cases, t.labels, dflt, m, n', ctx.InSwitch(n), d) && On(ds, m + |h.code|, d)
  {
    hide GenStmt, GenExpr, GenTests, GenBodies, On, ClauseDepthAt;
    var g := GenExpr(s.e, b, n + 1, None);
    var t := GenTests(s.cases, g.res, b + |g.code|, g.next);
    var dflt := if HasDefault(s.cases) then t.next else n;
    var n' := if HasDefault(s.cases) then t.next + 1 else t.next;
    var m := b + |g.code| + |t.code| + 1;
    var h := GenBodies(s.cases, t.labels, dflt, m, n', ctx.InSwitch(n));
    SwitchUnfold(s.e, s.cases, b, n, ctx);
    assert b + |GenStmt(s, b, n, ctx).code| == m + |h.code| + 1;
    forall i: nat | Part(m, i, h.code) ensures On(ds, i, ClauseDepthAt(ls, s.cases, t.labels, dflt, m, n', ctx.InSwitch(n), d, i)) {
      assert Part(b, i, GenStmt(s, b, n, ctx).code);
    }
    forall i: nat | b <= i < m || i == m + |h.code| ensures On(ds, i, d) {
      assert Part(b, i, GenStmt(s, b, n, ctx).code);
    }
  }

  lemma {:induction false} SwitchKeeps(p: Nodes, ls: Labels, ds: Depths, s: Stmt, b: nat, n: nat, ctx: Context, d: N.Depth)
    requires s.Switch? && Ready(p, ls, ds, s, b, n, ctx, d)
    ensures Done(p, ls, ds, s, b, n, ctx, d)
    decreases s, 0
  {
    hide GenStmt, GenExpr, GenTests, GenBodies, At, LabelsOf, Compilable, Leads, Laid, ClausesLaid, AllGo, On, KeepsAt, Sound, Goes, DepthAt;
    StmtSim.AllowedSwitch(s.e, s.cases, ctx);
    LeadsSound(ls, ds, ctx, d);
    var g := GenExpr(s.e, b, n + 1, None);
    var b0 := b + |g.code|;
    var t := GenTests(s.cases, g.res, b0, g.next);
    var dflt := if HasDefault(s.cases) then t.next else n;
    var n' := if HasDefault(s.cases) then t.next + 1 else t.next;
    var m := b0 + |t.code| + 1;
    var h := GenBodies(s.cases, t.labels, dflt, m, n', ctx.InSwitch(n));
    var q := m + |h.code|;
    SwitchUnfold(s.e, s.cases, b, n, ctx);
    SwitchShape(p, b, n, g, t, dflt, h);
    SwitchLaid(ls, ds, s, b, n, ctx, d);
    LabelGoes(p, ls, ds, q, n, d);
    SwitchLeads(ls, ds, ctx, d, n);
    NodeForm.TestsFit(s.cases, g.res, b0, g.next);
    ClausesKeep(p, ls, ds, s.cases, t.labels, dflt, m, n', ctx.InSwitch(n), d);
    assert Level(ds, b, b0, d) && Level(ds, b0, m - 1, d);
    ExprKeeps(p, ls, ds, s.e, b, n + 1, d);
    TestsKeep(p, ls, ds, s.cases, g.res, b0, g.next, d);
    JumpKeeps(p, ls, ds, m - 1, dflt, d);
    PassKeeps(p, ls, ds, q, d);
  }

  // ----- all statements -----

  lemma LeadsSound(ls: Labels, ds: Depths, ctx: Context, d: N.Depth)
    requires Leads(ls, ds, ctx, d)
    ensures Sound(ds, d)
  {}

  lemma LabelGoes(p: Nodes, ls: Labels, ds: Depths, q: nat, l: nat, d: N.Depth)
    requires LabelsOf(p, ls) && q < |p| && p[q] == NLabel(l) && On(ds, q, d)
    ensures Goes(ls, ds, l, d)
  {}

  /** The nodes of a statement keep to the depths of DepthAt. */
  lemma {:induction false} StmtKeeps(p: Nodes, ls: Labels, ds: Depths, s: Stmt, b: nat, n: nat, ctx: Context, d: N.Depth)
    requires Ready(p, ls, ds, s, b, n, ctx, d)
    ensures Done(p, ls, ds, s, b, n, ctx, d)
    decreases s, 1
  {
    hide Ready, Done;
    match s
    case Seq(_, _) => SeqKeeps(p, ls, ds, s, b, n, ctx, d);
    case If(_, _) => IfKeeps(p, ls, ds, s, b, n, ctx, d);
    case IfElse(_, _, _) => IfElseKeeps(p, ls, ds, s, b, n, ctx, d);
    case While(_, _) => WhileKeeps(p, ls, ds, s, b, n, ctx, d);
    case DoWhile(_, _) => DoKeeps(p, ls, ds, s, b, n, ctx, d);
    case For(_, _, _, _) => ForKeeps(p, ls, ds, s, b, n, ctx, d);
    case Compound(_, _) => CompoundKeeps(p, ls, ds, s, b, n, ctx, d);
    case Foreach(_, _, _, _) => ForeachKeeps(p, ls, ds, s, b, n, ctx, d);
    case TryCatch(_, _, _) => TryKeeps(p, ls, ds, s, b, n, ctx, d);
    case Return(_) => ReturnKeeps(p, ls, ds, s, b, n, ctx, d);
    case Throw(_) => ThrowKeeps(p, ls, ds, s, b, n, ctx, d);
    case Break => LeaveKeeps(p, ls, ds, s, b, n, ctx, d);
    case Continue => LeaveKeeps(p, ls, ds, s, b, n, ctx, d);
    case Do(_) => SimpleStmtKeeps(p, ls, ds, s, b, n, ctx, d);
    case Switch(_, _) => SwitchKeeps(p, ls, ds, s, b, n, ctx, d);
  }
}

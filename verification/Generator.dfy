/** The code generator itself: a walk over the parse tree that appends nodes to a list, hands out
    labels and keeps track of nesting.  It issues the list that IntermediateForm specifies. */
module Generator {
  import opened Values
  import opened Source
  import opened IntermediateForm
  import opened StmtShape
  import ExprSim
  import Levels
  import StmtSim

  function Top(labels: seq<nat>, levels: seq<nat>): Option<Target> {
    if labels == [] || levels == [] then None else Some(Target(labels[0], levels[0]))
  }

  /** setDest on a node of the list. */
  function WithDest(x: Node, d: nat): Node {
    match x
    case NTemp(_) => NTemp(Some(d))
    case NUn(op, a, _) => NUn(op, a, Some(d))
    case NBin(op, a, b, _) => NBin(op, a, b, Some(d))
    case _ => x
  }

  lemma FirstSet(c: seq<Node>, c': seq<Node>, x: Node)
    requires |c| == |c'| > 0 && c'[0] == x && c'[1..] == c[1..]
    ensures c' == c[0 := x]
  {
    assert c' == [c'[0]] + c'[1..];
  }

  lemma LastSet(c: seq<Node>, x: Node, x': Node)
    ensures c + [x'] == (c + [x])[|c| := x']
  {}

  lemma LogicalSet(b: nat, n: nat, x: nat, l: Gen, mid: seq<Node>, r: Gen)
    ensures var g := BuildLogical(b, n, None, l, mid, r);
            BuildLogical(b, n, Some(x), l, mid, r) == Gen(g.code[0 := NTemp(Some(x))], g.next, g.res) && |g.code| > 0 && g.code[0] == NTemp(None)
  {
    var tail := l.code + mid + r.code + [NMov(MNode(b), r.res), NLabel(n)];
    var c, c' := BuildLogical(b, n, None, l, mid, r).code, BuildLogical(b, n, Some(x), l, mid, r).code;
    assert c[1..] == tail && c'[1..] == tail;
    FirstSet(c, c', NTemp(Some(x)));
  }

  lemma CondSet(b: nat, x: nat, l: Gen, mid: seq<Node>, r: Gen, q: Gen)
    ensures var g := BuildCond(b, None, l, mid, r, q);
            BuildCond(b, Some(x), l, mid, r, q) == Gen(g.code[0 := NTemp(Some(x))], g.next, g.res) && |g.code| > 0 && g.code[0] == NTemp(None)
  {
    var head := l.code + mid + r.code + [NMov(MNode(b), r.res), NB(l.next + 1), NLabel(l.next)];
    var tail := q.code + [NMov(MNode(b), q.res), NLabel(l.next + 1)];
    var c, c' := BuildCond(b, None, l, mid, r, q).code, BuildCond(b, Some(x), l, mid, r, q).code;
    assert c[1..] == head + tail && c'[1..] == head + tail;
    FirstSet(c, c', NTemp(Some(x)));
  }

  /** The code of an expression with destination x is the code without, with the destination set on
      the node that holds the result. */
  lemma DestinationSet(e: Expr, b: nat, n: nat, x: nat)
    requires !IsLeaf(e)
    ensures var g := GenExpr(e, b, n, None);
            && g.res.ONode? && b <= g.res.n < b + |g.code|
            && GenExpr(e, b, n, Some(x)) == Gen(g.code[g.res.n - b := WithDest(g.code[g.res.n - b], x)], g.next, g.res)
  {
    hide GenExpr, AndMid, OrMid, TestBranch, BuildLogical, BuildCond;
    match e
    case Un(op, a) =>
      ExprSim.UnUnfold(op, a, b, n, None);
      ExprSim.UnUnfold(op, a, b, n, Some(x));
      var l := GenExpr(a, b, n, None);
      LastSet(l.code, NUn(op, l.res, None), NUn(op, l.res, Some(x)));
    case Bin(op, a1, a2) =>
      ExprSim.BinUnfold(op, a1, a2, b, n, None);
      ExprSim.BinUnfold(op, a1, a2, b, n, Some(x));
      var l := GenExpr(a1, b, n, None);
      var r := GenExpr(a2, b + |l.code|, l.next, None);
      LastSet(l.code + r.code, NBin(op, l.res, r.res, None), NBin(op, l.res, r.res, Some(x)));
    case And(a1, a2) =>
      ExprSim.AndUnfold(a1, a2, b, n, None);
      ExprSim.AndUnfold(a1, a2, b, n, Some(x));
      var l := GenExpr(a1, b + 1, n + 1, None);
      var mid := AndMid(a1, l, b, n);
      LogicalResult(b, n, l, mid, GenExpr(a2, b + 1 + |l.code| + |mid|, l.next, None));
      LogicalSet(b, n, x, l, mid, GenExpr(a2, b + 1 + |l.code| + |mid|, l.next, None));
    case Or(a1, a2) =>
      ExprSim.OrUnfold(a1, a2, b, n, None);
      ExprSim.OrUnfold(a1, a2, b, n, Some(x));
      var l := GenExpr(a1, b + 1, n + 1, None);
      var mid := OrMid(l, b, n);
      LogicalResult(b, n, l, mid, GenExpr(a2, b + 1 + |l.code| + |mid|, l.next, None));
      LogicalSet(b, n, x, l, mid, GenExpr(a2, b + 1 + |l.code| + |mid|, l.next, None));
    case Cond(c, a1, a2) =>
      ExprSim.CondUnfold(c, a1, a2, b, n, None);
      ExprSim.CondUnfold(c, a1, a2, b, n, Some(x));
      var l := GenExpr(c, b + 1, n, None);
      var mid := TestBranch(c, l.res, b + 1 + |l.code|, l.next);
      var r := GenExpr(a1, b + 1 + |l.code| + |mid|, l.next + 2, None);
      CondResult(b, l, mid, r, GenExpr(a2, b + 4 + |l.code| + |mid| + |r.code|, r.next, None));
      CondSet(b, x, l, mid, r, GenExpr(a2, b + 4 + |l.code| + |mid| + |r.code|, r.next, None));
  }

  lemma LogicalResult(b: nat, n: nat, l: Gen, mid: seq<Node>, r: Gen)
    ensures BuildLogical(b, n, None, l, mid, r).res == ONode(b)
  {}

  lemma CondResult(b: nat, l: Gen, mid: seq<Node>, r: Gen, q: Gen)
    ensures BuildCond(b, None, l, mid, r, q).res == ONode(b)
  {}

  /** compareTrue recognises a comparison by the node that was issued for it. */
  lemma ComparisonNode(e: Expr, b: nat, n: nat)
    ensures var g := GenExpr(e, b, n, None);
            && (g.res.ONode? ==> b <= g.res.n < b + |g.code|)
            && ((e.Bin? && IsCompare(e.bop)) <==> g.res.ONode? && IsComparison(g.code[g.res.n - b]))
  {
    hide GenExpr, AndMid, OrMid, TestBranch;
    LeafResult(e, b, n);
    match e
    case Un(op, a) => ExprSim.UnUnfold(op, a, b, n, None);
    case Bin(op, a1, a2) => ExprSim.BinUnfold(op, a1, a2, b, n, None);
    case And(a1, a2) => ExprSim.AndUnfold(a1, a2, b, n, None);
    case Or(a1, a2) => ExprSim.OrUnfold(a1, a2, b, n, None);
    case Cond(c, a1, a2) => ExprSim.CondUnfold(c, a1, a2, b, n, None);
    case _ =>
  }

  predicate IsComparison(x: Node) {
    x.NBin? && IsCompare(x.bop)
  }

  class CodeGenerator {
    var code: seq<Node>
    var nextLabel: nat
    var breakLabels: seq<nat>      // stacks, top first
    var continueLabels: seq<nat>
    var breakscopes: seq<nat>
    var continuescopes: seq<nat>
    var scopeLevel: nat
    var trylevel: nat
    var foreachlevel: nat

    constructor ()
      ensures code == [] && nextLabel == 0 && Ctx() == TOP
    {
      code, nextLabel := [], 0;
      breakLabels, continueLabels, breakscopes, continuescopes := [], [], [], [];
      scopeLevel, trylevel, foreachlevel := 0, 0, 0;
    }

    ghost function Ctx(): Context
      reads `breakLabels, `continueLabels, `breakscopes, `continuescopes, `scopeLevel, `trylevel, `foreachlevel
    {
      Context(Top(breakLabels, breakscopes), Top(continueLabels, continuescopes), scopeLevel, trylevel, foreachlevel)
    }

    twostate predicate SameNesting()
      reads `breakLabels, `continueLabels, `breakscopes, `continuescopes, `scopeLevel, `trylevel, `foreachlevel
    {
      && breakLabels == old(breakLabels) && continueLabels == old(continueLabels)
      && breakscopes == old(breakscopes) && continuescopes == old(continuescopes)
      && scopeLevel == old(scopeLevel) && trylevel == old(trylevel) && foreachlevel == old(foreachlevel)
    }

    method Issue(x: Node) returns (at: nat)
      modifies this`code
      ensures code == old(code) + [x] && at == |old(code)|
    {
      at := |code|;
      code := code + [x];
    }

    method NewLabel() returns (l: nat)
      modifies this`nextLabel
      ensures l == old(nextLabel) && nextLabel == l + 1
    {
      l := nextLabel;
      nextLabel := nextLabel + 1;
    }

    /** The operand to test for truth: a comparison itself, otherwise a comparison with zero. */
    method CompareTrue(ghost e: Expr, ghost b: nat, ghost n: nat, res: Opd) returns (o: Opd)
      requires b + |GenExpr(e, b, n, None).code| <= |code| && res == GenExpr(e, b, n, None).res
      requires code[b..b + |GenExpr(e, b, n, None).code|] == GenExpr(e, b, n, None).code
      modifies this`code
      ensures code == old(code) + TestCode(e, res) && o == TestOpd(e, res, |old(code)|)
    {
      hide GenExpr;
      ComparisonNode(e, b, n);
      ghost var g := GenExpr(e, b, n, None);
      if res.ONode? {
        assert code[res.n] == code[b..b + |g.code|][res.n - b];
      }
      if res.ONode? && IsComparison(code[res.n]) {
        o := res;
      } else {
        var at := Issue(NBin(CmpNe, res, OImm(ZERO), None));
        o := ONode(at);
      }
    }

    /** Issue the test of a condition and the branch taken when it fails. */
    method BranchUnless(ghost e: Expr, ghost b: nat, ghost n: nat, res: Opd, target: nat)
      requires b + |GenExpr(e, b, n, None).code| <= |code| && res == GenExpr(e, b, n, None).res
      requires code[b..b + |GenExpr(e, b, n, None).code|] == GenExpr(e, b, n, None).code
      modifies this`code
      ensures code == old(code) + TestBranch(e, res, |old(code)|, target)
    {
      hide GenExpr, TestCode, TestOpd;
      var test := CompareTrue(e, b, n, res);
      var at := Issue(NBF(test, target));
    }

    method Expression(e: Expr) returns (res: Opd)
      modifies this`code, this`nextLabel
      ensures var g := GenExpr(e, |old(code)|, old(nextLabel), None); code == old(code) + g.code && nextLabel == g.next && res == g.res
      decreases e, 1
    {
      match e
      case Const(v) => res := OImm(v);
      case Var(x) => res := OVar(x);
      case Un(op, a) => res := Unary(op, a);
      case Bin(op, a, b) => res := Binary(op, a, b);
      case And(a, b) => res := LogicalAnd(a, b);
      case Or(a, b) => res := LogicalOr(a, b);
      case Cond(c, a, b) => res := Conditional(c, a, b);
    }

    method Unary(op: UnOp, a: Expr) returns (res: Opd)
      modifies this`code, this`nextLabel
      ensures var g := GenExpr(Un(op, a), |old(code)|, old(nextLabel), None); code == old(code) + g.code && nextLabel == g.next && res == g.res
      decreases a, 2
    {
      hide GenExpr;
      ExprSim.UnUnfold(op, a, |code|, nextLabel, None);
      var left := Expression(a);
      var at := Issue(NUn(op, left, None));
      res := ONode(at);
    }

    method Binary(op: BinOp, a: Expr, b: Expr) returns (res: Opd)
      modifies this`code, this`nextLabel
      ensures var g := GenExpr(Bin(op, a, b), |old(code)|, old(nextLabel), None); code == old(code) + g.code && nextLabel == g.next && res == g.res
      decreases Bin(op, a, b), 0
    {
      hide GenExpr;
      ExprSim.BinUnfold(op, a, b, |code|, nextLabel, None);
      var left := Expression(a);
      var right := Expression(b);
      var at := Issue(NBin(op, left, right, None));
      res := ONode(at);
    }

    method LogicalAnd(a: Expr, b: Expr) returns (res: Opd)
      modifies this`code, this`nextLabel
      ensures var g := GenExpr(And(a, b), |old(code)|, old(nextLabel), None); code == old(code) + g.code && nextLabel == g.next && res == g.res
      decreases And(a, b), 0
    {
      hide GenExpr, TestCode, TestOpd;
      ghost var c0, n0 := code, nextLabel;
      ExprSim.AndUnfold(a, b, |c0|, n0, None);
      var temp := Issue(NTemp(None));
      var endlabel := NewLabel();
      var left := Expression(a);
      ghost var l := GenExpr(a, |c0| + 1, n0 + 1, None);
      assert code == c0 + ([NTemp(None)] + l.code);
      var at := Issue(NMov(MNode(temp), left));
      var test := CompareTrue(a, |c0| + 1, n0 + 1, left);
      at := Issue(NBF(test, endlabel));
      assert code == c0 + ([NTemp(None)] + l.code + AndMid(a, l, |c0|, n0));
      var right := Expression(b);
      at := Issue(NMov(MNode(temp), right));
      at := Issue(NLabel(endlabel));
      res := ONode(temp);
    }

    method LogicalOr(a: Expr, b: Expr) returns (res: Opd)
      modifies this`code, this`nextLabel
      ensures var g := GenExpr(Or(a, b), |old(code)|, old(nextLabel), None); code == old(code) + g.code && nextLabel == g.next && res == g.res
      decreases Or(a, b), 0
    {
      hide GenExpr;
      ghost var c0, n0 := code, nextLabel;
      ExprSim.OrUnfold(a, b, |c0|, n0, None);
      var temp := Issue(NTemp(None));
      var endlabel := NewLabel();
      var left := Expression(a);
      ghost var l := GenExpr(a, |c0| + 1, n0 + 1, None);
      var at := Issue(NMov(MNode(temp), left));
      at := Issue(NBT(left, endlabel));
      assert code == c0 + ([NTemp(None)] + l.code + OrMid(l, |c0|, n0));
      var right := Expression(b);
      at := Issue(NMov(MNode(temp), right));
      at := Issue(NLabel(endlabel));
      res := ONode(temp);
    }

    method Conditional(c: Expr, a: Expr, b: Expr) returns (res: Opd)
      modifies this`code, this`nextLabel
      ensures var g := GenExpr(Cond(c, a, b), |old(code)|, old(nextLabel), None); code == old(code) + g.code && nextLabel == g.next && res == g.res
      decreases Cond(c, a, b), 0
    {
      hide GenExpr, TestBranch;
      ghost var c0, n0 := code, nextLabel;
      ExprSim.CondUnfold(c, a, b, |c0|, n0, None);
      var temp := Issue(NTemp(None));
      var left := Expression(c);
      ghost var l := GenExpr(c, |c0| + 1, n0, None);
      var label1 := NewLabel();
      var label2 := NewLabel();
      BranchUnless(c, |c0| + 1, n0, left, label1);
      ghost var first := [NTemp(None)] + l.code + TestBranch(c, left, |c0| + 1 + |l.code|, label1);
      assert code == c0 + first;
      var right := Expression(a);
      ghost var r := GenExpr(a, |c0 + first|, l.next + 2, None);
      var at := Issue(NMov(MNode(temp), right));
      at := Issue(NB(label2));
      at := Issue(NLabel(label1));
      ghost var second := first + r.code + [NMov(MNode(temp), right), NB(label2), NLabel(label1)];
      assert code == c0 + second;
      Otherwise(b, temp, label2);
      res := ONode(temp);
    }

    /** The second arm of a conditional. */
    method Otherwise(b: Expr, temp: nat, endlabel: nat)
      modifies this`code, this`nextLabel
      ensures var q := GenExpr(b, |old(code)|, old(nextLabel), None);
              code == old(code) + (q.code + [NMov(MNode(temp), q.res), NLabel(endlabel)]) && nextLabel == q.next
      decreases b, 2
    {
      hide GenExpr;
      var right := Expression(b);
      var at := Issue(NMov(MNode(temp), right));
      at := Issue(NLabel(endlabel));
    }
  
    // ----- statements -----

    /** store: a leaf or the result of a further store is moved to x; any other expression node gets
        x as its destination. */
    method Store(x: nat, r: Rhs) returns (res: Opd)
      modifies this`code, this`nextLabel
      ensures var g := GenRhs(x, r, |old(code)|, old(nextLabel)); code == old(code) + g.code && nextLabel == g.next && res == g.res
      decreases r
    {
      match r
      case Plain(e) =>
        res := StoreExpression(x, e);
      case Chain(y, r') =>
        var value := Store(y, r');
        var at := Issue(NMov(MVar(x), value));
        res := OVar(x);
    }

    method StoreExpression(x: nat, e: Expr) returns (res: Opd)
      modifies this`code, this`nextLabel
      ensures var g := GenRhs(x, Plain(e), |old(code)|, old(nextLabel)); code == old(code) + g.code && nextLabel == g.next && res == g.res
    {
      hide GenExpr, WithDest;
      LeafResult(e, |code|, nextLabel);
      if !IsLeaf(e) { DestinationSet(e, |code|, nextLabel, x); }
      ghost var c0 := code;
      var value := Expression(e);
      if value.ONode? {
        ghost var c := GenExpr(e, |c0|, old(nextLabel), None).code;
        UpdateTail(c0, c, value.n, WithDest(code[value.n], x));
        code := code[value.n := WithDest(code[value.n], x)];
        res := value;
      } else {
        var at := Issue(NMov(MVar(x), value));
        res := OVar(x);
      }
    }

    method BuildSimple(s: Simple)
      modifies this`code, this`nextLabel
      ensures var g := GenSimple(s, |old(code)|, old(nextLabel)); code == old(code) + g.code && nextLabel == g.next
    {
      match s
      case Skip =>
      case Evaluate(e) => var res := Expression(e);
      case Assign(x, r) => var res := Store(x, r);
    }

    /** The code of a statement has been issued, and the nesting is what it was. */
    twostate predicate Built(s: Stmt)
      reads this
    {
      var g := GenStmt(s, |old(code)|, old(nextLabel), old(Ctx()));
      code == old(code) + g.code && nextLabel == g.next && SameNesting()
    }

    method EnterLoop(brk: nat, cont: nat)
      modifies this`breakLabels, this`continueLabels, this`breakscopes, this`continuescopes
      ensures breakLabels == [brk] + old(breakLabels) && continueLabels == [cont] + old(continueLabels)
      ensures breakscopes == [old(Ctx()).Level()] + old(breakscopes) && continuescopes == [old(Ctx()).Level()] + old(continuescopes)
      ensures Ctx() == old(Ctx()).InLoop(brk, cont)
    {
      var level := Levels.Pack(0, trylevel, scopeLevel, foreachlevel);
      continueLabels := [cont] + continueLabels;
      breakLabels := [brk] + breakLabels;
      breakscopes := [level] + breakscopes;
      continuescopes := [level] + continuescopes;
    }

    method LeaveLoop()
      requires breakLabels != [] && continueLabels != [] && breakscopes != [] && continuescopes != []
      modifies this`breakLabels, this`continueLabels, this`breakscopes, this`continuescopes
      ensures breakLabels == old(breakLabels)[1..] && continueLabels == old(continueLabels)[1..]
      ensures breakscopes == old(breakscopes)[1..] && continuescopes == old(continuescopes)[1..]
    {
      breakLabels, continueLabels, breakscopes, continuescopes := breakLabels[1..], continueLabels[1..], breakscopes[1..], continuescopes[1..];
    }

    method BuildIf(c: Expr, s1: Stmt)
      requires StmtSim.Allowed(If(c, s1), Ctx())
      modifies this
      ensures Built(If(c, s1))
      decreases If(c, s1), 0
    {
      hide GenExpr, GenStmt, TestBranch;
      ghost var c0, n0, ctx := code, nextLabel, Ctx();
      IfUnfold(c, s1, |c0|, n0, ctx);
      StmtSim.AllowedParts(If(c, s1), ctx);
      var cond := Expression(c);
      ghost var g := GenExpr(c, |c0|, n0, None);
      var endlabel := NewLabel();
      BranchUnless(c, |c0|, n0, cond, endlabel);
      ghost var mid := TestBranch(c, g.res, |c0| + |g.code|, g.next);
      assert code == c0 + (g.code + mid);
      Build(s1);
      var at := Issue(NLabel(endlabel));
    }

    method BuildIfElse(c: Expr, s1: Stmt, s2: Stmt)
      requires StmtSim.Allowed(IfElse(c, s1, s2), Ctx())
      modifies this
      ensures Built(IfElse(c, s1, s2))
      decreases IfElse(c, s1, s2), 0
    {
      hide GenExpr, GenStmt, TestBranch, StmtSim.Allowed;
      ghost var c0, n0, ctx := code, nextLabel, Ctx();
      IfElseUnfold(c, s1, s2, |c0|, n0, ctx);
      StmtSim.AllowedParts(IfElse(c, s1, s2), ctx);
      var cond := Expression(c);
      ghost var g := GenExpr(c, |c0|, n0, None);
      var label1 := NewLabel();
      var label2 := NewLabel();
      BranchUnless(c, |c0|, n0, cond, label1);
      ghost var first := g.code + TestBranch(c, g.res, |c0| + |g.code|, g.next);
      assert code == c0 + first;
      Build(s1);
      ghost var h := GenStmt(s1, |c0 + first|, g.next + 2, ctx);
      Join2(label2, label1);
      ghost var second := first + h.code + [NB(label2), NLabel(label1)];
      assert code == c0 + second;
      Build(s2);
      ghost var k := GenStmt(s2, |c0 + second|, h.next, ctx);
      var at := Issue(NLabel(label2));
      assert code == c0 + (second + (k.code + [NLabel(label2)]));
    }

    /** A branch followed by a label. */
    method Join2(target: nat, l: nat)
      modifies this`code
      ensures code == old(code) + [NB(target), NLabel(l)]
    {
      var at := Issue(NB(target));
      at := Issue(NLabel(l));
    }

    method BuildWhile(c: Expr, body: Stmt)
      requires StmtSim.Allowed(While(c, body), Ctx())
      modifies this
      ensures Built(While(c, body))
      decreases While(c, body), 0
    {
      hide GenExpr, GenStmt, TestBranch;
      WhileUnfold(c, body, |code|, nextLabel, Ctx());
      StmtSim.AllowedParts(While(c, body), Ctx());
      var looplabel := NewLabel();
      var endlabel := NewLabel();
      EnterLoop(endlabel, looplabel);
      WhileCode(c, body, looplabel);
      LeaveLoop();
    }

    /** The nodes of a while loop with labels n and n + 1. */
    method WhileCode(c: Expr, body: Stmt, n: nat)
      requires StmtSim.Allowed(body, Ctx())
      modifies this
      ensures var g := GenExpr(c, |old(code)| + 1, old(nextLabel), None);
              var mid := TestBranch(c, g.res, |old(code)| + 1 + |g.code|, n + 1);
              var h := GenStmt(body, |old(code)| + 1 + |g.code| + |mid|, g.next, old(Ctx()));
              code == old(code) + IntermediateForm.BuildWhile(n, g, mid, h).code && nextLabel == h.next
      ensures SameNesting()
      decreases body, 2
    {
      hide GenExpr, GenStmt, TestBranch;
      ghost var c0, n0 := code, nextLabel;
      var at := Issue(NLabel(n));
      var cond := Expression(c);
      ghost var g := GenExpr(c, |c0| + 1, n0, None);
      BranchUnless(c, |c0| + 1, n0, cond, n + 1);
      ghost var mid := TestBranch(c, g.res, |c0| + 1 + |g.code|, n + 1);
      assert code == c0 + ([NLabel(n)] + g.code + mid);
      Build(body);
      Join2(n, n + 1);
    }

    method BuildDo(body: Stmt, c: Expr)
      requires StmtSim.Allowed(DoWhile(body, c), Ctx())
      modifies this
      ensures Built(DoWhile(body, c))
      decreases DoWhile(body, c), 0
    {
      hide GenExpr, GenStmt, TestCode, TestOpd;
      DoUnfold(body, c, |code|, nextLabel, Ctx());
      StmtSim.AllowedParts(DoWhile(body, c), Ctx());
      var looplabel := NewLabel();
      var endlabel := NewLabel();
      EnterLoop(endlabel, looplabel);
      DoCode(body, c, looplabel);
      LeaveLoop();
    }

    lemma Tail(a: seq<Node>, b: seq<Node>)
      ensures (a + b)[|a|..|a| + |b|] == b
    {}

    method DoCode(body: Stmt, c: Expr, n: nat)
      requires StmtSim.Allowed(body, Ctx())
      modifies this
      ensures var h := GenStmt(body, |old(code)| + 1, old(nextLabel), old(Ctx()));
              var m := |old(code)| + 1 + |h.code|;
              var g := GenExpr(c, m, h.next, None);
              code == old(code) + IntermediateForm.BuildDo(n, h, g, TestCode(c, g.res), TestOpd(c, g.res, m + |g.code|)).code && nextLabel == g.next
      ensures SameNesting()
      decreases body, 2
    {
      hide GenExpr, GenStmt, TestCode, TestOpd;
      ghost var c0 := code;
      var at := Issue(NLabel(n));
      Build(body);
      ghost var c1, n1 := code, nextLabel;
      var cond := Expression(c);
      Tail(c1, GenExpr(c, |c1|, n1, None).code);
      var test := CompareTrue(c, |c1|, n1, cond);
      at := Issue(NBT(test, n));
      at := Issue(NLabel(n + 1));
    }

    method BuildFor(init: Simple, cond: Option<Expr>, incr: Simple, body: Stmt)
      requires StmtSim.Allowed(For(init, cond, incr, body), Ctx())
      modifies this
      ensures Built(For(init, cond, incr, body))
      decreases For(init, cond, incr, body), 0
    {
      hide GenExpr, GenStmt, GenSimple, GenForTest;
      ForUnfold(init, cond, incr, body, |code|, nextLabel, Ctx());
      StmtSim.AllowedParts(For(init, cond, incr, body), Ctx());
      var looplabel := NewLabel();
      var endlabel := NewLabel();
      var contlabel := NewLabel();
      EnterLoop(endlabel, contlabel);
      ForCode(init, cond, incr, body, looplabel);
      LeaveLoop();
    }

    method ForCode(init: Simple, cond: Option<Expr>, incr: Simple, body: Stmt, n: nat)
      requires StmtSim.Allowed(body, Ctx())
      modifies this
      ensures var i := GenSimple(init, |old(code)|, old(nextLabel));
              var m := |old(code)| + |i.code| + 1;
              var g := GenForTest(cond, m, i.next, n + 1);
              var h := GenStmt(body, m + |g.code|, g.next, old(Ctx()));
              var j := GenSimple(incr, m + |g.code| + |h.code| + 1, h.next);
              code == old(code) + IntermediateForm.BuildFor(n, i, g, h, j).code && nextLabel == j.next
      ensures SameNesting()
      decreases body, 2
    {
      hide GenExpr, GenStmt, GenSimple, GenForTest;
      ghost var c0, n0, ctx := code, nextLabel, Ctx();
      BuildSimple(init);
      ghost var i := GenSimple(init, |c0|, n0);
      var at := Issue(NLabel(n));
      ghost var m := |c0| + |i.code| + 1;
      ForTest(cond, n + 1);
      ghost var g := GenForTest(cond, m, i.next, n + 1);
      ghost var first := i.code + [NLabel(n)] + g.code;
      assert code == c0 + first;
      Build(body);
      ghost var h := GenStmt(body, |c0 + first|, g.next, ctx);
      at := Issue(NLabel(n + 2));
      ghost var second := first + h.code + [NLabel(n + 2)];
      assert code == c0 + second;
      BuildSimple(incr);
      ghost var j := GenSimple(incr, |c0 + second|, h.next);
      Join2(n, n + 1);
      assert code == c0 + (second + (j.code + [NB(n), NLabel(n + 1)]));
    }

    method ForTest(cond: Option<Expr>, endlabel: nat)
      modifies this`code, this`nextLabel
      ensures var g := GenForTest(cond, |old(code)|, old(nextLabel), endlabel); code == old(code) + g.code && nextLabel == g.next
    {
      hide GenExpr, TestBranch;
      if cond.Some? {
        ghost var b, n := |code|, nextLabel;
        var test := Expression(cond.value);
        BranchUnless(cond.value, b, n, test, endlabel);
      }
    }

    method BuildForeach(x: nat, e: Expr, hi: Option<Expr>, body: Stmt)
      requires StmtSim.Allowed(Foreach(x, e, hi, body), Ctx())
      modifies this
      ensures Built(Foreach(x, e, hi, body))
      decreases Foreach(x, e, hi, body), 0
    {
      hide GenExpr, GenStmt, GenOption;
      ForeachUnfold(x, e, hi, body, |code|, nextLabel, Ctx());
      StmtSim.AllowedForeach(x, e, hi, body, Ctx());
      var looplabel := NewLabel();
      var endlabel := NewLabel();
      var breaklabel := NewLabel();
      EnterLoop(breaklabel, looplabel);
      ForeachCode(x, e, hi, body, looplabel);
      LeaveLoop();
    }

    method ForeachCode(x: nat, e: Expr, hi: Option<Expr>, body: Stmt, n: nat)
      requires StmtSim.Allowed(body, Ctx().(fors := Ctx().fors + 1))
      modifies this
      ensures var g := GenExpr(e, |old(code)|, old(nextLabel), None);
              var k := GenOption(hi, |old(code)| + |g.code|, g.next);
              var h := GenStmt(body, |old(code)| + |g.code| + |k.code| + 1, k.next, old(Ctx()).(fors := old(Ctx()).fors + 1));
              code == old(code) + IntermediateForm.BuildForeach(n, x, g, if hi.None? then None else Some(k.res), k, h).code && nextLabel == h.next
      ensures SameNesting()
      decreases body, 2
    {
      hide GenExpr, GenStmt, GenOption;
      ghost var c0, n0, ctx := code, nextLabel, Ctx();
      var from := Expression(e);
      ghost var g := GenExpr(e, |c0|, n0, None);
      var to := ExpressionOption(hi);
      ghost var k := GenOption(hi, |c0| + |g.code|, g.next);
      var head := NForeach(x, from, if hi.None? then None else Some(to), n + 1);
      var at := Issue(head);
      assert code == c0 + (g.code + k.code + [head]);
      foreachlevel := foreachlevel + 1;
      Build(body);
      foreachlevel := foreachlevel - 1;
      ForeachTail(n);
    }

    method ForeachTail(n: nat)
      modifies this`code
      ensures code == old(code) + [NLabel(n), NNext, NLabel(n + 2), NLabel(n + 1)]
    {
      var at := Issue(NLabel(n));
      at := Issue(NNext);
      at := Issue(NLabel(n + 2));
      at := Issue(NLabel(n + 1));
    }

    method ExpressionOption(e: Option<Expr>) returns (res: Opd)
      modifies this`code, this`nextLabel
      ensures var g := GenOption(e, |old(code)|, old(nextLabel)); code == old(code) + g.code && nextLabel == g.next && res == g.res
    {
      if e.None? {
        res := OImm(ZERO);
      } else {
        res := Expression(e.value);
      }
    }

    method BuildCompound(xs: seq<nat>, body: Stmt)
      requires StmtSim.Allowed(Compound(xs, body), Ctx())
      modifies this
      ensures Built(Compound(xs, body))
      decreases Compound(xs, body), 0
    {
      hide GenStmt, ClearCode;
      CompoundUnfold(xs, body, |code|, nextLabel, Ctx());
      StmtSim.AllowedParts(Compound(xs, body), Ctx());
      scopeLevel := scopeLevel + 1;
      var at := Issue(NPushScope);
      Clear(xs);
      Build(body);
      at := Issue(NPopScope(1, 0, 0));
      scopeLevel := scopeLevel - 1;
    }

    method Clear(xs: seq<nat>)
      modifies this`code
      ensures code == old(code) + ClearCode(xs)
    {
      var i := 0;
      while i < |xs|
        invariant 0 <= i <= |xs|
        invariant code + ClearCode(xs[i..]) == old(code) + ClearCode(xs)
      {
        assert xs[i..][0] == xs[i] && xs[i..][1..] == xs[i + 1..];
        var at := Issue(NMov(MVar(xs[i]), OImm(Nothing)));
        i := i + 1;
      }
    }

    /** break and continue leave what has been entered since their target. */
    method BuildLeave(s: Stmt)
      requires (s.Break? || s.Continue?) && StmtSim.Allowed(s, Ctx())
      modifies this`code
      ensures Built(s)
    {
      var level := if s.Break? then breakscopes[0] else continuescopes[0];
      var target := if s.Break? then breakLabels[0] else continueLabels[0];
      var at := Issue(NPopScope(scopeLevel - Levels.GetScope(level), trylevel - Levels.GetTry(level),
                                if s.Break? then foreachlevel - Levels.GetFor(level) else 0));
      at := Issue(NB(target));
    }

    method BuildReturn(e: Option<Expr>)
      modifies this`code, this`nextLabel
      ensures Built(Stmt.Return(e))
    {
      hide GenExpr, GenStmt, GenOption;
      ReturnUnfold(e, |code|, nextLabel, Ctx());
      ghost var ctx := Ctx();
      var val := ExpressionOption(e);
      ReturnScopes();
      assert Ctx() == ctx;
      var at := Issue(if e.None? then NRet else NRetVal(val));
    }

    method ReturnScopes()
      modifies this`code
      ensures code == old(code) + ReturnPop(Ctx())
    {
      if scopeLevel > 0 || trylevel > 0 || foreachlevel > 0 {
        var at := Issue(NPopScope(scopeLevel, trylevel, foreachlevel));
      }
    }

    method BuildTry(body: Stmt, x: nat, handler: Stmt)
      requires StmtSim.Allowed(TryCatch(body, x, handler), Ctx())
      modifies this
      ensures Built(TryCatch(body, x, handler))
      decreases TryCatch(body, x, handler), 0
    {
      hide GenStmt, Compilable;
      TryUnfold(body, x, handler, |code|, nextLabel, Ctx());
      StmtSim.AllowedParts(TryCatch(body, x, handler), Ctx());
      var catchlabel := NewLabel();
      var endlabel := NewLabel();
      TryCode(body, x, handler, catchlabel);
    }

    method TryCode(body: Stmt, x: nat, handler: Stmt, n: nat)
      requires StmtSim.Allowed(body, Ctx().(tries := Ctx().tries + 1)) && StmtSim.Allowed(handler, Ctx())
      modifies this
      ensures var h := GenStmt(body, |old(code)| + 1, old(nextLabel), old(Ctx()).(tries := old(Ctx()).tries + 1));
              var k := GenStmt(handler, |old(code)| + 4 + |h.code|, h.next, old(Ctx()));
              code == old(code) + IntermediateForm.BuildTry(n, x, h, k).code && nextLabel == k.next
      ensures SameNesting()
      decreases TryCatch(body, x, handler), 0, 0
    {
      hide GenStmt, Compilable;
      ghost var c0, n0, ctx := code, nextLabel, Ctx();
      var at := Issue(NTry(n, n + 1));
      trylevel := trylevel + 1;
      Build(body);
      trylevel := trylevel - 1;
      ghost var h := GenStmt(body, |c0| + 1, n0, ctx.(tries := ctx.tries + 1));
      HandlerHead(n, x);
      ghost var first := [NTry(n, n + 1)] + h.code + [NEnd, NLabel(n), NCatch(x)];
      assert code == c0 + first;
      assert Ctx() == ctx;
      Build(handler);
      ghost var k := GenStmt(handler, |c0 + first|, h.next, ctx);
      at := Issue(NLabel(n + 1));
      assert code == c0 + (first + k.code + [NLabel(n + 1)]);
    }

    method HandlerHead(catchlabel: nat, x: nat)
      modifies this`code
      ensures code == old(code) + [NEnd, NLabel(catchlabel), NCatch(x)]
    {
      var at := Issue(NEnd);
      at := Issue(NLabel(catchlabel));
      at := Issue(NCatch(x));
    }

    method BuildSwitch(e: Expr, cs: Cases)
      requires StmtSim.Allowed(Switch(e, cs), Ctx())
      modifies this
      ensures Built(Switch(e, cs))
      decreases Switch(e, cs), 0
    {
      hide GenExpr, GenStmt, GenTests, GenBodies;
      ghost var b, n := |code|, nextLabel;
      SwitchUnfold(e, cs, b, n, Ctx());
      StmtSim.AllowedSwitch(e, cs, Ctx());
      var endlabel := NewLabel();
      breakLabels := [endlabel] + breakLabels;
      breakscopes := [Levels.Pack(0, trylevel, scopeLevel, foreachlevel)] + breakscopes;
      assert Ctx() == old(Ctx()).InSwitch(n);
      SwitchCode(e, cs, endlabel);
      breakLabels, breakscopes := breakLabels[1..], breakscopes[1..];
    }

    method SwitchCode(e: Expr, cs: Cases, n: nat)
      requires breakLabels != [] && breakscopes != [] && CompilableCases(cs, Ctx().cont.Some?, scopeLevel, trylevel, foreachlevel)
      modifies this
      ensures var g := GenExpr(e, |old(code)|, old(nextLabel), None);
              var t := GenTests(cs, g.res, |old(code)| + |g.code|, g.next);
              var dflt := if HasDefault(cs) then t.next else n;
              var n' := if HasDefault(cs) then t.next + 1 else t.next;
              var h := GenBodies(cs, t.labels, dflt, |old(code)| + |g.code| + |t.code| + 1, n', old(Ctx()));
              code == old(code) + IntermediateForm.BuildSwitch(n, g, t, dflt, h).code && nextLabel == h.next
      ensures SameNesting()
      decreases cs, 4
    {
      hide GenExpr, GenStmt, GenTests, GenBodies, CompilableCases;
      ghost var c0, n0, ctx := code, nextLabel, Ctx();
      var cond := Expression(e);
      ghost var g := GenExpr(e, |c0|, n0, None);
      var labels := Tests(cs, cond);
      ghost var t := GenTests(cs, cond, |c0| + |g.code|, g.next);
      var dflt := n;
      if HasDefault(cs) {
        dflt := NewLabel();
      }
      var at := Issue(NB(dflt));
      ghost var first := g.code + t.code + [NB(dflt)];
      assert code == c0 + first;
      Bodies(cs, labels, dflt);
      at := Issue(NLabel(n));
    }

    method Tests(cs: Cases, v: Opd) returns (labels: seq<Option<nat>>)
      modifies this`code, this`nextLabel
      ensures var g := GenTests(cs, v, |old(code)|, old(nextLabel)); code == old(code) + g.code && nextLabel == g.next && labels == g.labels
      decreases cs, 1
    {
      hide GenExpr, GenTests;
      OtherTests(cs, v, |code|, nextLabel);
      match cs
      case NoCases => labels := [];
      case Default(_, rest) =>
        labels := Tests(rest, v);
        labels := [None] + labels;
      case Case(op, e, body, rest) => labels := CaseTest(op, e, body, rest, v);
    }

    method CaseTest(op: CaseOp, e: Expr, ghost body: Stmt, rest: Cases, v: Opd) returns (labels: seq<Option<nat>>)
      modifies this`code, this`nextLabel
      ensures var g := GenTests(Case(op, e, body, rest), v, |old(code)|, old(nextLabel));
              code == old(code) + g.code && nextLabel == g.next && labels == g.labels
      decreases rest, 2
    {
      hide GenExpr, GenTests;
      ghost var c0, n0 := code, nextLabel;
      StmtSim.TestsUnfold(op, e, body, rest, v, |c0|, n0);
      var caselabel := NewLabel();
      var casecond := Expression(e);
      ghost var c := GenExpr(e, |c0|, n0 + 1, None);
      var cmp := Issue(NBin(CaseBinOp(op), v, casecond, None));
      var at := Issue(NBT(ONode(cmp), caselabel));
      ghost var first := c.code + [NBin(CaseBinOp(op), v, c.res, None), NBT(ONode(cmp), caselabel)];
      assert code == c0 + first;
      labels := Tests(rest, v);
      labels := [Some(caselabel)] + labels;
    }

    method Bodies(cs: Cases, labels: seq<Option<nat>>, dflt: nat)
      requires |labels| == CountCases(cs) && breakLabels != [] && breakscopes != []
      requires CompilableCases(cs, Ctx().cont.Some?, scopeLevel, trylevel, foreachlevel)
      modifies this
      ensures var h := GenBodies(cs, labels, dflt, |old(code)|, old(nextLabel), old(Ctx())); code == old(code) + h.code && nextLabel == h.next
      ensures SameNesting()
      decreases cs, 3
    {
      hide GenStmt, GenBodies, CompilableCases, Compilable;
      if cs.NoCases? {
        NoBodies(labels, dflt, |code|, nextLabel, Ctx());
      } else {
        ghost var c0, n0, ctx := code, nextLabel, Ctx();
        StmtSim.BodiesUnfold(cs, labels, dflt, |c0|, n0, ctx);
        ClauseParts(cs, ctx.cont.Some?, scopeLevel, trylevel, foreachlevel);
        var at := Issue(NLabel(ClauseLabel(cs, labels, dflt)));
        Build(cs.body);
        ghost var g := GenStmt(cs.body, |c0| + 1, n0, ctx);
        assert code == c0 + ([NLabel(ClauseLabel(cs, labels, dflt))] + g.code);
        Bodies(cs.rest, labels[1..], dflt);
      }
    }

    method BuildThrow(e: Expr)
      modifies this`code, this`nextLabel
      ensures Built(Stmt.Throw(e))
    {
      hide GenExpr;
      var val := Expression(e);
      var at := Issue(NThrow(val));
    }

    method BuildSeq(s1: Stmt, s2: Stmt)
      requires StmtSim.Allowed(Seq(s1, s2), Ctx())
      modifies this
      ensures Built(Seq(s1, s2))
      decreases Seq(s1, s2), 0
    {
      hide GenStmt;
      SeqUnfold(s1, s2, |code|, nextLabel, Ctx());
      StmtSim.AllowedParts(Seq(s1, s2), Ctx());
      Build(s1);
      Build(s2);
    }

    method BuildDoSimple(sm: Simple)
      modifies this`code, this`nextLabel
      ensures Built(Do(sm))
    {
      hide GenSimple;
      BuildSimple(sm);
    }

    method Build(s: Stmt)
      requires StmtSim.Allowed(s, Ctx())
      modifies this
      ensures Built(s)
      decreases s, 1
    {
      match s
      case Do(sm) => BuildDoSimple(sm);
      case Seq(s1, s2) => BuildSeq(s1, s2);
      case If(c, s1) => BuildIf(c, s1);
      case IfElse(c, s1, s2) => BuildIfElse(c, s1, s2);
      case While(c, body) => BuildWhile(c, body);
      case DoWhile(body, c) => BuildDo(body, c);
      case For(init, cond, incr, body) => BuildFor(init, cond, incr, body);
      case Switch(e, cs) => BuildSwitch(e, cs);
      case Foreach(x, e, hi, body) => BuildForeach(x, e, hi, body);
      case Compound(xs, body) => BuildCompound(xs, body);
      case Break => BuildLeave(s);
      case Continue => BuildLeave(s);
      case Return(e) => BuildReturn(e);
      case TryCatch(body, x, handler) => BuildTry(body, x, handler);
      case Throw(e) => BuildThrow(e);
    }
  }

  lemma UpdateTail(c0: seq<Node>, c: seq<Node>, i: nat, x: Node)
    requires |c0| <= i < |c0| + |c|
    ensures (c0 + c)[i := x] == c0 + c[i - |c0| := x]
  {}

  lemma LeafResult(e: Expr, b: nat, n: nat)
    ensures IsLeaf(e) ==> GenExpr(e, b, n, None).code == [] && GenExpr(e, b, n, None).next == n && !GenExpr(e, b, n, None).res.ONode?
  {}

  lemma OtherTests(cs: Cases, v: Opd, b: nat, n: nat)
    ensures cs.NoCases? ==> GenTests(cs, v, b, n) == GenT([], n, [])
    ensures cs.Default? ==> var g := GenTests(cs.rest, v, b, n); GenTests(cs, v, b, n) == GenT(g.code, g.next, [None] + g.labels)
  {}

  lemma ClauseParts(cs: Cases, cont: bool, scope: nat, tries: nat, fors: nat)
    requires CompilableCases(cs, cont, scope, tries, fors) && !cs.NoCases?
    ensures Compilable(cs.body, true, cont, scope, tries, fors) && CompilableCases(cs.rest, cont, scope, tries, fors)
  {}

  lemma NoBodies(labels: seq<Option<nat>>, dflt: nat, b: nat, n: nat, ctx: Context)
    requires labels == []
    ensures GenBodies(NoCases, labels, dflt, b, n, ctx) == GenS([], n)
  {}
}

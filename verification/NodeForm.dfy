/** What every generated node list satisfies: each label is issued once, a node is referred to only
    after it stands in the list, and no value is carried along a jump that skips its computation. */
module NodeForm {
  import opened Values
  import opened Source
  import opened IntermediateForm
  import opened NodeMachine
  import opened StmtShape
  import ExprSim
  import StmtSim

  // ----- references -----

  /** Node x has node r as an operand. */
  predicate Uses(x: Node, r: nat) {
    match x
    case NUn(_, a, _) => a == ONode(r)
    case NBin(_, a, b, _) => a == ONode(r) || b == ONode(r)
    case NMov(to, a) => to == MNode(r) || a == ONode(r)
    case NBT(a, _) => a == ONode(r)
    case NBF(a, _) => a == ONode(r)
    case NThrow(a) => a == ONode(r)
    case NForeach(_, a, hi, _) => a == ONode(r) || hi == Some(ONode(r))
    case NRetVal(a) => a == ONode(r)
    case _ => false
  }

  /** Nodes with a value of their own. */
  predicate IsValue(p: Nodes, r: nat) {
    r < |p| && (p[r].NTemp? || p[r].NUn? || p[r].NBin?)
  }

  /** Nodes b to e refer to value nodes from lo on that stand before them. */
  ghost predicate RefsFrom(p: Nodes, lo: nat, b: nat, e: nat) {
    forall i: nat, r: nat {:trigger Uses(p[i], r)} :: b <= i < e && i < |p| && Uses(p[i], r) ==> lo <= r < i && IsValue(p, r)
  }

  lemma RefsJoin5(p: Nodes, lo: nat, a: nat, b: nat, c: nat, d: nat, e: nat, f: nat)
    requires a <= b <= c <= d <= e <= f
    requires RefsFrom(p, lo, a, b) && RefsFrom(p, lo, b, c) && RefsFrom(p, lo, c, d) && RefsFrom(p, lo, d, e) && RefsFrom(p, lo, e, f)
    ensures RefsFrom(p, lo, a, f)
  {}

  lemma RefsWiden(p: Nodes, lo: nat, a: nat, b: nat)
    requires lo <= a && RefsFrom(p, a, a, b)
    ensures RefsFrom(p, lo, a, b)
  {}

  lemma RefsEmpty(p: Nodes, lo: nat, i: nat)
    ensures RefsFrom(p, lo, i, i)
  {}

  lemma RefsNone(p: Nodes, lo: nat, i: nat)
    requires i < |p| && (p[i].NLabel? || p[i].NB?)
    ensures RefsFrom(p, lo, i, i + 1)
  {}

  // ----- labels -----

  ghost predicate LabelsIn(p: Nodes, b: nat, e: nat, s: set<nat>) {
    forall i :: b <= i < e && i < |p| && p[i].NLabel? ==> p[i].l in s
  }

  ghost predicate Distinct(p: Nodes, b: nat, e: nat) {
    forall i, j :: b <= i < j < e && j < |p| && p[i].NLabel? && p[j].NLabel? ==> p[i].l != p[j].l
  }

  /** Nodes b to e issue labels from s only, each at most once. */
  ghost predicate Labelled(p: Nodes, b: nat, e: nat, s: set<nat>) {
    LabelsIn(p, b, e, s) && Distinct(p, b, e)
  }

  predicate Between(lo: nat, x: nat, hi: nat) {
    lo <= x < hi
  }

  function Range(lo: nat, hi: nat): set<nat> {
    set x: nat | x < hi && Between(lo, x, hi)
  }

  lemma Join(p: Nodes, b: nat, m: nat, e: nat, s: set<nat>, s': set<nat>)
    requires b <= m <= e && Labelled(p, b, m, s) && Labelled(p, m, e, s') && s !! s'
    ensures Labelled(p, b, e, s + s')
  {
    forall i, j | b <= i < j < e && j < |p| && p[i].NLabel? && p[j].NLabel? ensures p[i].l != p[j].l {
      if i < m <= j {
        assert p[i].l in s && p[j].l in s';
      }
    }
  }

  ghost predicate NoLabels(p: Nodes, b: nat, e: nat) {
    forall i :: b <= i < e && i < |p| ==> !p[i].NLabel?
  }

  /** Nodes without labels before or after. */
  lemma Extend(p: Nodes, b': nat, b: nat, e: nat, e': nat, s: set<nat>)
    requires b' <= b <= e <= e' && Labelled(p, b, e, s)
    requires NoLabels(p, b', b) && NoLabels(p, e, e')
    ensures Labelled(p, b', e', s)
  {}

  lemma One(p: Nodes, b: nat, n: nat)
    requires b < |p| && p[b] == NLabel(n)
    ensures Labelled(p, b, b + 1, {n})
  {}

  lemma Weaken(p: Nodes, b: nat, e: nat, s: set<nat>, s': set<nat>)
    requires Labelled(p, b, e, s) && s <= s'
    ensures Labelled(p, b, e, s')
  {}

  /** The references and labels of the code at b .. e. */
  ghost predicate Formed(p: Nodes, b: nat, e: nat, n: nat, next: nat) {
    n <= next && RefsFrom(p, b, b, e) && Labelled(p, b, e, Range(n, next))
  }

  // ----- expressions -----

  ghost predicate ExprFormed(p: Nodes, e: Expr, b: nat, n: nat, d: Option<nat>) {
    var g := GenExpr(e, b, n, d);
    Formed(p, b, b + |g.code|, n, g.next) && (g.res.ONode? ==> b <= g.res.n < b + |g.code| && IsValue(p, g.res.n))
  }

  /** Nodes b to e refer to res or to each other. */
  ghost predicate RefsTo(p: Nodes, b: nat, e: nat, res: Opd) {
    forall i: nat, r: nat {:trigger Uses(p[i], r)} :: b <= i < e && i < |p| && Uses(p[i], r) ==> r < i && (r >= b || ONode(r) == res) && IsValue(p, r)
  }

  /** A test and its branch issue no label and refer to the tested operand or to each other. */
  lemma TestFormed(p: Nodes, c: Expr, res: Opd, m: nat, n: nat)
    requires At(p, m, TestBranch(c, res, m, n)) && (res.ONode? ==> res.n < m && IsValue(p, res.n))
    ensures m + |TestBranch(c, res, m, n)| <= |p| && NoLabels(p, m, m + |TestBranch(c, res, m, n)|)
    ensures RefsTo(p, m, m + |TestBranch(c, res, m, n)|, res)
  {
    AtLast(p, m, TestCode(c, res), NBF(TestOpd(c, res, m), n));
  }

  lemma TestCodeFormed(p: Nodes, c: Expr, res: Opd, m: nat)
    requires At(p, m, TestCode(c, res)) && (res.ONode? ==> res.n < m && IsValue(p, res.n))
    ensures m + |TestCode(c, res)| <= |p| && NoLabels(p, m, m + |TestCode(c, res)|)
    ensures RefsTo(p, m, m + |TestCode(c, res)|, res)
    ensures TestOpd(c, res, m).ONode? ==> TestOpd(c, res, m) == res || (TestOpd(c, res, m).n == m < m + |TestCode(c, res)| && IsValue(p, m))
  {
    if TestCode(c, res) != [] {
      AtOne(p, m, NBin(CmpNe, res, OImm(ZERO), None));
    }
  }

  lemma {:induction false} FormUn(p: Nodes, e: Expr, b: nat, n: nat, d: Option<nat>)
    requires e.Un? && At(p, b, GenExpr(e, b, n, d).code)
    ensures ExprFormed(p, e, b, n, d)
    decreases e, 0
  {
    hide GenExpr, At;
    ExprSim.UnUnfold(e.uop, e.a, b, n, d);
    var l := GenExpr(e.a, b, n, None);
    var m := b + |l.code|;
    AtLast(p, b, l.code, NUn(e.uop, l.res, d));
    FormExpr(p, e.a, b, n, None);
    Extend(p, b, b, m, m + 1, Range(n, l.next));
  }

  lemma {:induction false} FormBin(p: Nodes, e: Expr, b: nat, n: nat, d: Option<nat>)
    requires e.Bin? && At(p, b, GenExpr(e, b, n, d).code)
    ensures ExprFormed(p, e, b, n, d)
    decreases e, 0
  {
    hide GenExpr, At;
    ExprSim.BinUnfold(e.bop, e.a, e.b, b, n, d);
    var l := GenExpr(e.a, b, n, None);
    var m := b + |l.code|;
    var r := GenExpr(e.b, m, l.next, None);
    var q := m + |r.code|;
    AtLast(p, b, l.code + r.code, NBin(e.bop, l.res, r.res, d));
    AtSplit(p, b, l.code, r.code);
    FormExpr(p, e.a, b, n, None);
    FormExpr(p, e.b, m, l.next, None);
    Join(p, b, m, q, Range(n, l.next), Range(l.next, r.next));
    Extend(p, b, b, q, q + 1, Range(n, l.next) + Range(l.next, r.next));
    Weaken(p, b, q + 1, Range(n, l.next) + Range(l.next, r.next), Range(n, r.next));
  }

  lemma {:induction false} FormLogical(p: Nodes, e: Expr, b: nat, n: nat, d: Option<nat>)
    requires (e.And? || e.Or?) && At(p, b, GenExpr(e, b, n, d).code)
    ensures ExprFormed(p, e, b, n, d)
    decreases e, 0
  {
    hide GenExpr, At, AndMid, OrMid, Distinct, LabelsIn, Range;
    var l := GenExpr(e.a, b + 1, n + 1, None);
    var mid := if e.And? then AndMid(e.a, l, b, n) else OrMid(l, b, n);
    var m := b + 1 + |l.code|;
    var r := GenExpr(e.b, m + |mid|, l.next, None);
    var q := m + |mid| + |r.code|;
    if e.And? { ExprSim.AndUnfold(e.a, e.b, b, n, d); } else { ExprSim.OrUnfold(e.a, e.b, b, n, d); }
    ExprSim.LogicalShape(p, b, n, d, l, mid, r);
    FormExpr(p, e.a, b + 1, n + 1, None);
    FormExpr(p, e.b, m + |mid|, l.next, None);
    MidFormed(p, e, l, b, n);
    LogicalLabels(p, b, m, m + |mid|, q, n, l.next, r.next);
    RefsJoin5(p, b, b, b + 1, m, m + |mid|, q, q + 2);
  }

  lemma LogicalLabels(p: Nodes, b: nat, m: nat, m': nat, q: nat, n: nat, n1: nat, n2: nat)
    requires b + 1 <= m <= m' <= q && q + 1 < |p| && n + 1 <= n1 <= n2
    requires NoLabels(p, b, b + 1) && Labelled(p, b + 1, m, Range(n + 1, n1)) && NoLabels(p, m, m')
    requires Labelled(p, m', q, Range(n1, n2)) && NoLabels(p, q, q + 1) && p[q + 1] == NLabel(n)
    ensures Labelled(p, b, q + 2, Range(n, n2))
  {
    hide Distinct, LabelsIn;
    var s1, s2 := Range(n + 1, n1), Range(n1, n2);
    Extend(p, b, b + 1, m, m', s1);
    Join(p, b, m', q, s1, s2);
    Extend(p, b, b, q, q + 1, s1 + s2);
    One(p, q + 1, n);
    Join(p, b, q + 1, q + 2, s1 + s2, {n});
    Weaken(p, b, q + 2, s1 + s2 + {n}, Range(n, n2));
  }

  lemma CondLabels(p: Nodes, b: nat, m': nat, m: nat, u: nat, w: nat, n: nat, n1: nat, n2: nat, n3: nat)
    requires b + 1 <= m' <= m <= u && u + 3 <= w && w + 1 < |p| && n <= n1 && n1 + 2 <= n2 <= n3
    requires NoLabels(p, b, b + 1) && Labelled(p, b + 1, m', Range(n, n1)) && NoLabels(p, m', m) && Labelled(p, m, u, Range(n1 + 2, n2))
    requires NoLabels(p, u, u + 2) && p[u + 2] == NLabel(n1) && Labelled(p, u + 3, w, Range(n2, n3))
    requires NoLabels(p, w, w + 1) && p[w + 1] == NLabel(n1 + 1)
    ensures Labelled(p, b, w + 2, Range(n, n3))
  {
    hide Distinct, LabelsIn;
    var s1, s2, s3 := Range(n, n1), Range(n1 + 2, n2), Range(n2, n3);
    Extend(p, b, b + 1, m', m, s1);
    Join(p, b, m, u, s1, s2);
    Extend(p, b, b, u, u + 2, s1 + s2);
    One(p, u + 2, n1);
    Join(p, b, u + 2, u + 3, s1 + s2, {n1});
    Join(p, b, u + 3, w, s1 + s2 + {n1}, s3);
    Extend(p, b, b, w, w + 1, s1 + s2 + {n1} + s3);
    One(p, w + 1, n1 + 1);
    Join(p, b, w + 1, w + 2, s1 + s2 + {n1} + s3, {n1 + 1});
    Weaken(p, b, w + 2, s1 + s2 + {n1} + s3 + {n1 + 1}, Range(n, n3));
  }

  lemma MidFormed(p: Nodes, e: Expr, l: Gen, b: nat, n: nat)
    requires e.And? || e.Or?
    requires var mid := if e.And? then AndMid(e.a, l, b, n) else OrMid(l, b, n); At(p, b + 1 + |l.code|, mid)
    requires (l.res.ONode? ==> b < l.res.n < b + 1 + |l.code| && IsValue(p, l.res.n)) && IsValue(p, b)
    ensures var mid := if e.And? then AndMid(e.a, l, b, n) else OrMid(l, b, n);
            var m := b + 1 + |l.code|;
            && m + |mid| <= |p| && NoLabels(p, m, m + |mid|)
            && forall i: nat, r: nat {:trigger Uses(p[i], r)} :: m <= i < m + |mid| && Uses(p[i], r) ==> r < i && (r >= m || r == b || ONode(r) == l.res) && IsValue(p, r)
  {
    var m := b + 1 + |l.code|;
    hide At, TestCode, TestOpd;
    if e.And? {
      var tc := TestCode(e.a, l.res);
      AtLast(p, m, [NMov(MNode(b), l.res)] + tc, NBF(TestOpd(e.a, l.res, m + 1), n));
      AtSplit(p, m, [NMov(MNode(b), l.res)], tc);
      AtOne(p, m, NMov(MNode(b), l.res));
      TestCodeFormed(p, e.a, l.res, m + 1);
    } else {
      AtTwo(p, m, NMov(MNode(b), l.res), NBT(l.res, n));
    }
  }

  lemma {:induction false} FormCond(p: Nodes, e: Expr, b: nat, n: nat, d: Option<nat>)
    requires e.Cond? && At(p, b, GenExpr(e, b, n, d).code)
    ensures ExprFormed(p, e, b, n, d)
    decreases e, 0
  {
    hide GenExpr, At, TestBranch, Labelled, Range;
    var l := GenExpr(e.c, b + 1, n, None);
    var mid := TestBranch(e.c, l.res, b + 1 + |l.code|, l.next);
    var m := b + 1 + |l.code| + |mid|;
    var r := GenExpr(e.a, m, l.next + 2, None);
    var u := m + |r.code|;
    var q := GenExpr(e.b, u + 3, r.next, None);
    var w := u + 3 + |q.code|;
    ExprSim.CondUnfold(e.c, e.a, e.b, b, n, d);
    ExprSim.CondShape(p, b, d, l, mid, r, q);
    FormExpr(p, e.c, b + 1, n, None);
    FormExpr(p, e.a, m, l.next + 2, None);
    FormExpr(p, e.b, u + 3, r.next, None);
    TestFormed(p, e.c, l.res, b + 1 + |l.code|, l.next);
    CondLabels(p, b, b + 1 + |l.code|, m, u, w, n, l.next, r.next, q.next);
    CondRefs(p, b, b + 1 + |l.code|, m, u, w, r.res, q.res);
  }

  lemma CondRefs(p: Nodes, b: nat, m': nat, m: nat, u: nat, w: nat, r: Opd, q: Opd)
    requires b + 1 <= m' <= m <= u && u + 3 <= w && w + 1 < |p| && p[b].NTemp?
    requires RefsFrom(p, b + 1, b + 1, m') && RefsFrom(p, b, m', m) && RefsFrom(p, m, m, u) && RefsFrom(p, u + 3, u + 3, w)
    requires p[u] == NMov(MNode(b), r) && p[u + 1].NB? && p[u + 2].NLabel? && p[w] == NMov(MNode(b), q) && p[w + 1].NLabel?
    requires (r.ONode? ==> m <= r.n < u && IsValue(p, r.n)) && (q.ONode? ==> u + 3 <= q.n < w && IsValue(p, q.n))
    ensures RefsFrom(p, b, b, w + 2)
  {
    RefsJoin5(p, b, b, b + 1, m', m, u, u + 3);
    RefsJoin5(p, b, b, u + 3, w, w + 2, w + 2, w + 2);
  }

  lemma {:induction false} FormExpr(p: Nodes, e: Expr, b: nat, n: nat, d: Option<nat>)
    requires At(p, b, GenExpr(e, b, n, d).code) && (d.Some? ==> !IsLeaf(e))
    ensures ExprFormed(p, e, b, n, d)
    decreases e, 1
  {
    if IsLeaf(e) {
    } else {
      hide GenExpr, At;
      if e.Un? { FormUn(p, e, b, n, d); }
      else if e.Bin? { FormBin(p, e, b, n, d); }
      else if e.Cond? { FormCond(p, e, b, n, d); }
      else { FormLogical(p, e, b, n, d); }
    }
  }

  // ----- statements -----

  ghost predicate StmtFormed(p: Nodes, s: Stmt, b: nat, n: nat, ctx: Context) {
    var g := GenStmt(s, b, n, ctx);
    Formed(p, b, b + |g.code|, n, g.next)
  }

  /** Parts in sequence whose labels are numbered in sequence, with more labels in between. */
  lemma Append(p: Nodes, b: nat, m: nat, e: nat, n: nat, n1: nat, n2: nat)
    requires b <= m <= e && Formed(p, b, m, n, n1) && Formed(p, m, e, n1, n2)
    ensures Formed(p, b, e, n, n2)
  {
    hide Distinct, LabelsIn;
    Join(p, b, m, e, Range(n, n1), Range(n1, n2));
    Weaken(p, b, e, Range(n, n1) + Range(n1, n2), Range(n, n2));
    RefsJoin5(p, b, b, m, e, e, e, e);
  }

  /** A code part followed by nodes that issue no label and refer to the part or to each other. */
  lemma AppendPlain(p: Nodes, b: nat, m: nat, e: nat, n: nat, n1: nat)
    requires b <= m <= e && Formed(p, b, m, n, n1) && NoLabels(p, m, e) && RefsFrom(p, b, m, e)
    ensures Formed(p, b, e, n, n1)
  {
    hide Distinct, LabelsIn;
    Extend(p, b, b, m, e, Range(n, n1));
    RefsJoin5(p, b, b, m, e, e, e, e);
  }

  lemma {:induction false} FormRhs(p: Nodes, x: nat, r: Rhs, b: nat, n: nat)
    requires At(p, b, GenRhs(x, r, b, n).code)
    ensures var g := GenRhs(x, r, b, n); Formed(p, b, b + |g.code|, n, g.next) && (g.res.ONode? ==> b <= g.res.n < b + |g.code| && IsValue(p, g.res.n))
    decreases r
  {
    match r
    case Plain(e) =>
      if !IsLeaf(e) {
        hide GenExpr, At, Distinct, LabelsIn;
        FormExpr(p, e, b, n, Some(x));
      }
    case Chain(y, r') =>
      hide GenExpr, At, Distinct, LabelsIn;
      var g := GenRhs(y, r', b, n);
      AtLast(p, b, g.code, NMov(MVar(x), g.res));
      FormRhs(p, y, r', b, n);
      AppendPlain(p, b, b + |g.code|, b + |g.code| + 1, n, g.next);
  }

  lemma FormSimple(p: Nodes, sm: Simple, b: nat, n: nat)
    requires At(p, b, GenSimple(sm, b, n).code)
    ensures var g := GenSimple(sm, b, n); Formed(p, b, b + |g.code|, n, g.next)
  {
    match sm
    case Skip =>
    case Evaluate(e) => FormExpr(p, e, b, n, None);
    case Assign(x, r) => FormRhs(p, x, r, b, n);
  }

  /** A condition and its branch. */
  lemma FormCondition(p: Nodes, c: Expr, b: nat, n0: nat, n: nat)
    requires var g := GenExpr(c, b, n0, None); At(p, b, g.code) && At(p, b + |g.code|, TestBranch(c, g.res, b + |g.code|, n))
    ensures var g := GenExpr(c, b, n0, None); Formed(p, b, b + |g.code| + |TestBranch(c, g.res, b + |g.code|, n)|, n0, g.next)
  {
    hide GenExpr, At, TestBranch, Distinct, LabelsIn;
    var g := GenExpr(c, b, n0, None);
    FormExpr(p, c, b, n0, None);
    TestFormed(p, c, g.res, b + |g.code|, n);
    AppendPlain(p, b, b + |g.code|, b + |g.code| + |TestBranch(c, g.res, b + |g.code|, n)|, n0, g.next);
  }

  lemma {:induction false} FormIf(p: Nodes, s: Stmt, b: nat, n: nat, ctx: Context)
    requires s.If? && At(p, b, GenStmt(s, b, n, ctx).code) && StmtSim.Allowed(s, ctx)
    ensures StmtFormed(p, s, b, n, ctx)
    decreases s, 0
  {
    hide GenStmt, GenExpr, At, TestBranch, Distinct, LabelsIn, Range, Compilable;
    StmtSim.AllowedParts(s, ctx);
    var g := GenExpr(s.c, b, n, None);
    var mid := TestBranch(s.c, g.res, b + |g.code|, g.next);
    var m := b + |g.code| + |mid|;
    var h := GenStmt(s.yes, m, g.next + 1, ctx);
    var q := m + |h.code|;
    IfUnfold(s.c, s.yes, b, n, ctx);
    IfShape(p, b, g, mid, h);
    FormCondition(p, s.c, b, n, g.next);
    FormStmt(p, s.yes, m, g.next + 1, ctx);
    IfLabels(p, b, m, q, n, g.next, h.next);
    RefsJoin5(p, b, b, m, q, q + 1, q + 1, q + 1);
  }

  lemma IfLabels(p: Nodes, b: nat, m: nat, q: nat, n: nat, n1: nat, n2: nat)
    requires b <= m <= q < |p| && n <= n1 < n2 && Labelled(p, b, m, Range(n, n1)) && Labelled(p, m, q, Range(n1 + 1, n2)) && p[q] == NLabel(n1)
    ensures Labelled(p, b, q + 1, Range(n, n2))
  {
    hide Distinct, LabelsIn;
    Join(p, b, m, q, Range(n, n1), Range(n1 + 1, n2));
    One(p, q, n1);
    Join(p, b, q, q + 1, Range(n, n1) + Range(n1 + 1, n2), {n1});
    Weaken(p, b, q + 1, Range(n, n1) + Range(n1 + 1, n2) + {n1}, Range(n, n2));
  }

  lemma {:induction false} FormIfElse(p: Nodes, s: Stmt, b: nat, n: nat, ctx: Context)
    requires s.IfElse? && At(p, b, GenStmt(s, b, n, ctx).code) && StmtSim.Allowed(s, ctx)
    ensures StmtFormed(p, s, b, n, ctx)
    decreases s, 0
  {
    hide GenStmt, GenExpr, At, TestBranch, Distinct, LabelsIn, Range, Compilable;
    StmtSim.AllowedParts(s, ctx);
    var g := GenExpr(s.c, b, n, None);
    var mid := TestBranch(s.c, g.res, b + |g.code|, g.next);
    var m := b + |g.code| + |mid|;
    var h := GenStmt(s.yes, m, g.next + 2, ctx);
    var u := m + |h.code|;
    var k := GenStmt(s.no, u + 2, h.next, ctx);
    var w := u + 2 + |k.code|;
    IfElseUnfold(s.c, s.yes, s.no, b, n, ctx);
    IfElseShape(p, b, g, mid, h, k);
    FormCondition(p, s.c, b, n, g.next);
    FormStmt(p, s.yes, m, g.next + 2, ctx);
    FormStmt(p, s.no, u + 2, h.next, ctx);
    IfElseLabels(p, b, m, u, w, n, g.next, h.next, k.next);
    RefsJoin5(p, b, b, m, u, u + 2, w, w + 1);
  }

  lemma IfElseLabels(p: Nodes, b: nat, m: nat, u: nat, w: nat, n: nat, n1: nat, n2: nat, n3: nat)
    requires b <= m <= u && u + 2 <= w < |p| && n <= n1 && n1 + 2 <= n2 <= n3
    requires Labelled(p, b, m, Range(n, n1)) && Labelled(p, m, u, Range(n1 + 2, n2)) && NoLabels(p, u, u + 1) && p[u + 1] == NLabel(n1)
    requires Labelled(p, u + 2, w, Range(n2, n3)) && p[w] == NLabel(n1 + 1)
    ensures Labelled(p, b, w + 1, Range(n, n3))
  {
    hide Distinct, LabelsIn;
    var s1, s2, s3 := Range(n, n1), Range(n1 + 2, n2), Range(n2, n3);
    Join(p, b, m, u, s1, s2);
    Extend(p, b, b, u, u + 1, s1 + s2);
    One(p, u + 1, n1);
    Join(p, b, u + 1, u + 2, s1 + s2, {n1});
    Join(p, b, u + 2, w, s1 + s2 + {n1}, s3);
    One(p, w, n1 + 1);
    Join(p, b, w, w + 1, s1 + s2 + {n1} + s3, {n1 + 1});
    Weaken(p, b, w + 1, s1 + s2 + {n1} + s3 + {n1 + 1}, Range(n, n3));
  }

  lemma {:induction false} FormWhile(p: Nodes, s: Stmt, b: nat, n: nat, ctx: Context)
    requires s.While? && At(p, b, GenStmt(s, b, n, ctx).code) && StmtSim.Allowed(s, ctx)
    ensures StmtFormed(p, s, b, n, ctx)
    decreases s, 0
  {
    hide GenStmt, GenExpr, At, TestBranch, Distinct, LabelsIn, Range, Compilable;
    StmtSim.AllowedParts(s, ctx);
    var g := GenExpr(s.c, b + 1, n + 2, None);
    var mid := TestBranch(s.c, g.res, b + 1 + |g.code|, n + 1);
    var m := b + 1 + |g.code| + |mid|;
    var ctx' := ctx.InLoop(n + 1, n);
    var h := GenStmt(s.body, m, g.next, ctx');
    var u := m + |h.code|;
    WhileUnfold(s.c, s.body, b, n, ctx);
    WhileShape(p, b, n, g, mid, h);
    FormCondition(p, s.c, b + 1, n + 2, n + 1);
    FormStmt(p, s.body, m, g.next, ctx');
    Append(p, b + 1, m, u, n + 2, g.next, h.next);
    RefsNone(p, b, u);
    LoopFormed(p, b, u, n, h.next);
  }

  /** Head label, loop code, a node that refers to the loop code only, end label. */
  lemma LoopFormed(p: Nodes, b: nat, u: nat, n: nat, n1: nat)
    requires b + 1 <= u && u + 1 < |p| && p[b] == NLabel(n) && Formed(p, b + 1, u, n + 2, n1)
    requires NoLabels(p, u, u + 1) && RefsFrom(p, b, u, u + 1) && p[u + 1] == NLabel(n + 1)
    ensures Formed(p, b, u + 2, n, n1)
  {
    hide Distinct, LabelsIn, Range;
    LoopLabels(p, b, u, n, n1);
    RefsNone(p, b, b);
    RefsNone(p, b, u + 1);
    RefsWiden(p, b, b + 1, u);
    RefsJoin5(p, b, b, b + 1, u, u + 1, u + 2, u + 2);
  }

  /** Head label, loop code, a node without label, end label. */
  lemma LoopLabels(p: Nodes, b: nat, u: nat, n: nat, n1: nat)
    requires b + 1 <= u && u + 1 < |p| && n + 2 <= n1 && p[b] == NLabel(n)
    requires Labelled(p, b + 1, u, Range(n + 2, n1)) && NoLabels(p, u, u + 1) && p[u + 1] == NLabel(n + 1)
    ensures Labelled(p, b, u + 2, Range(n, n1))
  {
    hide Distinct, LabelsIn;
    var s1 := Range(n + 2, n1);
    Extend(p, b + 1, b + 1, u, u + 1, s1);
    One(p, u + 1, n + 1);
    Join(p, b + 1, u + 1, u + 2, s1, {n + 1});
    One(p, b, n);
    Join(p, b, b + 1, u + 2, {n}, s1 + {n + 1});
    Weaken(p, b, u + 2, {n} + (s1 + {n + 1}), Range(n, n1));
  }

  lemma {:induction false} FormDo(p: Nodes, s: Stmt, b: nat, n: nat, ctx: Context)
    requires s.DoWhile? && At(p, b, GenStmt(s, b, n, ctx).code) && StmtSim.Allowed(s, ctx)
    ensures StmtFormed(p, s, b, n, ctx)
    decreases s, 0
  {
    hide GenStmt, GenExpr, At, TestCode, TestOpd, Distinct, LabelsIn, Range, Compilable;
    StmtSim.AllowedParts(s, ctx);
    var ctx' := ctx.InLoop(n + 1, n);
    var h := GenStmt(s.body, b + 1, n + 2, ctx');
    var m := b + 1 + |h.code|;
    var g := GenExpr(s.c, m, h.next, None);
    var tc, o := TestCode(s.c, g.res), TestOpd(s.c, g.res, m + |g.code|);
    var u := m + |g.code| + |tc|;
    DoUnfold(s.body, s.c, b, n, ctx);
    DoShape(p, b, n, h, g, tc, o);
    FormStmt(p, s.body, b + 1, n + 2, ctx');
    FormExpr(p, s.c, m, h.next, None);
    Append(p, b + 1, m, m + |g.code|, n + 2, h.next, g.next);
    TestCodeFormed(p, s.c, g.res, m + |g.code|);
    AppendPlain(p, b + 1, m + |g.code|, u, n + 2, g.next);
    LoopFormed(p, b, u, n, g.next);
  }

  lemma FormForTest(p: Nodes, cond: Option<Expr>, b: nat, n0: nat, n: nat)
    requires At(p, b, GenForTest(cond, b, n0, n).code)
    ensures var g := GenForTest(cond, b, n0, n); Formed(p, b, b + |g.code|, n0, g.next)
  {
    hide GenExpr, At, TestBranch;
    if cond.Some? {
      var g := GenExpr(cond.value, b, n0, None);
      AtSplit(p, b, g.code, TestBranch(cond.value, g.res, b + |g.code|, n));
      FormCondition(p, cond.value, b, n0, n);
    }
  }

  lemma {:induction false} FormFor(p: Nodes, s: Stmt, b: nat, n: nat, ctx: Context)
    requires s.For? && At(p, b, GenStmt(s, b, n, ctx).code) && StmtSim.Allowed(s, ctx)
    ensures StmtFormed(p, s, b, n, ctx)
    decreases s, 0
  {
    hide GenStmt, GenSimple, GenForTest, At, Labelled, Range, RefsFrom, Compilable;
    RefsEmpty(p, b, b);
    StmtSim.AllowedParts(s, ctx);
    var i := GenSimple(s.init, b, n + 3);
    var m := b + |i.code|;
    var g := GenForTest(s.cond, m + 1, i.next, n + 1);
    var u := m + 1 + |g.code|;
    var ctx' := ctx.InLoop(n + 1, n + 2);
    var h := GenStmt(s.body, u, g.next, ctx');
    var w := u + |h.code|;
    var j := GenSimple(s.incr, w + 1, h.next);
    var z := w + 1 + |j.code|;
    ForUnfold(s.init, s.cond, s.incr, s.body, b, n, ctx);
    ForShape(p, b, n, i, g, h, j);
    FormSimple(p, s.init, b, n + 3);
    FormForTest(p, s.cond, m + 1, i.next, n + 1);
    FormStmt(p, s.body, u, g.next, ctx');
    FormSimple(p, s.incr, w + 1, h.next);
    Append(p, m + 1, u, w, i.next, g.next, h.next);
    ForLabels(p, b, m, w, z, n, i.next, h.next, j.next);
    RefsWiden(p, b, m + 1, w);
    RefsWiden(p, b, w + 1, z);
    RefsNone(p, b, m);
    RefsNone(p, b, w);
    RefsNone(p, b, z);
    RefsNone(p, b, z + 1);
    RefsJoin5(p, b, b, m, m + 1, w, w + 1, z);
    RefsJoin5(p, b, b, b, b, z, z + 1, z + 2);
  }

  lemma ForLabels(p: Nodes, b: nat, m: nat, w: nat, z: nat, n: nat, n1: nat, n2: nat, n3: nat)
    requires b <= m && m + 1 <= w && w + 1 <= z && z + 1 < |p| && n + 3 <= n1 <= n2 <= n3
    requires Labelled(p, b, m, Range(n + 3, n1)) && p[m] == NLabel(n) && Labelled(p, m + 1, w, Range(n1, n2)) && p[w] == NLabel(n + 2)
    requires Labelled(p, w + 1, z, Range(n2, n3)) && NoLabels(p, z, z + 1) && p[z + 1] == NLabel(n + 1)
    ensures Labelled(p, b, z + 2, Range(n, n3))
  {
    hide Distinct, LabelsIn;
    var s1, s2, s3 := Range(n + 3, n1), Range(n1, n2), Range(n2, n3);
    One(p, m, n);
    Join(p, b, m, m + 1, s1, {n});
    Join(p, b, m + 1, w, s1 + {n}, s2);
    One(p, w, n + 2);
    Join(p, b, w, w + 1, s1 + {n} + s2, {n + 2});
    Join(p, b, w + 1, z, s1 + {n} + s2 + {n + 2}, s3);
    Extend(p, b, b, z, z + 1, s1 + {n} + s2 + {n + 2} + s3);
    One(p, z + 1, n + 1);
    Join(p, b, z + 1, z + 2, s1 + {n} + s2 + {n + 2} + s3, {n + 1});
    Weaken(p, b, z + 2, s1 + {n} + s2 + {n + 2} + s3 + {n + 1}, Range(n, n3));
  }

  lemma {:induction false} FormForeach(p: Nodes, s: Stmt, b: nat, n: nat, ctx: Context)
    requires s.Foreach? && At(p, b, GenStmt(s, b, n, ctx).code) && StmtSim.Allowed(s, ctx)
    ensures StmtFormed(p, s, b, n, ctx)
    decreases s, 0
  {
    hide GenStmt, GenExpr, GenOption, At, Distinct, LabelsIn, Range, Compilable;
    StmtSim.AllowedParts(s, ctx);
    var g := GenExpr(s.e, b, n + 3, None);
    var k := GenOption(s.hi, b + |g.code|, g.next);
    var m := b + |g.code| + |k.code|;
    var ctx' := ctx.InLoop(n + 2, n).(fors := ctx.fors + 1);
    var h := GenStmt(s.body, m + 1, k.next, ctx');
    var u := m + 1 + |h.code|;
    var hiOpd := if s.hi.None? then None else Some(k.res);
    ForeachUnfold(s.x, s.e, s.hi, s.body, b, n, ctx);
    ForeachShape(p, b, n, s.x, g, hiOpd, k, h);
    ForeachHead(p, s.x, s.e, s.hi, b, n + 3, n + 1);
    FormStmt(p, s.body, m + 1, k.next, ctx');
    Append(p, b, m + 1, u, n + 3, k.next, h.next);
    ForeachLabels(p, b, u, n, h.next);
    RefsJoin5(p, b, b, u, u + 4, u + 4, u + 4, u + 4);
  }

  /** The collection, the upper bound and the FOREACH node. */
  lemma ForeachHead(p: Nodes, x: nat, e: Expr, hi: Option<Expr>, b: nat, n0: nat, n: nat)
    requires var g := GenExpr(e, b, n0, None);
             var k := GenOption(hi, b + |g.code|, g.next);
             var m := b + |g.code| + |k.code|;
             && At(p, b, g.code) && At(p, b + |g.code|, k.code)
             && m < |p| && p[m] == NForeach(x, g.res, if hi.None? then None else Some(k.res), n)
    ensures var g := GenExpr(e, b, n0, None);
            var k := GenOption(hi, b + |g.code|, g.next);
            Formed(p, b, b + |g.code| + |k.code| + 1, n0, k.next)
  {
    hide GenExpr, GenOption, At, Distinct, LabelsIn, Range;
    var g := GenExpr(e, b, n0, None);
    var k := GenOption(hi, b + |g.code|, g.next);
    var m := b + |g.code| + |k.code|;
    FormExpr(p, e, b, n0, None);
    FormOption(p, hi, b + |g.code|, g.next);
    Append(p, b, b + |g.code|, m, n0, g.next, k.next);
    AppendPlain(p, b, m, m + 1, n0, k.next);
  }

  lemma FormOption(p: Nodes, e: Option<Expr>, b: nat, n: nat)
    requires At(p, b, GenOption(e, b, n).code)
    ensures var g := GenOption(e, b, n); Formed(p, b, b + |g.code|, n, g.next) && (g.res.ONode? ==> b <= g.res.n < b + |g.code| && IsValue(p, g.res.n))
  {
    if e.Some? { FormExpr(p, e.value, b, n, None); }
  }

  lemma ForeachLabels(p: Nodes, b: nat, u: nat, n: nat, n1: nat)
    requires b <= u && u + 3 < |p| && n + 3 <= n1 && Labelled(p, b, u, Range(n + 3, n1))
    requires p[u] == NLabel(n) && NoLabels(p, u + 1, u + 2) && p[u + 2] == NLabel(n + 2) && p[u + 3] == NLabel(n + 1)
    ensures Labelled(p, b, u + 4, Range(n, n1))
  {
    hide Distinct, LabelsIn;
    var s1 := Range(n + 3, n1);
    One(p, u, n);
    Join(p, b, u, u + 1, s1, {n});
    Extend(p, b, b, u + 1, u + 2, s1 + {n});
    One(p, u + 2, n + 2);
    Join(p, b, u + 2, u + 3, s1 + {n}, {n + 2});
    One(p, u + 3, n + 1);
    Join(p, b, u + 3, u + 4, s1 + {n} + {n + 2}, {n + 1});
    Weaken(p, b, u + 4, s1 + {n} + {n + 2} + {n + 1}, Range(n, n1));
  }

  lemma {:induction false} FormTry(p: Nodes, s: Stmt, b: nat, n: nat, ctx: Context)
    requires s.TryCatch? && At(p, b, GenStmt(s, b, n, ctx).code) && StmtSim.Allowed(s, ctx)
    ensures StmtFormed(p, s, b, n, ctx)
    decreases s, 0
  {
    hide GenStmt, At, Distinct, LabelsIn, Range, Compilable;
    StmtSim.AllowedParts(s, ctx);
    var ctx' := ctx.(tries := ctx.tries + 1);
    var h := GenStmt(s.body, b + 1, n + 2, ctx');
    var u := b + 1 + |h.code|;
    var k := GenStmt(s.handler, u + 3, h.next, ctx);
    var w := u + 3 + |k.code|;
    TryUnfold(s.body, s.x, s.handler, b, n, ctx);
    TryShape(p, b, n, s.x, h, k);
    FormStmt(p, s.body, b + 1, n + 2, ctx');
    FormStmt(p, s.handler, u + 3, h.next, ctx);
    TryLabels(p, b, u, w, n, h.next, k.next);
    RefsJoin5(p, b, b, b + 1, u, u + 3, w, w + 1);
  }

  lemma TryLabels(p: Nodes, b: nat, u: nat, w: nat, n: nat, n1: nat, n2: nat)
    requires b + 1 <= u && u + 3 <= w < |p| && n + 2 <= n1 <= n2
    requires NoLabels(p, b, b + 1) && Labelled(p, b + 1, u, Range(n + 2, n1)) && NoLabels(p, u, u + 1) && p[u + 1] == NLabel(n)
    requires NoLabels(p, u + 2, u + 3) && Labelled(p, u + 3, w, Range(n1, n2)) && p[w] == NLabel(n + 1)
    ensures Labelled(p, b, w + 1, Range(n, n2))
  {
    hide Distinct, LabelsIn;
    var s1, s2 := Range(n + 2, n1), Range(n1, n2);
    Extend(p, b, b + 1, u, u + 1, s1);
    One(p, u + 1, n);
    Join(p, b, u + 1, u + 2, s1, {n});
    Extend(p, b, b, u + 2, u + 3, s1 + {n});
    Join(p, b, u + 3, w, s1 + {n}, s2);
    One(p, w, n + 1);
    Join(p, b, w, w + 1, s1 + {n} + s2, {n + 1});
    Weaken(p, b, w + 1, s1 + {n} + s2 + {n + 1}, Range(n, n2));
  }

  lemma {:induction false} ClearFormed(p: Nodes, xs: seq<nat>, b: nat)
    requires At(p, b, ClearCode(xs))
    ensures var e := b + |ClearCode(xs)|; e <= |p| && NoLabels(p, b, e) && RefsFrom(p, b, b, e)
    decreases |xs|
  {
    if xs != [] {
      AtSplit(p, b, [NMov(MVar(xs[0]), OImm(Nothing))], ClearCode(xs[1..]));
      ClearFormed(p, xs[1..], b + 1);
    }
  }

  lemma {:induction false} FormCompound(p: Nodes, s: Stmt, b: nat, n: nat, ctx: Context)
    requires s.Compound? && At(p, b, GenStmt(s, b, n, ctx).code) && StmtSim.Allowed(s, ctx)
    ensures StmtFormed(p, s, b, n, ctx)
    decreases s, 0
  {
    hide GenStmt, ClearCode, At, Distinct, LabelsIn, Range, Compilable;
    StmtSim.AllowedParts(s, ctx);
    var ctx' := ctx.(scope := ctx.scope + 1);
    var m := b + 1 + |ClearCode(s.inits)|;
    var h := GenStmt(s.body, m, n, ctx');
    var u := m + |h.code|;
    CompoundUnfold(s.inits, s.body, b, n, ctx);
    CompoundShape(p, b, ClearCode(s.inits), h);
    ClearFormed(p, s.inits, b + 1);
    FormStmt(p, s.body, m, n, ctx');
    Extend(p, b, m, u, u + 1, Range(n, h.next));
    RefsJoin5(p, b, b, b + 1, m, u, u + 1, u + 1);
  }

  lemma {:induction false} FormReturn(p: Nodes, s: Stmt, b: nat, n: nat, ctx: Context)
    requires s.Return? && At(p, b, GenStmt(s, b, n, ctx).code)
    ensures StmtFormed(p, s, b, n, ctx)
  {
    hide GenStmt, GenOption, At, Distinct, LabelsIn, Range;
    var g := GenOption(s.result, b, n);
    var pop := ReturnPop(ctx);
    var m := b + |g.code|;
    ReturnUnfold(s.result, b, n, ctx);
    ReturnShape(p, b, g, pop, if s.result.None? then NRet else NRetVal(g.res));
    FormOption(p, s.result, b, n);
    if pop != [] { AtOne(p, m, pop[0]); }
    AppendPlain(p, b, m, m + |pop|, n, g.next);
    AppendPlain(p, b, m + |pop|, m + |pop| + 1, n, g.next);
  }

  lemma {:induction false} FormThrow(p: Nodes, s: Stmt, b: nat, n: nat, ctx: Context)
    requires s.Throw? && At(p, b, GenStmt(s, b, n, ctx).code)
    ensures StmtFormed(p, s, b, n, ctx)
  {
    hide GenExpr, At, Distinct, LabelsIn;
    var g := GenExpr(s.e, b, n, None);
    AtLast(p, b, g.code, NThrow(g.res));
    FormExpr(p, s.e, b, n, None);
    AppendPlain(p, b, b + |g.code|, b + |g.code| + 1, n, g.next);
  }

  lemma {:induction false} FormSeq(p: Nodes, s: Stmt, b: nat, n: nat, ctx: Context)
    requires s.Seq? && At(p, b, GenStmt(s, b, n, ctx).code) && StmtSim.Allowed(s, ctx)
    ensures StmtFormed(p, s, b, n, ctx)
    decreases s, 0
  {
    hide GenStmt, At, Distinct, LabelsIn, Compilable;
    StmtSim.AllowedParts(s, ctx);
    var g := GenStmt(s.first, b, n, ctx);
    var m := b + |g.code|;
    var h := GenStmt(s.second, m, g.next, ctx);
    SeqUnfold(s.first, s.second, b, n, ctx);
    AtSplit(p, b, g.code, h.code);
    FormStmt(p, s.first, b, n, ctx);
    FormStmt(p, s.second, m, g.next, ctx);
    Append(p, b, m, m + |h.code|, n, g.next, h.next);
  }

  lemma {:induction false} FormLeave(p: Nodes, s: Stmt, b: nat, n: nat, ctx: Context)
    requires (s.Break? || s.Continue?) && At(p, b, GenStmt(s, b, n, ctx).code)
    ensures StmtFormed(p, s, b, n, ctx)
  {
    var t := if s.Break? then ctx.brk else ctx.cont;
    assert GenStmt(s, b, n, ctx) == GenS(LeaveCode(ctx, t, s.Break?), n);
    hide GenStmt, LeaveCode;
    LeaveFormed(p, ctx, t, s.Break?, b, n);
  }

  lemma LeaveFormed(p: Nodes, ctx: Context, t: Option<Target>, popFors: bool, b: nat, n: nat)
    requires At(p, b, LeaveCode(ctx, t, popFors))
    ensures Formed(p, b, b + |LeaveCode(ctx, t, popFors)|, n, n)
  {
    if t.Some? {
      var code := LeaveCode(ctx, t, popFors);
      AtTwo(p, b, code[0], code[1]);
    }
  }

  // ----- switch -----

  /** The labels of the clauses. */
  function LabelSet(labels: seq<Option<nat>>): set<nat>
    decreases |labels|
  {
    if labels == [] then {} else (if labels[0].Some? then {labels[0].value} else {}) + LabelSet(labels[1..])
  }

  /** No clause label occurs twice. */
  predicate Different(labels: seq<Option<nat>>)
    decreases |labels|
  {
    labels == [] || ((labels[0].Some? ==> labels[0].value !in LabelSet(labels[1..])) && Different(labels[1..]))
  }

  /** The comparisons of a switch: they refer to the value compared and to each other, and issue all
      the labels in their range except those they leave to the clauses. */
  ghost predicate TestsFormed(p: Nodes, cs: Cases, o: Opd, b: nat, n: nat) {
    var g := GenTests(cs, o, b, n);
    var e := b + |g.code|;
    && n <= g.next && RefsTo(p, b, e, o) && LabelSet(g.labels) <= Range(n, g.next) && Different(g.labels)
    && Labelled(p, b, e, Range(n, g.next) - LabelSet(g.labels))
  }

  lemma {:induction false} FormTests(p: Nodes, cs: Cases, o: Opd, b: nat, n: nat)
    requires At(p, b, GenTests(cs, o, b, n).code) && (o.ONode? ==> o.n < b && IsValue(p, o.n))
    ensures TestsFormed(p, cs, o, b, n)
    decreases cs, 1
  {
    match cs
    case NoCases =>
    case Default(_, rest) =>
      hide At, GenExpr, Range, Labelled, RefsTo;
      FormTests(p, rest, o, b, n);
      assert ([None] + GenTests(rest, o, b, n).labels)[1..] == GenTests(rest, o, b, n).labels;
    case Case(op, e, body, rest) =>
      FormTest(p, op, e, body, rest, o, b, n);
  }

  lemma {:induction false} FormTest(p: Nodes, op: CaseOp, e: Expr, body: Stmt, rest: Cases, o: Opd, b: nat, n: nat)
    requires At(p, b, GenTests(Case(op, e, body, rest), o, b, n).code) && (o.ONode? ==> o.n < b && IsValue(p, o.n))
    ensures TestsFormed(p, Case(op, e, body, rest), o, b, n)
    decreases rest, 2
  {
    hide GenExpr, GenTests, At, Distinct, LabelsIn;
    var c := GenExpr(e, b, n + 1, None);
    var m := b + |c.code|;
    var g := GenTests(rest, o, m + 2, c.next);
    var end := m + 2 + |g.code|;
    StmtSim.TestsUnfold(op, e, body, rest, o, b, n);
    TestShape(p, op, o, b, n, c, g);
    FormExpr(p, e, b, n + 1, None);
    FormTests(p, rest, o, m + 2, c.next);
    assert ([Some(n)] + g.labels)[1..] == g.labels;
    assert LabelSet([Some(n)] + g.labels) == {n} + LabelSet(g.labels);
    var s1, s2 := Range(n + 1, c.next), Range(c.next, g.next) - LabelSet(g.labels);
    Extend(p, b, b, m, m + 2, s1);
    Join(p, b, m + 2, end, s1, s2);
    Weaken(p, b, end, s1 + s2, Range(n, g.next) - ({n} + LabelSet(g.labels)));
    TestRefs(p, o, b, m, end);
  }

  lemma TestRefs(p: Nodes, o: Opd, b: nat, m: nat, end: nat)
    requires b <= m && m + 2 <= end && RefsFrom(p, b, b, m) && RefsTo(p, m + 2, end, o) && end <= |p| && (o.ONode? ==> o.n < b && IsValue(p, o.n))
    requires forall r: nat {:trigger Uses(p[m], r)} :: Uses(p[m], r) ==> (b <= r < m || ONode(r) == o) && IsValue(p, r)
    requires forall r: nat {:trigger Uses(p[m + 1], r)} :: Uses(p[m + 1], r) ==> r == m && IsValue(p, r)
    ensures RefsTo(p, b, end, o)
  {
    forall i: nat, r: nat | b <= i < end && i < |p| && Uses(p[i], r) ensures r < i && (r >= b || ONode(r) == o) && IsValue(p, r) {
      if i == m {
        assert Uses(p[m], r);
      } else if i == m + 1 {
        assert Uses(p[m + 1], r);
      }
    }
  }

  /** The labels a list of clauses issues. */
  function ClauseLabels(cs: Cases, labels: seq<Option<nat>>, dflt: nat): set<nat> {
    LabelSet(labels) + if HasDefault(cs) then {dflt} else {}
  }

  /** Labels stand for cases only, as the comparisons hand them out. */
  predicate LabelsFit(cs: Cases, labels: seq<Option<nat>>)
    decreases cs
  {
    |labels| == CountCases(cs) && (!cs.NoCases? ==> labels[0].Some? == cs.Case? && LabelsFit(cs.rest, labels[1..]))
  }

  lemma {:induction false} TestsFit(cs: Cases, o: Opd, b: nat, n: nat)
    ensures LabelsFit(cs, GenTests(cs, o, b, n).labels)
    decreases cs
  {
    hide GenExpr;
    match cs
    case NoCases =>
    case Default(_, rest) =>
      TestsFit(rest, o, b, n);
      assert ([None] + GenTests(rest, o, b, n).labels)[1..] == GenTests(rest, o, b, n).labels;
    case Case(_, e, _, rest) =>
      var c := GenExpr(e, b, n + 1, None);
      var g := GenTests(rest, o, b + |c.code| + 2, c.next);
      TestsFit(rest, o, b + |c.code| + 2, c.next);
      assert ([Some(n)] + g.labels)[1..] == g.labels;
  }

  lemma {:induction false} FormBodies(p: Nodes, cs: Cases, labels: seq<Option<nat>>, dflt: nat, b: nat, n: nat, ctx: Context)
    requires LabelsFit(cs, labels) && At(p, b, GenBodies(cs, labels, dflt, b, n, ctx).code)
    requires ctx.brk.Some? && CompilableCases(cs, ctx.cont.Some?, ctx.scope, ctx.tries, ctx.fors) && OneDefault(cs)
    requires Different(labels) && dflt !in LabelSet(labels) && ClauseLabels(cs, labels, dflt) <= Range(0, n)
    ensures var g := GenBodies(cs, labels, dflt, b, n, ctx);
            var e := b + |g.code|;
            n <= g.next && RefsFrom(p, b, b, e) && Labelled(p, b, e, ClauseLabels(cs, labels, dflt) + Range(n, g.next))
    decreases cs, 1
  {
    hide GenStmt, GenBodies, At, Distinct, LabelsIn, Compilable, CompilableCases, OneDefault, LabelsFit, Range, LabelSet, ClauseLabels, Different;
    if cs.NoCases? {
      NoBodies(p, labels, dflt, b, n, ctx);
    } else {
      ClauseParts(cs, labels, ctx);
      StmtSim.BodiesUnfold(cs, labels, dflt, b, n, ctx);
      var l := ClauseLabel(cs, labels, dflt);
      var g := GenStmt(cs.body, b + 1, n, ctx);
      var m := b + 1 + |g.code|;
      var h := GenBodies(cs.rest, labels[1..], dflt, m, g.next, ctx);
      var e := m + |h.code|;
      ClauseShape(p, b, l, g, h);
      FormStmt(p, cs.body, b + 1, n, ctx);
      var rest := ClauseLabels(cs.rest, labels[1..], dflt);
      ClauseSets(cs, labels, dflt, n, g.next);
      FormBodies(p, cs.rest, labels[1..], dflt, m, g.next, ctx);
      BodyLabels(p, b, m, e, l, rest, n, g.next, h.next);
      RefsJoin5(p, b, b, b + 1, m, e, e, e);
    }
  }

  lemma NoBodies(p: Nodes, labels: seq<Option<nat>>, dflt: nat, b: nat, n: nat, ctx: Context)
    requires LabelsFit(NoCases, labels)
    ensures var g := GenBodies(NoCases, labels, dflt, b, n, ctx);
            g == GenS([], n) && RefsFrom(p, b, b, b) && Labelled(p, b, b, ClauseLabels(NoCases, labels, dflt) + Range(n, n))
  {}

  lemma ClauseParts(cs: Cases, labels: seq<Option<nat>>, ctx: Context)
    requires !cs.NoCases? && LabelsFit(cs, labels) && ctx.brk.Some? && CompilableCases(cs, ctx.cont.Some?, ctx.scope, ctx.tries, ctx.fors)
    ensures |labels| == CountCases(cs) > 0 && |labels[1..]| == CountCases(cs.rest)
    ensures StmtSim.Allowed(cs.body, ctx) && LabelsFit(cs.rest, labels[1..])
    ensures CompilableCases(cs.rest, ctx.cont.Some?, ctx.scope, ctx.tries, ctx.fors)
  {}

  lemma BodyLabels(p: Nodes, b: nat, m: nat, e: nat, l: nat, rest: set<nat>, n: nat, n1: nat, n2: nat)
    requires b + 1 <= m <= e && b < |p| && p[b] == NLabel(l) && n <= n1 <= n2 && l < n && l !in rest && rest <= Range(0, n)
    requires Labelled(p, b + 1, m, Range(n, n1)) && Labelled(p, m, e, rest + Range(n1, n2))
    ensures Labelled(p, b, e, {l} + rest + Range(n, n2))
  {
    hide Distinct, LabelsIn;
    var s1, s2 := Range(n, n1), rest + Range(n1, n2);
    One(p, b, l);
    Join(p, b + 1, m, e, s1, s2);
    Join(p, b, b + 1, e, {l}, s1 + s2);
    Weaken(p, b, e, {l} + (s1 + s2), {l} + rest + Range(n, n2));
  }

  /** How the labels of the first clause and of the others make up all labels. */
  lemma ClauseSets(cs: Cases, labels: seq<Option<nat>>, dflt: nat, n: nat, n': nat)
    requires !cs.NoCases? && LabelsFit(cs, labels) && OneDefault(cs) && n <= n'
    requires Different(labels) && dflt !in LabelSet(labels) && ClauseLabels(cs, labels, dflt) <= Range(0, n)
    ensures var l := ClauseLabel(cs, labels, dflt);
            var rest := ClauseLabels(cs.rest, labels[1..], dflt);
            && ClauseLabels(cs, labels, dflt) == {l} + rest && l !in rest && rest <= Range(0, n) && l < n
            && rest <= Range(0, n') && OneDefault(cs.rest) && Different(labels[1..]) && dflt !in LabelSet(labels[1..])
  {
    assert LabelSet(labels) == (if labels[0].Some? then {labels[0].value} else {}) + LabelSet(labels[1..]);
    OneDefaultRest(cs);
  }

  lemma {:induction false} OneDefaultRest(cs: Cases)
    requires !cs.NoCases? && OneDefault(cs)
    ensures OneDefault(cs.rest)
    decreases cs
  {
    if cs.Default? && !cs.rest.NoCases? { OneDefaultRest2(cs.rest); }
  }

  lemma {:induction false} OneDefaultRest2(cs: Cases)
    requires !HasDefault(cs)
    ensures OneDefault(cs)
    decreases cs
  {
    if cs.Case? { OneDefaultRest2(cs.rest); }
  }

  lemma {:induction false} FormSwitch(p: Nodes, s: Stmt, b: nat, n: nat, ctx: Context)
    requires s.Switch? && At(p, b, GenStmt(s, b, n, ctx).code) && StmtSim.Allowed(s, ctx)
    ensures StmtFormed(p, s, b, n, ctx)
    decreases s, 0
  {
    hide GenStmt, GenExpr, GenTests, GenBodies, At, Distinct, LabelsIn, CompilableCases, LabelsFit, LabelSet, Different;
    var ctx' := ctx.InSwitch(n);
    var g := GenExpr(s.e, b, n + 1, None);
    var b0 := b + |g.code|;
    var t := GenTests(s.cases, g.res, b0, g.next);
    var m := b0 + |t.code|;
    var dflt := if HasDefault(s.cases) then t.next else n;
    var n' := if HasDefault(s.cases) then t.next + 1 else t.next;
    var h := GenBodies(s.cases, t.labels, dflt, m + 1, n', ctx');
    var q := m + 1 + |h.code|;
    SwitchUnfold(s.e, s.cases, b, n, ctx);
    SwitchShape(p, b, n, g, t, dflt, h);
    FormExpr(p, s.e, b, n + 1, None);
    FormTests(p, s.cases, g.res, b0, g.next);
    TestsFit(s.cases, g.res, b0, g.next);
    FormBodies(p, s.cases, t.labels, dflt, m + 1, n', ctx');
    SwitchLabels(p, b, b0, m, q, n, g.next, t.next, n', h.next, LabelSet(t.labels), dflt, HasDefault(s.cases));
    SwitchRefs(p, g.res, b, b0, m);
    RefsJoin5(p, b, b, b0, m, m + 1, q, q + 1);
  }

  lemma SwitchRefs(p: Nodes, o: Opd, b: nat, b0: nat, m: nat)
    requires b <= b0 && RefsTo(p, b0, m, o) && (o.ONode? ==> b <= o.n < b0)
    ensures RefsFrom(p, b, b0, m)
  {}

  lemma SwitchLabels(p: Nodes, b: nat, b0: nat, m: nat, q: nat, n: nat, n1: nat, n2: nat, n3: nat, n4: nat, s: set<nat>, dflt: nat, d: bool)
    requires b <= b0 <= m && m + 1 <= q < |p| && n + 1 <= n1 <= n2 && n3 <= n4 && s <= Range(n1, n2)
    requires n3 == (if d then n2 + 1 else n2) && dflt == (if d then n2 else n)
    requires Labelled(p, b, b0, Range(n + 1, n1)) && Labelled(p, b0, m, Range(n1, n2) - s) && NoLabels(p, m, m + 1)
    requires Labelled(p, m + 1, q, s + (if d then {dflt} else {}) + Range(n3, n4)) && p[q] == NLabel(n)
    ensures Labelled(p, b, q + 1, Range(n, n4))
  {
    hide Distinct, LabelsIn;
    var s1, s2, s3 := Range(n + 1, n1), Range(n1, n2) - s, s + (if d then {dflt} else {}) + Range(n3, n4);
    Join(p, b, b0, m, s1, s2);
    Extend(p, b, b, m, m + 1, s1 + s2);
    Join(p, b, m + 1, q, s1 + s2, s3);
    One(p, q, n);
    Join(p, b, q, q + 1, s1 + s2 + s3, {n});
    Weaken(p, b, q + 1, s1 + s2 + s3 + {n}, Range(n, n4));
  }

  // ----- all statements -----

  lemma {:induction false} FormStmt(p: Nodes, s: Stmt, b: nat, n: nat, ctx: Context)
    requires At(p, b, GenStmt(s, b, n, ctx).code) && StmtSim.Allowed(s, ctx)
    ensures StmtFormed(p, s, b, n, ctx)
    decreases s, 1
  {
    hide GenStmt, At, StmtSim.Allowed, Distinct, LabelsIn, Range, Formed;
    match s
    case Do(sm) => FormDoSimple(p, s, b, n, ctx);
    case Seq(_, _) => FormSeq(p, s, b, n, ctx);
    case If(_, _) => FormIf(p, s, b, n, ctx);
    case IfElse(_, _, _) => FormIfElse(p, s, b, n, ctx);
    case While(_, _) => FormWhile(p, s, b, n, ctx);
    case DoWhile(_, _) => FormDo(p, s, b, n, ctx);
    case For(_, _, _, _) => FormFor(p, s, b, n, ctx);
    case Foreach(_, _, _, _) => FormForeach(p, s, b, n, ctx);
    case Compound(_, _) => FormCompound(p, s, b, n, ctx);
    case Break => FormLeave(p, s, b, n, ctx);
    case Continue => FormLeave(p, s, b, n, ctx);
    case Return(_) => FormReturn(p, s, b, n, ctx);
    case TryCatch(_, _, _) => FormTry(p, s, b, n, ctx);
    case Throw(_) => FormThrow(p, s, b, n, ctx);
    case Switch(_, _) => FormSwitch(p, s, b, n, ctx);
  }

  lemma FormDoSimple(p: Nodes, s: Stmt, b: nat, n: nat, ctx: Context)
    requires s.Do? && At(p, b, GenStmt(s, b, n, ctx).code)
    ensures StmtFormed(p, s, b, n, ctx)
  {
    hide GenSimple, At, Formed;
    FormSimple(p, s.simple, b, n);
  }
}

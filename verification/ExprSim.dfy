/** The node code of an expression computes the value of the expression. */
module ExprSim {
  import opened Values
  import opened Source
  import opened IntermediateForm
  import opened NodeMachine
  import M = Machine

  /** Evaluation with an optional destination variable for the top node. */
  function EvalTo(e: Expr, d: Option<nat>, st: Store): (Result, Store) {
    if d.None? then (Eval(e, st), st)
    else
      var f := AssignExpr(Actual, d.value, e, st);
      (if f.exit.Threw? then Err(f.exit.t) else Ok(f.store.Get(d.value)), f.store)
  }

  ghost predicate SameStacks(s: M.State, t: M.State) {
    s.scopes == t.scopes && s.fors == t.fors && s.tries == t.tries && s.exn == t.exn
  }

  /** Slots of nodes before position b keep their values. */
  ghost predicate Keeps(s: M.State, t: M.State, b: nat) {
    forall q :: 0 <= q < b && q in s.slots ==> q in t.slots && t.slots[q] == s.slots[q]
  }

  /** After k rounds from s: at position end with the value in res, or raising the exception. */
  ghost predicate Delivers(p: Nodes, ls: Labels, k: nat, s: M.State, t: M.State, b: nat, end: nat, res: Opd, r: (Result, Store)) {
    && SameStacks(s, t) && t.store == r.1
    && match r.0
       case Ok(v) =>
         && M.Run(Code(p, ls), k, s) == M.Running(t) && t.pc == end && Keeps(s, t, b)
         && M.Read(t, Resolve(p, res)) == Some(v)
       case Err(x) => M.Run(Code(p, ls), k, s) == M.Raise(t, x)
  }

  lemma Step1(p: Nodes, ls: Labels, k: nat, s: M.State)
    requires M.Run(Code(p, ls), k, s).Running?
    ensures M.Run(Code(p, ls), k + 1, s) == M.Step(Code(p, ls), M.Run(Code(p, ls), k, s).s)
    ensures M.Work(Code(p, ls), k + 1, s) == M.Work(Code(p, ls), k, s) + M.Work(Code(p, ls), 1, M.Run(Code(p, ls), k, s).s)
  {
    M.RunAdd(Code(p, ls), k, 1, s);
    var t := M.Run(Code(p, ls), k, s).s;
    assert M.Run(Code(p, ls), 1, t) == M.Step(Code(p, ls), t);
  }

  /** compareTrue: afterwards the tested operand is true exactly when the value is truthy. */
  lemma TestSim(p: Nodes, ls: Labels, e: Expr, st: Store, res: Opd, m: nat, s: M.State, v: Value) returns (k: nat, t: M.State)
    requires At(p, m, TestCode(e, res)) && s.pc == m
    requires M.Read(s, Resolve(p, res)) == Some(v) && Eval(e, st) == Ok(v)
    ensures M.Run(Code(p, ls), k, s) == M.Running(t)
    ensures t.pc == m + |TestCode(e, res)| && t.store == s.store && SameStacks(s, t) && Keeps(s, t, m)
    ensures M.Read(t, Resolve(p, TestOpd(e, res, m))).Some?
    ensures ToBool(M.Read(t, Resolve(p, TestOpd(e, res, m))).value) == Truth(v)
  {
    if e.Bin? && IsCompare(e.bop) {
      k, t := 0, s;
      TruthOfComparison(e.bop, Eval(e.a, st).v, Eval(e.b, st).v);
    } else {
      k := 1;
      assert p[m] == TestCode(e, res)[0];
      t := M.Step(Code(p, ls), s).s;
      TruthIsCompareNotZero(v);
      assert M.Run(Code(p, ls), 1, s) == M.Step(Code(p, ls), s);
    }
  }

  /** The result operand of an expression without destination is a leaf or one of its own nodes. */
  lemma ResultBound(e: Expr, b: nat, n: nat)
    ensures var g := GenExpr(e, b, n, None); g.res.ONode? ==> b <= g.res.n < b + |g.code|
  {}

  /** A result stays readable while later code runs. */
  lemma ResultReadable(p: Nodes, e: Expr, b: nat, n: nat, s: M.State, t: M.State)
    requires s.store == t.store
    requires Keeps(s, t, b + |GenExpr(e, b, n, None).code|)
    requires M.Read(s, Resolve(p, GenExpr(e, b, n, None).res)).Some?
    ensures M.Read(t, Resolve(p, GenExpr(e, b, n, None).res)) == M.Read(s, Resolve(p, GenExpr(e, b, n, None).res))
  {
    ResultBound(e, b, n);
  }

  lemma NodeReadable(p: Nodes, b: nat, m: nat, s: M.State, t: M.State)
    requires b < m && Keeps(s, t, m) && s.store == t.store && M.Read(s, Resolve(p, ONode(b))).Some?
    ensures M.Read(t, Resolve(p, ONode(b))) == M.Read(s, Resolve(p, ONode(b)))
  {}

  // ----- how GenExpr unfolds -----

  lemma UnUnfold(op: UnOp, a: Expr, b: nat, n: nat, d: Option<nat>)
    ensures GenExpr(Un(op, a), b, n, d) == BuildUn(op, GenExpr(a, b, n, None), b, d)
  {
    hide BuildLogical, AndMid, OrMid, BuildUn, BuildBin, BuildCond, TestBranch;
  }

  lemma BinUnfold(op: BinOp, a1: Expr, a2: Expr, b: nat, n: nat, d: Option<nat>)
    ensures var l := GenExpr(a1, b, n, None);
            GenExpr(Bin(op, a1, a2), b, n, d) == BuildBin(op, l, GenExpr(a2, b + |l.code|, l.next, None), b, d)
  {
    hide BuildLogical, AndMid, OrMid, BuildUn, BuildBin, BuildCond, TestBranch;
  }

  lemma AndUnfold(a1: Expr, a2: Expr, b: nat, n: nat, d: Option<nat>)
    ensures var l := GenExpr(a1, b + 1, n + 1, None);
            var mid := AndMid(a1, l, b, n);
            GenExpr(And(a1, a2), b, n, d) == BuildLogical(b, n, d, l, mid, GenExpr(a2, b + 1 + |l.code| + |mid|, l.next, None))
  {
    hide BuildLogical, AndMid, OrMid, BuildUn, BuildBin, BuildCond, TestBranch;
  }

  lemma OrUnfold(a1: Expr, a2: Expr, b: nat, n: nat, d: Option<nat>)
    ensures var l := GenExpr(a1, b + 1, n + 1, None);
            var mid := OrMid(l, b, n);
            GenExpr(Or(a1, a2), b, n, d) == BuildLogical(b, n, d, l, mid, GenExpr(a2, b + 1 + |l.code| + |mid|, l.next, None))
  {
    hide BuildLogical, AndMid, OrMid, BuildUn, BuildBin, BuildCond, TestBranch;
  }

  lemma CondUnfold(c: Expr, a1: Expr, a2: Expr, b: nat, n: nat, d: Option<nat>)
    ensures var l := GenExpr(c, b + 1, n, None);
            var mid := TestBranch(c, l.res, b + 1 + |l.code|, l.next);
            var r := GenExpr(a1, b + 1 + |l.code| + |mid|, l.next + 2, None);
            GenExpr(Cond(c, a1, a2), b, n, d) ==
            BuildCond(b, d, l, mid, r, GenExpr(a2, b + 4 + |l.code| + |mid| + |r.code|, r.next, None))
  {
    hide BuildLogical, AndMid, OrMid, BuildUn, BuildBin, BuildCond, TestBranch;
  }

  // ----- where the parts stand -----

  lemma LogicalShape(p: Nodes, b: nat, n: nat, d: Option<nat>, l: Gen, mid: Nodes, r: Gen)
    requires At(p, b, BuildLogical(b, n, d, l, mid, r).code)
    ensures var m := b + 1 + |l.code|;
            var q := m + |mid| + |r.code|;
            && b + |BuildLogical(b, n, d, l, mid, r).code| == q + 2 <= |p|
            && p[b] == NTemp(d) && At(p, b + 1, l.code) && At(p, m, mid) && At(p, m + |mid|, r.code)
            && p[q] == NMov(MNode(b), r.res) && p[q + 1] == NLabel(n)
  {
    hide At;
    AtSplit5(p, b, [NTemp(d)], l.code, mid, r.code, [NMov(MNode(b), r.res), NLabel(n)]);
    AtOne(p, b, NTemp(d));
    AtTwo(p, b + 1 + |l.code| + |mid| + |r.code|, NMov(MNode(b), r.res), NLabel(n));
  }

  lemma CondShape(p: Nodes, b: nat, d: Option<nat>, l: Gen, mid: Nodes, r: Gen, q: Gen)
    requires At(p, b, BuildCond(b, d, l, mid, r, q).code)
    ensures var m := b + 1 + |l.code|;
            var u := m + |mid| + |r.code|;
            var w := u + 3 + |q.code|;
            && b + |BuildCond(b, d, l, mid, r, q).code| == w + 2 <= |p|
            && p[b] == NTemp(d) && At(p, b + 1, l.code) && At(p, m, mid) && At(p, m + |mid|, r.code)
            && p[u] == NMov(MNode(b), r.res) && p[u + 1] == NB(l.next + 1) && p[u + 2] == NLabel(l.next)
            && At(p, u + 3, q.code) && p[w] == NMov(MNode(b), q.res) && p[w + 1] == NLabel(l.next + 1)
  {
    hide At;
    var mv := [NMov(MNode(b), r.res), NB(l.next + 1), NLabel(l.next)];
    var fst := [NTemp(d)] + l.code + mid + r.code + mv;
    var tail := [NMov(MNode(b), q.res), NLabel(l.next + 1)];
    AtSplit(p, b, fst, q.code + tail);
    AtSplit(p, b + |fst|, q.code, tail);
    AtSplit5(p, b, [NTemp(d)], l.code, mid, r.code, mv);
    AtOne(p, b, NTemp(d));
    var u := b + 1 + |l.code| + |mid| + |r.code|;
    assert mv == [mv[0], mv[1]] + [mv[2]];
    AtLast(p, u, [mv[0], mv[1]], mv[2]);
    AtTwo(p, u, mv[0], mv[1]);
    AtTwo(p, u + 3 + |q.code|, tail[0], tail[1]);
  }

  /** Only && and || use their destination while they are being evaluated. */
  lemma EvalToPlain(e: Expr, d: Option<nat>, st: Store)
    requires !e.And? && !e.Or?
    ensures EvalTo(e, d, st) == (Eval(e, st), if d.Some? && Eval(e, st).Ok? then st.Set(d.value, Eval(e, st).v) else st)
  {}

  lemma EvalUn(op: UnOp, a: Expr, st: Store)
    ensures Eval(Un(op, a), st) == if Eval(a, st).Err? then Eval(a, st) else ApplyUn(op, Eval(a, st).v)
  {}

  lemma EvalBin(op: BinOp, a1: Expr, a2: Expr, st: Store)
    ensures Eval(Bin(op, a1, a2), st) ==
            if Eval(a1, st).Err? then Eval(a1, st) else if Eval(a2, st).Err? then Eval(a2, st)
            else ApplyBin(op, Eval(a1, st).v, Eval(a2, st).v)
  {}

  // ----- simulation -----

  /** One more round turns "operand ready" into the result of storing r. */
  lemma Finish1(p: Nodes, ls: Labels, k: nat, s: M.State, t: M.State, b: nat, m: nat, d: Option<nat>, r: Result) returns (u: M.State)
    requires M.Run(Code(p, ls), k, s) == M.Running(t) && SameStacks(s, t) && t.store == s.store && Keeps(s, t, b)
    requires b <= m < |p| && DestOf(p, m) == d
    requires M.Step(Code(p, ls), t) == M.StoreResult(t, ResolveDest(m, d), r) && t.pc == m
    ensures Delivers(p, ls, k + 1, s, u, b, m + 1, ONode(m),
                     (r, if d.Some? && r.Ok? then s.store.Set(d.value, r.v) else s.store))
  {
    Step1(p, ls, k, s);
    u := if r.Err? then t else M.Write(t, ResolveDest(m, d), r.v).(pc := m + 1);
  }

  lemma BinStep(p: Nodes, ls: Labels, m: nat, op: BinOp, a: Opd, b: Opd, d: Option<nat>, s: M.State, v: Value, w: Value)
    requires m < |p| && p[m] == NBin(op, a, b, d) && s.pc == m
    requires M.Read(s, Resolve(p, a)) == Some(v) && M.Read(s, Resolve(p, b)) == Some(w)
    ensures M.Step(Code(p, ls), s) == M.StoreResult(s, ResolveDest(m, d), ApplyBin(op, v, w))
  {}

  /** A conditional branch to the label at position q. */
  lemma BranchStep(p: Nodes, ls: Labels, m: nat, a: Opd, n: nat, q: nat, s: M.State, v: Value)
    requires LabelsOf(p, ls) && q < |p| && p[q] == NLabel(n) && m < |p| && s.pc == m
    requires p[m] == NBF(a, n) || p[m] == NBT(a, n)
    requires M.Read(s, Resolve(p, a)) == Some(v)
    ensures M.Step(Code(p, ls), s) == M.Running(s.(pc := if ToBool(v) == p[m].NBT? then q else m + 1))
    ensures M.Work(Code(p, ls), 1, s) == 1
  {}

  lemma UnStep(p: Nodes, ls: Labels, m: nat, op: UnOp, a: Opd, d: Option<nat>, s: M.State, v: Value)
    requires m < |p| && p[m] == NUn(op, a, d) && s.pc == m && M.Read(s, Resolve(p, a)) == Some(v)
    ensures M.Step(Code(p, ls), s) == M.StoreResult(s, ResolveDest(m, d), ApplyUn(op, v)) && DestOf(p, m) == d
  {
    hide ApplyUn;
  }

  lemma {:induction false} UnCode(p: Nodes, ls: Labels, op: UnOp, a: Expr, b: nat, n: nat, d: Option<nat>, s: M.State) returns (k: nat, t: M.State)
    requires LabelsOf(p, ls) && At(p, b, GenExpr(Un(op, a), b, n, d).code) && s.pc == b
    ensures var g := GenExpr(Un(op, a), b, n, d);
            Delivers(p, ls, k, s, t, b, b + |g.code|, g.res, EvalTo(Un(op, a), d, s.store))
    decreases a, 3
  {
    hide GenExpr, At, Eval, AssignExpr, ApplyUn, M.Step, M.Run, M.Raise;
    EvalToPlain(Un(op, a), d, s.store);
    EvalUn(op, a, s.store);
    var l := GenExpr(a, b, n, None);
    UnUnfold(op, a, b, n, d);
    AtLast(p, b, l.code, NUn(op, l.res, d));
    k, t := ExprCode(p, ls, a, b, n, None, s);
    if Eval(a, s.store).Ok? {
      UnStep(p, ls, b + |l.code|, op, l.res, d, t, Eval(a, s.store).v);
      t := Finish1(p, ls, k, s, t, b, b + |l.code|, d, ApplyUn(op, Eval(a, s.store).v));
      k := k + 1;
    }
  }

  lemma {:induction false} BinCode(p: Nodes, ls: Labels, op: BinOp, a1: Expr, a2: Expr, b: nat, n: nat, d: Option<nat>, s: M.State)
    returns (k: nat, t: M.State)
    requires LabelsOf(p, ls) && At(p, b, GenExpr(Bin(op, a1, a2), b, n, d).code) && s.pc == b
    ensures var g := GenExpr(Bin(op, a1, a2), b, n, d);
            Delivers(p, ls, k, s, t, b, b + |g.code|, g.res, EvalTo(Bin(op, a1, a2), d, s.store))
    decreases Bin(op, a1, a2), 0
  {
    hide GenExpr, At, Eval, AssignExpr, ApplyBin, M.Step, M.Run, M.Raise;
    EvalToPlain(Bin(op, a1, a2), d, s.store);
    EvalBin(op, a1, a2, s.store);
    var c := Code(p, ls);
    var l := GenExpr(a1, b, n, None);
    var r := GenExpr(a2, b + |l.code|, l.next, None);
    BinUnfold(op, a1, a2, b, n, d);
    AtLast(p, b, l.code + r.code, NBin(op, l.res, r.res, d));
    AtSplit(p, b, l.code, r.code);
    k, t := ExprCode(p, ls, a1, b, n, None, s);
    if Eval(a1, s.store).Ok? {
      var k2, t2 := ExprCode(p, ls, a2, b + |l.code|, l.next, None, t);
      M.RunAdd(c, k, k2, s);
      if Eval(a2, s.store).Ok? {
        ResultReadable(p, a1, b, n, t, t2);
        BinStep(p, ls, b + |l.code| + |r.code|, op, l.res, r.res, d, t2, Eval(a1, s.store).v, Eval(a2, s.store).v);
        t := Finish1(p, ls, k + k2, s, t2, b, b + |l.code| + |r.code|, d, ApplyBin(op, Eval(a1, s.store).v, Eval(a2, s.store).v));
        k := k + k2 + 1;
      } else {
        k, t := k + k2, t2;
      }
    }
  }

  /** A MOV into the TEMP node at position b, or into its destination variable. */
  lemma MoveTemp(p: Nodes, ls: Labels, b: nat, d: Option<nat>, m: nat, a: Opd, s: M.State, v: Value) returns (t: M.State)
    requires b < m < |p| && p[b] == NTemp(d) && p[m] == NMov(MNode(b), a) && s.pc == m
    requires M.Read(s, Resolve(p, a)) == Some(v)
    ensures M.Run(Code(p, ls), 1, s) == M.Running(t) && t.pc == m + 1 && SameStacks(s, t) && Keeps(s, t, b)
    ensures t.store == if d.Some? then s.store.Set(d.value, v) else s.store
    ensures M.Read(t, Resolve(p, ONode(b))) == Some(v) && M.Read(t, Resolve(p, a)) == Some(v)
  {
    t := M.Step(Code(p, ls), s).s;
    assert M.Run(Code(p, ls), 1, s) == M.Step(Code(p, ls), s);
  }

  /** Entering a TEMP node, or passing a label. */
  lemma Pass(p: Nodes, ls: Labels, b: nat, s: M.State) returns (t: M.State)
    requires b < |p| && (p[b].NTemp? || p[b].NLabel?) && s.pc == b
    ensures M.Run(Code(p, ls), 1, s) == M.Running(t) && t.pc == b + 1 && SameStacks(s, t) && Keeps(s, t, b) && t.store == s.store
    ensures p[b].NLabel? ==> t.slots == s.slots
  {
    t := M.Step(Code(p, ls), s).s;
    assert M.Run(Code(p, ls), 1, s) == M.Step(Code(p, ls), s);
  }

  /** After the first operand of &&: on to the second operand, or to the end with the first as result. */
  lemma AndMidCode(p: Nodes, ls: Labels, a: Expr, l: Gen, b: nat, n: nat, d: Option<nat>, q: nat, st: Store, s: M.State, v: Value)
    returns (k: nat, t: M.State)
    requires LabelsOf(p, ls) && q < |p| && p[q] == NLabel(n) && b < |p| && p[b] == NTemp(d)
    requires At(p, b + 1 + |l.code|, AndMid(a, l, b, n)) && s.pc == b + 1 + |l.code|
    requires M.Read(s, Resolve(p, l.res)) == Some(v) && Eval(a, st) == Ok(v)
    ensures M.Run(Code(p, ls), k, s) == M.Running(t) && SameStacks(s, t) && Keeps(s, t, b)
    ensures t.pc == if Truth(v) then b + 1 + |l.code| + |AndMid(a, l, b, n)| else q
    ensures t.store == if d.Some? then s.store.Set(d.value, v) else s.store
    ensures M.Read(t, Resolve(p, ONode(b))) == Some(v)
  {
    hide GenExpr, Eval, TestCode, TestOpd, LabelsOf, Resolve, M.Step, M.Run, M.Read, M.Work;
    var m := b + 1 + |l.code|;
    var tc := TestCode(a, l.res);
    var bf := NBF(TestOpd(a, l.res, m + 1), n);
    AtLast(p, m, [NMov(MNode(b), l.res)] + tc, bf);
    AtSplit(p, m, [NMov(MNode(b), l.res)], tc);
    var t1 := MoveTemp(p, ls, b, d, m, l.res, s, v);
    var k2, t2 := TestSim(p, ls, a, st, l.res, m + 1, t1, v);
    M.RunAdd(Code(p, ls), 1, k2, s);
    Step1(p, ls, 1 + k2, s);
    var w := M.Read(t2, Resolve(p, TestOpd(a, l.res, m + 1))).value;
    BranchStep(p, ls, m + 1 + |tc|, TestOpd(a, l.res, m + 1), n, q, t2, w);
    k, t := k2 + 2, t2.(pc := if ToBool(w) then m + 2 + |tc| else q);
    NodeReadable(p, b, m + 1, t1, t);
  }

  lemma OrMidCode(p: Nodes, ls: Labels, l: Gen, b: nat, n: nat, d: Option<nat>, q: nat, s: M.State, v: Value)
    returns (k: nat, t: M.State)
    requires LabelsOf(p, ls) && q < |p| && p[q] == NLabel(n) && b < |p| && p[b] == NTemp(d)
    requires At(p, b + 1 + |l.code|, OrMid(l, b, n)) && s.pc == b + 1 + |l.code|
    requires M.Read(s, Resolve(p, l.res)) == Some(v)
    ensures M.Run(Code(p, ls), k, s) == M.Running(t) && SameStacks(s, t) && Keeps(s, t, b)
    ensures t.pc == if ToBool(v) then q else b + 1 + |l.code| + |OrMid(l, b, n)|
    ensures t.store == if d.Some? then s.store.Set(d.value, v) else s.store
    ensures M.Read(t, Resolve(p, ONode(b))) == Some(v)
  {
    var m := b + 1 + |l.code|;
    AtTwo(p, m, NMov(MNode(b), l.res), NBT(l.res, n));
    var t1 := MoveTemp(p, ls, b, d, m, l.res, s, v);
    Step1(p, ls, 1, s);
    k := 2;
    t := M.Step(Code(p, ls), t1).s;
  }

  /** The second operand of && and || or an arm of ?:, moved to the TEMP. */
  lemma {:induction false} OperandCode(p: Nodes, ls: Labels, a: Expr, b0: nat, b: nat, n: nat, d: Option<nat>, s: M.State) returns (k: nat, t: M.State)
    requires LabelsOf(p, ls) && At(p, b, GenExpr(a, b, n, None).code) && s.pc == b
    requires var g := GenExpr(a, b, n, None); b0 < b && b + |g.code| < |p| && p[b0] == NTemp(d) && p[b + |g.code|] == NMov(MNode(b0), g.res)
    ensures Delivers(p, ls, k, s, t, b0, b + |GenExpr(a, b, n, None).code| + 1, ONode(b0), OperandResult(a, d, s.store))
    decreases a, 3
  {
    hide GenExpr, At, LabelsOf, Resolve, Eval, M.Run, M.Work, M.Step, M.Read, M.Raise;
    k, t := ExprCode(p, ls, a, b, n, None, s);
    if Eval(a, s.store).Ok? {
      var g := GenExpr(a, b, n, None);
      var t' := MoveTemp(p, ls, b0, d, b + |g.code|, g.res, t, Eval(a, s.store).v);
      M.RunAdd(Code(p, ls), k, 1, s);
      k, t := k + 1, t';
    }
  }

  function SetIf(st: Store, d: Option<nat>, v: Value): Store {
    if d.Some? then st.Set(d.value, v) else st
  }

  predicate TakesSecond(e: Expr, v: Value) {
    if e.And? then Truth(v) else !ToBool(v)
  }

  /** && and || in terms of their operands: the second one is evaluated with the first in d. */
  function LogicalResult(e: Expr, d: Option<nat>, st: Store): (Result, Store)
    requires e.And? || e.Or?
  {
    var r := Eval(e.a, st);
    if r.Err? then (r, st)
    else if TakesSecond(e, r.v) then OperandResult(e.b, d, SetIf(st, d, r.v))
    else (r, SetIf(st, d, r.v))
  }

  function OperandResult(e: Expr, d: Option<nat>, st: Store): (Result, Store) {
    var r := Eval(e, st);
    (r, if r.Ok? then SetIf(st, d, r.v) else st)
  }

  lemma EvalToLogical(e: Expr, d: Option<nat>, st: Store)
    requires e.And? || e.Or?
    ensures EvalTo(e, d, st) == LogicalResult(e, d, st)
  {}

  /** One round past the label at position q. */
  lemma EndLabel(p: Nodes, ls: Labels, k: nat, s: M.State, t: M.State, b: nat, q: nat, res: Opd, r: (Result, Store)) returns (u: M.State)
    requires Delivers(p, ls, k, s, t, b, q, res, r) && r.0.Ok? && q < |p| && p[q].NLabel?
    ensures Delivers(p, ls, k + 1, s, u, b, q + 1, res, r)
  {
    u := Pass(p, ls, q, t);
    M.RunAdd(Code(p, ls), k, 1, s);
  }

  /** Rounds that change at most the slots from b on and the store come before a delivery. */
  lemma DeliversAfter(p: Nodes, ls: Labels, j: nat, s: M.State, s': M.State, k: nat, t: M.State, b: nat, end: nat, res: Opd, r: (Result, Store))
    requires M.Run(Code(p, ls), j, s) == M.Running(s') && SameStacks(s, s') && Keeps(s, s', b)
    requires Delivers(p, ls, k, s', t, b, end, res, r)
    ensures Delivers(p, ls, j + k, s, t, b, end, res, r)
  {
    M.RunAdd(Code(p, ls), j, k, s);
  }

  /** The first operand and the test of && or ||. */
  lemma {:induction false} LogicalFirst(p: Nodes, ls: Labels, e: Expr, b: nat, n: nat, d: Option<nat>, mid: Nodes, q: nat, s: M.State)
    returns (k: nat, t: M.State)
    requires (e.And? || e.Or?) && LabelsOf(p, ls) && q < |p| && p[q] == NLabel(n) && b < |p| && p[b] == NTemp(d) && s.pc == b
    requires var l := GenExpr(e.a, b + 1, n + 1, None);
             At(p, b + 1, l.code) && mid == (if e.And? then AndMid(e.a, l, b, n) else OrMid(l, b, n)) && At(p, b + 1 + |l.code|, mid)
    ensures var l := GenExpr(e.a, b + 1, n + 1, None);
            var r := Eval(e.a, s.store);
            && SameStacks(s, t)
            && (r.Err? ==> t.store == s.store && M.Run(Code(p, ls), k, s) == M.Raise(t, r.t))
            && (r.Ok? ==>
                && M.Run(Code(p, ls), k, s) == M.Running(t) && Keeps(s, t, b) && t.store == SetIf(s.store, d, r.v)
                && M.Read(t, Resolve(p, ONode(b))) == Some(r.v)
                && t.pc == if TakesSecond(e, r.v) then b + 1 + |l.code| + |mid| else q)
    decreases e, 0
  {
    hide GenExpr, AndMid, OrMid, Eval, AssignExpr, At, M.Step, M.Run, M.Read, M.Raise;
    var l := GenExpr(e.a, b + 1, n + 1, None);
    var t0 := Pass(p, ls, b, s);
    var k1, t1 := ExprCode(p, ls, e.a, b + 1, n + 1, None, t0);
    M.RunAdd(Code(p, ls), 1, k1, s);
    k, t := 1 + k1, t1;
    if Eval(e.a, s.store).Ok? {
      var v := Eval(e.a, s.store).v;
      var k2, t2;
      if e.And? {
        k2, t2 := AndMidCode(p, ls, e.a, l, b, n, d, q, s.store, t1, v);
      } else {
        k2, t2 := OrMidCode(p, ls, l, b, n, d, q, t1, v);
      }
      M.RunAdd(Code(p, ls), k, k2, s);
      k, t := k + k2, t2;
    }
  }

  lemma {:induction false} LogicalCode(p: Nodes, ls: Labels, e: Expr, b: nat, n: nat, d: Option<nat>, s: M.State)
    returns (k: nat, t: M.State)
    requires e.And? || e.Or?
    requires LabelsOf(p, ls) && At(p, b, GenExpr(e, b, n, d).code) && s.pc == b
    ensures var g := GenExpr(e, b, n, d);
            Delivers(p, ls, k, s, t, b, b + |g.code|, g.res, EvalTo(e, d, s.store))
    decreases e, 1
  {
    hide GenExpr, AndMid, OrMid, Eval, EvalTo, AssignExpr, At, M.Step, M.Run, M.Read, M.Raise;
    var l := GenExpr(e.a, b + 1, n + 1, None);
    var mid := if e.And? then AndMid(e.a, l, b, n) else OrMid(l, b, n);
    var m := b + 1 + |l.code| + |mid|;
    var r := GenExpr(e.b, m, l.next, None);
    var q := m + |r.code| + 1;
    if e.And? { AndUnfold(e.a, e.b, b, n, d); } else { OrUnfold(e.a, e.b, b, n, d); }
    LogicalShape(p, b, n, d, l, mid, r);
    EvalToLogical(e, d, s.store);
    k, t := LogicalFirst(p, ls, e, b, n, d, mid, q, s);
    if Eval(e.a, s.store).Ok? {
      if t.pc == m {
        var k2, t2 := OperandCode(p, ls, e.b, b, m, l.next, d, t);
        DeliversAfter(p, ls, k, s, t, k2, t2, b, q, ONode(b), EvalTo(e, d, s.store));
        k, t := k + k2, t2;
      }
      if EvalTo(e, d, s.store).0.Ok? {
        t := EndLabel(p, ls, k, s, t, b, q, ONode(b), EvalTo(e, d, s.store));
        k := k + 1;
      }
    }
  }

  function CondResult(e: Expr, d: Option<nat>, st: Store): (Result, Store)
    requires e.Cond?
  {
    var r := Eval(e.c, st);
    if r.Err? then (r, st) else OperandResult(if Truth(r.v) then e.a else e.b, d, st)
  }

  lemma EvalToCond(e: Expr, d: Option<nat>, st: Store)
    requires e.Cond?
    ensures EvalTo(e, d, st) == CondResult(e, d, st)
  {}

  /** A condition and its branch: on when it holds, to the label n at position q when it fails. */
  lemma {:induction false} ConditionCode(p: Nodes, ls: Labels, c: Expr, b: nat, n0: nat, n: nat, q: nat, s: M.State) returns (k: nat, t: M.State)
    requires LabelsOf(p, ls) && q < |p| && p[q] == NLabel(n) && s.pc == b
    requires var l := GenExpr(c, b, n0, None); At(p, b, l.code) && At(p, b + |l.code|, TestBranch(c, l.res, b + |l.code|, n))
    ensures var l := GenExpr(c, b, n0, None);
            var r := Eval(c, s.store);
            && SameStacks(s, t) && t.store == s.store
            && (r.Err? ==> M.Run(Code(p, ls), k, s) == M.Raise(t, r.t))
            && (r.Ok? ==>
                && M.Run(Code(p, ls), k, s) == M.Running(t) && Keeps(s, t, b) && M.Work(Code(p, ls), k, s) > 0
                && t.pc == if Truth(r.v) then b + |l.code| + |TestBranch(c, l.res, b + |l.code|, n)| else q)
    decreases c, 3
  {
    hide GenExpr, Eval, AssignExpr, TestCode, TestOpd, At, LabelsOf, Resolve, M.Step, M.Read, M.Raise;
    var l := GenExpr(c, b, n0, None);
    var m := b + |l.code|;
    var tc := TestCode(c, l.res);
    AtLast(p, m, tc, NBF(TestOpd(c, l.res, m), n));
    k, t := ExprCode(p, ls, c, b, n0, None, s);
    if Eval(c, s.store).Ok? {
      var k2, t2 := TestSim(p, ls, c, s.store, l.res, m, t, Eval(c, s.store).v);
      M.RunAdd(Code(p, ls), k, k2, s);
      Step1(p, ls, k + k2, s);
      var w := M.Read(t2, Resolve(p, TestOpd(c, l.res, m))).value;
      BranchStep(p, ls, m + |tc|, TestOpd(c, l.res, m), n, q, t2, w);
      k, t := k + k2 + 1, t2.(pc := if ToBool(w) then m + |tc| + 1 else q);
    }
  }

  lemma Goto(p: Nodes, ls: Labels, m: nat, n: nat, q: nat, s: M.State) returns (t: M.State)
    requires LabelsOf(p, ls) && q < |p| && p[q] == NLabel(n) && m < |p| && s.pc == m && p[m] == NB(n)
    ensures M.Run(Code(p, ls), 1, s) == M.Running(t) && t == s.(pc := q) && M.Work(Code(p, ls), 1, s) == 1
  {
    t := M.Step(Code(p, ls), s).s;
    assert M.Run(Code(p, ls), 1, s) == M.Step(Code(p, ls), s);
  }

  lemma {:induction false} CondCode(p: Nodes, ls: Labels, e: Expr, b: nat, n: nat, d: Option<nat>, s: M.State)
    returns (k: nat, t: M.State)
    requires e.Cond?
    requires LabelsOf(p, ls) && At(p, b, GenExpr(e, b, n, d).code) && s.pc == b
    ensures var g := GenExpr(e, b, n, d);
            Delivers(p, ls, k, s, t, b, b + |g.code|, g.res, EvalTo(e, d, s.store))
    decreases e, 1
  {
    hide GenExpr, TestBranch, Eval, EvalTo, AssignExpr, At, LabelsOf, Resolve, M.Step, M.Run, M.Read, M.Raise, M.Work;
    var l := GenExpr(e.c, b + 1, n, None);
    var mid := TestBranch(e.c, l.res, b + 1 + |l.code|, l.next);
    var m := b + 1 + |l.code| + |mid|;
    var r := GenExpr(e.a, m, l.next + 2, None);
    var u := m + |r.code|;
    var q := GenExpr(e.b, u + 3, r.next, None);
    var w := u + 3 + |q.code|;
    CondUnfold(e.c, e.a, e.b, b, n, d);
    CondShape(p, b, d, l, mid, r, q);
    EvalToCond(e, d, s.store);
    var t0 := Pass(p, ls, b, s);
    var k1, t1 := ConditionCode(p, ls, e.c, b + 1, n, l.next, u + 2, t0);
    M.RunAdd(Code(p, ls), 1, k1, s);
    k, t := 1 + k1, t1;
    if Eval(e.c, s.store).Ok? {
      if Truth(Eval(e.c, s.store).v) {
        var k2, t2 := OperandCode(p, ls, e.a, b, m, l.next + 2, d, t1);
        DeliversAfter(p, ls, k, s, t1, k2, t2, b, u + 1, ONode(b), EvalTo(e, d, s.store));
        k, t := k + k2, t2;
        if EvalTo(e, d, s.store).0.Ok? {
          t := TakeBranch(p, ls, k, s, t, b, u + 1, l.next + 1, w + 1, ONode(b), EvalTo(e, d, s.store));
          k := k + 1;
        }
      } else {
        var t3 := Pass(p, ls, u + 2, t1);
        M.RunAdd(Code(p, ls), k, 1, s);
        var k2, t2 := OperandCode(p, ls, e.b, b, u + 3, r.next, d, t3);
        DeliversAfter(p, ls, k + 1, s, t3, k2, t2, b, w + 1, ONode(b), EvalTo(e, d, s.store));
        k, t := k + 1 + k2, t2;
      }
      if EvalTo(e, d, s.store).0.Ok? {
        t := EndLabel(p, ls, k, s, t, b, w + 1, ONode(b), EvalTo(e, d, s.store));
        k := k + 1;
      }
    }
  }

  lemma TakeBranch(p: Nodes, ls: Labels, k: nat, s: M.State, t: M.State, b: nat, m: nat, n: nat, q: nat, res: Opd, r: (Result, Store))
    returns (u: M.State)
    requires Delivers(p, ls, k, s, t, b, m, res, r) && r.0.Ok?
    requires LabelsOf(p, ls) && q < |p| && p[q] == NLabel(n) && m < |p| && p[m] == NB(n)
    ensures Delivers(p, ls, k + 1, s, u, b, q, res, r)
  {
    u := Goto(p, ls, m, n, q, t);
    M.RunAdd(Code(p, ls), k, 1, s);
  }

  /** The code for e at position b, started there, delivers the value of e. */
  lemma {:induction false} ExprCode(p: Nodes, ls: Labels, e: Expr, b: nat, n: nat, d: Option<nat>, s: M.State) returns (k: nat, t: M.State)
    requires LabelsOf(p, ls) && At(p, b, GenExpr(e, b, n, d).code) && s.pc == b
    requires d.Some? ==> !IsLeaf(e)
    ensures Delivers(p, ls, k, s, t, b, b + |GenExpr(e, b, n, d).code|, GenExpr(e, b, n, d).res, EvalTo(e, d, s.store))
    decreases e, 2
  {
    match e
    case Const(v) => k, t := 0, s;
    case Var(x) => k, t := 0, s;
    case Un(op, a) => k, t := UnCode(p, ls, op, a, b, n, d, s);
    case Bin(op, a1, a2) => k, t := BinCode(p, ls, op, a1, a2, b, n, d, s);
    case And(a1, a2) => k, t := LogicalCode(p, ls, e, b, n, d, s);
    case Or(a1, a2) => k, t := LogicalCode(p, ls, e, b, n, d, s);
    case Cond(c, a1, a2) => k, t := CondCode(p, ls, e, b, n, d, s);
  }
}

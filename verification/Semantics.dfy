/** Where the compiled meaning of a program is the one its text suggests, and where it is not. */
module Semantics {
  import opened Values
  import opened Source
  import StmtSim

  // ----- x = a && b, x = a || b -----

  predicate Reads(e: Expr, x: nat) {
    match e
    case Const(_) => false
    case Var(y) => y == x
    case Un(_, a) => Reads(a, x)
    case Bin(_, a, b) => Reads(a, x) || Reads(b, x)
    case And(a, b) => Reads(a, x) || Reads(b, x)
    case Or(a, b) => Reads(a, x) || Reads(b, x)
    case Cond(c, a, b) => Reads(c, x) || Reads(a, x) || Reads(b, x)
  }

  /** No operator in e can raise an exception. */
  predicate Quiet(e: Expr) {
    match e
    case Const(_) => true
    case Var(_) => true
    case Un(_, _) => false
    case Bin(op, a, b) => (op.CmpEq? || op.CmpNe?) && Quiet(a) && Quiet(b)
    case And(a, b) => Quiet(a) && Quiet(b)
    case Or(a, b) => Quiet(a) && Quiet(b)
    case Cond(c, a, b) => Quiet(c) && Quiet(a) && Quiet(b)
  }

  lemma {:induction false} ReadsOnly(e: Expr, x: nat, v: Value, st: Store)
    requires !Reads(e, x)
    ensures Eval(e, st.Set(x, v)) == Eval(e, st)
  {
    match e
    case Const(_) =>
    case Var(_) =>
    case Un(_, a) => ReadsOnly(a, x, v, st);
    case Bin(_, a, b) => ReadsOnly(a, x, v, st); ReadsOnly(b, x, v, st);
    case And(a, b) => ReadsOnly(a, x, v, st); ReadsOnly(b, x, v, st);
    case Or(a, b) => ReadsOnly(a, x, v, st); ReadsOnly(b, x, v, st);
    case Cond(c, a, b) => ReadsOnly(c, x, v, st); ReadsOnly(a, x, v, st); ReadsOnly(b, x, v, st);
  }

  lemma {:induction false} QuietOk(e: Expr, st: Store)
    requires Quiet(e)
    ensures Eval(e, st).Ok?
  {
    match e
    case Const(_) =>
    case Var(_) =>
    case Bin(_, a, b) => QuietOk(a, st); QuietOk(b, st);
    case And(a, b) => QuietOk(a, st); QuietOk(b, st);
    case Or(a, b) => QuietOk(a, st); QuietOk(b, st);
    case Cond(c, a, b) => QuietOk(c, st); QuietOk(a, st); QuietOk(b, st);
  }

  /** Whether the second operand of && or || is reached. */
  predicate Reaches(e: Expr, st: Store)
    requires e.And? || e.Or?
  {
    Eval(e.a, st).Ok? && if e.And? then Truth(Eval(e.a, st).v) else !ToBool(Eval(e.a, st).v)
  }

  /** The second operand does not notice that x already holds the value of the first. */
  predicate Unnoticed(e: Expr, x: nat, st: Store)
    requires e.And? || e.Or?
    requires Eval(e.a, st).Ok?
  {
    var early := st.Set(x, Eval(e.a, st).v);
    Eval(e.b, early) == Eval(e.b, st) && (Eval(e.b, st).Ok? || early == st)
  }

  /** Storing through the destination is right exactly when the second operand is not reached or does
      not notice. */
  lemma InPlaceExactly(x: nat, e: Expr, st: Store)
    requires e.And? || e.Or?
    ensures AssignExpr(Actual, x, e, st) == AssignExpr(Intended, x, e, st) <==> (!Reaches(e, st) || Unnoticed(e, x, st))
  {
    if Reaches(e, st) {
      var v := Eval(e.a, st).v;
      var early := st.Set(x, v);
      assert early.Get(x) == v;
      match (Eval(e.b, early), Eval(e.b, st))
      case (Ok(w'), Ok(w)) =>
        assert early.Set(x, w') == st.Set(x, w');
        assert st.Set(x, w').Get(x) == w' && st.Set(x, w).Get(x) == w;
      case _ =>
    }
  }

  /** x = y && x with x = 2 and y = 5 gives 5 instead of 2. */
  lemma ReadsItsDestination()
    ensures var st := Store(map[0 := Num(KInt, 2), 1 := Num(KInt, 5)], map[]);
            var s := Do(Assign(0, Plain(And(Var(1), Var(0)))));
            && Exec(Intended, 0, s, st).store.Get(0) == Num(KInt, 2)
            && Exec(Actual, 0, s, st).store.Get(0) == Num(KInt, 5)
  {
    var st := Store(map[0 := Num(KInt, 2), 1 := Num(KInt, 5)], map[]);
    assert Eval(And(Var(1), Var(0)), st) == Ok(Num(KInt, 2));
    var first := SetTo(st, 0, Eval(Var(1), st));
    assert Eval(Var(0), first.store) == Ok(Num(KInt, 5));
  }

  /** Right sides for which both meanings of an assignment agree; inside a try block (guarded) also after
      an exception. */
  predicate HarmlessExpr(x: nat, e: Expr, guarded: bool) {
    e.And? || e.Or? ==> !Reads(e.b, x) && (guarded ==> Quiet(e.b))
  }

  predicate HarmlessRhs(x: nat, r: Rhs, guarded: bool)
    decreases r
  {
    match r
    case Plain(e) => HarmlessExpr(x, e, guarded)
    case Chain(y, r') => HarmlessRhs(y, r', guarded)
  }

  predicate HarmlessSimple(s: Simple, guarded: bool) {
    s.Assign? ==> HarmlessRhs(s.x, s.r, guarded)
  }

  /** A "continue" in s leaves s. */
  predicate Continues(s: Stmt) {
    match s
    case Continue => true
    case Seq(s1, s2) => Continues(s1) || Continues(s2)
    case If(_, s1) => Continues(s1)
    case IfElse(_, s1, s2) => Continues(s1) || Continues(s2)
    case Switch(_, cs) => CasesContinue(cs)
    case Compound(_, body) => Continues(body)
    case TryCatch(body, _, handler) => Continues(body) || Continues(handler)
    case _ => false
  }

  predicate CasesContinue(cs: Cases) {
    match cs
    case NoCases => false
    case Case(_, _, body, rest) => Continues(body) || CasesContinue(rest)
    case Default(body, rest) => Continues(body) || CasesContinue(rest)
  }

  /** Statements for which both meanings agree: right sides as above, no case with ">=", and no
      "continue" that belongs to a do-loop. */
  predicate Harmless(s: Stmt, guarded: bool) {
    match s
    case Do(sm) => HarmlessSimple(sm, guarded)
    case Seq(s1, s2) => Harmless(s1, guarded) && Harmless(s2, guarded)
    case If(_, s1) => Harmless(s1, guarded)
    case IfElse(_, s1, s2) => Harmless(s1, guarded) && Harmless(s2, guarded)
    case While(_, body) => Harmless(body, guarded)
    case DoWhile(body, _) => Harmless(body, guarded) && !Continues(body)
    case For(init, _, incr, body) => HarmlessSimple(init, guarded) && HarmlessSimple(incr, guarded) && Harmless(body, guarded)
    case Switch(_, cs) => HarmlessCases(cs, guarded)
    case Foreach(_, _, _, body) => Harmless(body, guarded)
    case Compound(_, body) => Harmless(body, guarded)
    case TryCatch(body, _, handler) => Harmless(body, true) && Harmless(handler, guarded)
    case _ => true
  }

  predicate HarmlessCases(cs: Cases, guarded: bool) {
    match cs
    case NoCases => true
    case Case(op, _, body, rest) => !op.CaseGe? && Harmless(body, guarded) && HarmlessCases(rest, guarded)
    case Default(body, rest) => Harmless(body, guarded) && HarmlessCases(rest, guarded)
  }

  /** The same exit and store, except that after an unguarded exception the store may differ. */
  predicate Agree(e: Effect, e': Effect, guarded: bool) {
    e.exit == e'.exit && (guarded || !e.exit.Threw? ==> e.store == e'.store)
  }

  lemma {:induction false} SameRhs(x: nat, r: Rhs, st: Store, guarded: bool)
    requires HarmlessRhs(x, r, guarded)
    ensures Agree(AssignRhs(Actual, x, r, st), AssignRhs(Intended, x, r, st), guarded)
    decreases r
  {
    match r
    case Chain(y, r') => SameRhs(y, r', st, guarded);
    case Plain(e) =>
      if (e.And? || e.Or?) && Reaches(e, st) {
        var v := Eval(e.a, st).v;
        ReadsOnly(e.b, x, v, st);
        if guarded { QuietOk(e.b, st); }
        assert st.Set(x, v).Get(x) == v;
        if Eval(e.b, st).Ok? { InPlaceExactly(x, e, st); }
      }
  }

  lemma SameSimple(s: Simple, st: Store, guarded: bool)
    requires HarmlessSimple(s, guarded)
    ensures Agree(ExecSimple(Actual, s, st), ExecSimple(Intended, s, st), guarded)
  {
    if s.Assign? { SameRhs(s.x, s.r, st, guarded); }
  }

  lemma {:induction false} NotContinued(m: Mode, fuel: nat, s: Stmt, st: Store)
    requires !Continues(s)
    ensures !Exec(m, fuel, s, st).exit.Continued?
    decreases fuel, s, 1
  {
    hide Eval, ForValues, FindCase, AssignRhs;
    match s
    case Do(sm) => SimpleExits(m, sm, st);
    case Seq(s1, s2) =>
      NotContinued(m, fuel, s1, st);
      NotContinued(m, fuel, s2, Exec(m, fuel, s1, st).store);
    case If(_, s1) => NotContinued(m, fuel, s1, st);
    case IfElse(_, s1, s2) =>
      NotContinued(m, fuel, s1, st);
      NotContinued(m, fuel, s2, st);
    case While(_, body) =>
      if fuel > 0 { NotContinued(m, fuel - 1, s, Exec(m, fuel, body, st).store); }
    case DoWhile(body, _) =>
      if fuel > 0 { NotContinued(m, fuel - 1, s, Exec(m, fuel, body, st).store); }
    case For(init, cond, incr, body) =>
      SimpleExits(m, init, st);
      ForNotContinued(m, fuel, cond, incr, body, ExecSimple(m, init, st).store);
    case Switch(e, cs) =>
      if Eval(e, st).Ok? {
        var found := FindCase(m, Eval(e, st).v, cs, st).1;
        NoContinueFrom(m, Eval(e, st).v, cs, st);
        CasesNotContinued(m, fuel, if found.Some? then found.value else DefaultOf(cs), st);
      }
    case Foreach(x, e, hi, body) =>
      if Eval(e, st).Ok? && (hi.Some? ==> Eval(hi.value, st).Ok?) {
        var v, w := Eval(e, st).v, if hi.None? then None else Some(Eval(hi.value, st).v);
        if v.Num? && (hi.Some? ==> w.value.Num?) { EachNotContinued(m, fuel, x, ForValues(v, w), body, st); }
      }
    case Compound(xs, body) => NotContinued(m, fuel, body, ClearAll(xs, st));
    case TryCatch(body, x, handler) =>
      NotContinued(m, fuel, body, st);
      var e := Exec(m, fuel, body, st);
      if e.exit.Threw? {
        NotContinued(m, fuel, handler, Store(e.store.vars, e.store.caught[x := e.exit.t]));
      }
    case _ =>
  }

  lemma {:induction false} RhsExits(m: Mode, x: nat, r: Rhs, st: Store)
    ensures var e := AssignRhs(m, x, r, st); e.exit.Normal? || e.exit.Threw?
    decreases r
  {
    if r.Chain? { RhsExits(m, r.x, r.r, st); }
  }

  lemma SimpleExits(m: Mode, s: Simple, st: Store)
    ensures var e := ExecSimple(m, s, st); e.exit.Normal? || e.exit.Threw?
  {
    if s.Assign? { RhsExits(m, s.x, s.r, st); }
  }

  lemma {:induction false} ForNotContinued(m: Mode, fuel: nat, cond: Option<Expr>, incr: Simple, body: Stmt, st: Store)
    ensures !ExecFor(m, fuel, cond, incr, body, st).exit.Continued?
    decreases fuel
  {
    hide ExecSimple, Exec, Eval;
    var e := ExecSimple(m, incr, Exec(m, fuel, body, st).store);
    SimpleExits(m, incr, Exec(m, fuel, body, st).store);
    if fuel > 0 { ForNotContinued(m, fuel - 1, cond, incr, body, e.store); }
  }

  lemma {:induction false} EachNotContinued(m: Mode, fuel: nat, x: nat, vs: seq<Value>, body: Stmt, st: Store)
    ensures !ExecEach(m, fuel, x, vs, body, st).exit.Continued?
    decreases |vs|
  {
    hide Exec;
    if vs != [] { EachNotContinued(m, fuel, x, vs[1..], body, Exec(m, fuel, body, st.Set(x, vs[0])).store); }
  }

  lemma {:induction false} NoContinueFrom(m: Mode, v: Value, cs: Cases, st: Store)
    requires !CasesContinue(cs)
    ensures FindCase(m, v, cs, st).1.Some? ==> !CasesContinue(FindCase(m, v, cs, st).1.value)
    ensures !CasesContinue(DefaultOf(cs))
  {
    match cs
    case NoCases =>
    case Case(_, _, _, rest) => NoContinueFrom(m, v, rest, st);
    case Default(_, rest) => NoContinueFrom(m, v, rest, st);
  }

  lemma {:induction false} CasesNotContinued(m: Mode, fuel: nat, from: Cases, st: Store)
    requires !CasesContinue(from)
    ensures !ExecCases(m, fuel, from, st).exit.Continued?
    decreases fuel, from, 2
  {
    match from
    case NoCases =>
    case Case(_, _, body, rest) =>
      NotContinued(m, fuel, body, st);
      CasesNotContinued(m, fuel, rest, Exec(m, fuel, body, st).store);
    case Default(body, rest) =>
      NotContinued(m, fuel, body, st);
      CasesNotContinued(m, fuel, rest, Exec(m, fuel, body, st).store);
  }

  /** A harmless program means what its text says. */
  lemma {:induction false} Same(fuel: nat, s: Stmt, st: Store, guarded: bool)
    requires Harmless(s, guarded)
    ensures Agree(Exec(Actual, fuel, s, st), Exec(Intended, fuel, s, st), guarded)
    decreases fuel, s, 1
  {
    match s
    case Do(sm) => SameSimple(sm, st, guarded);
    case Seq(s1, s2) =>
      Same(fuel, s1, st, guarded);
      Same(fuel, s2, Exec(Actual, fuel, s1, st).store, guarded);
    case If(_, s1) => Same(fuel, s1, st, guarded);
    case IfElse(_, s1, s2) =>
      Same(fuel, s1, st, guarded);
      Same(fuel, s2, st, guarded);
    case While(_, body) =>
      Same(fuel, body, st, guarded);
      SameAgain(fuel, s, Exec(Actual, fuel, body, st), Exec(Intended, fuel, body, st), guarded);
    case DoWhile(body, c) =>
      Same(fuel, body, st, guarded);
      NotContinued(Actual, fuel, body, st);
      var e := Exec(Actual, fuel, body, st);
      if fuel > 0 && DoEnds(Actual, c, e).None? { Same(fuel - 1, s, e.store, guarded); }
    case For(init, cond, incr, body) =>
      SameSimple(init, st, guarded);
      SameFor(fuel, cond, incr, body, ExecSimple(Actual, init, st).store, guarded);
    case Switch(e, cs) => SameSwitch(fuel, e, cs, st, guarded);
    case Foreach(x, e, hi, body) =>
      if Eval(e, st).Ok? && (hi.Some? ==> Eval(hi.value, st).Ok?) {
        var v, w := Eval(e, st).v, if hi.None? then None else Some(Eval(hi.value, st).v);
        if v.Num? && (hi.Some? ==> w.value.Num?) { SameEach(fuel, x, ForValues(v, w), body, st, guarded); }
      }
    case Compound(xs, body) => Same(fuel, body, ClearAll(xs, st), guarded);
    case TryCatch(body, x, handler) =>
      Same(fuel, body, st, true);
      var e := Exec(Actual, fuel, body, st);
      if e.exit.Threw? {
        Same(fuel, handler, Store(e.store.vars, e.store.caught[x := e.exit.t]), guarded);
      }
    case _ =>
  }

  lemma {:induction false} SameAgain(fuel: nat, s: Stmt, e: Effect, e': Effect, guarded: bool)
    requires Harmless(s, guarded) && Agree(e, e', guarded)
    ensures Agree(Again(Actual, fuel, s, e), Again(Intended, fuel, s, e'), guarded)
    decreases fuel, s, 0
  {
    if (e.exit.Normal? || e.exit.Continued?) && fuel > 0 {
      Same(fuel - 1, s, e.store, guarded);
    }
  }

  lemma {:induction false} SameFor(fuel: nat, cond: Option<Expr>, incr: Simple, body: Stmt, st: Store, guarded: bool)
    requires Harmless(body, guarded) && HarmlessSimple(incr, guarded)
    ensures Agree(ExecFor(Actual, fuel, cond, incr, body, st), ExecFor(Intended, fuel, cond, incr, body, st), guarded)
    decreases fuel, body, 2
  {
    hide Exec, ExecSimple, Eval, Harmless, HarmlessSimple;
    Same(fuel, body, st, guarded);
    var e := Exec(Actual, fuel, body, st);
    if e.exit.Normal? || e.exit.Continued? {
      SameSimple(incr, e.store, guarded);
      var e' := ExecSimple(Actual, incr, e.store);
      if fuel > 0 && e'.exit.Normal? { SameFor(fuel - 1, cond, incr, body, e'.store, guarded); }
    }
  }

  lemma {:induction false} SameEach(fuel: nat, x: nat, vs: seq<Value>, body: Stmt, st: Store, guarded: bool)
    requires Harmless(body, guarded)
    ensures Agree(ExecEach(Actual, fuel, x, vs, body, st), ExecEach(Intended, fuel, x, vs, body, st), guarded)
    decreases fuel, body, 2 + |vs|
  {
    if vs != [] {
      Same(fuel, body, st.Set(x, vs[0]), guarded);
      var e := Exec(Actual, fuel, body, st.Set(x, vs[0]));
      if e.exit.Normal? || e.exit.Continued? { SameEach(fuel, x, vs[1..], body, e.store, guarded); }
    }
  }

  lemma {:induction false} SameSwitch(fuel: nat, e: Expr, cs: Cases, st: Store, guarded: bool)
    requires HarmlessCases(cs, guarded)
    ensures Agree(Exec(Actual, fuel, Switch(e, cs), st), Exec(Intended, fuel, Switch(e, cs), st), guarded)
    decreases fuel, cs, 5
  {
    if Eval(e, st).Ok? {
      var (r, found) := FindCase(Actual, Eval(e, st).v, cs, st);
      SameCase(Eval(e, st).v, cs, st, guarded);
      if r.Ok? {
        var from := if found.Some? then found.value else DefaultOf(cs);
        HarmlessFrom(Eval(e, st).v, cs, st, guarded);
        SameCases(fuel, from, st, guarded);
      }
    }
  }

  lemma {:induction false} SameCase(v: Value, cs: Cases, st: Store, guarded: bool)
    requires HarmlessCases(cs, guarded)
    ensures FindCase(Actual, v, cs, st) == FindCase(Intended, v, cs, st)
  {
    hide Eval, ApplyBin, Harmless;
    match cs
    case NoCases =>
    case Case(_, _, _, rest) => SameCase(v, rest, st, guarded);
    case Default(_, rest) => SameCase(v, rest, st, guarded);
  }

  lemma {:induction false} HarmlessFrom(v: Value, cs: Cases, st: Store, guarded: bool)
    requires HarmlessCases(cs, guarded)
    ensures FindCase(Actual, v, cs, st).1.Some? ==> HarmlessCases(FindCase(Actual, v, cs, st).1.value, guarded)
    ensures HarmlessCases(DefaultOf(cs), guarded)
  {
    match cs
    case NoCases =>
    case Case(_, _, _, rest) => HarmlessFrom(v, rest, st, guarded);
    case Default(_, rest) => HarmlessFrom(v, rest, st, guarded);
  }

  lemma {:induction false} SameCases(fuel: nat, from: Cases, st: Store, guarded: bool)
    requires HarmlessCases(from, guarded)
    ensures Agree(ExecCases(Actual, fuel, from, st), ExecCases(Intended, fuel, from, st), guarded)
    decreases fuel, from, 2
  {
    match from
    case NoCases =>
    case Case(_, _, body, rest) =>
      Same(fuel, body, st, guarded);
      SameCases(fuel, rest, Exec(Actual, fuel, body, st).store, guarded);
    case Default(body, rest) =>
      Same(fuel, body, st, guarded);
      SameCases(fuel, rest, Exec(Actual, fuel, body, st).store, guarded);
  }

  // ----- case >= -----

  /** The comparison a case performs is the one written, except ">=" between equal numbers. */
  lemma CaseOperators(op: CaseOp, v: Value, w: Value)
    ensures ApplyBin(CaseTest(Actual, op), v, w) == ApplyBin(CaseTest(Intended, op), v, w) <==> !(op.CaseGe? && v.Num? && w.Num? && v.n == w.n)
  {}

  /** A case as it is written, for integers. */
  predicate Matches(op: CaseOp, a: int, b: int) {
    match op
    case CaseEq => a == b
    case CaseNe => a != b
    case CaseLt => a < b
    case CaseLe => a <= b
    case CaseGt => a > b
    case CaseGe => a >= b
  }

  /** What a switch on a number means takes its first clause when the comparison written there holds; what
      is compiled takes it when that comparison holds, with ">" in place of ">=". */
  lemma FirstClause(k: Kind, a: int, l: Kind, b: int, op: CaseOp, e: Expr, body: Stmt, rest: Cases, st: Store)
    requires Eval(e, st) == Ok(Num(l, b))
    ensures var cs := Case(op, e, body, rest);
            && (FindCase(Intended, Num(k, a), cs, st).1 == Some(cs) <==> Matches(op, a, b))
            && (FindCase(Actual, Num(k, a), cs, st).1 == Some(cs) <==> if op.CaseGe? then a > b else Matches(op, a, b))
  {
    hide Eval;
    var cs := Case(op, e, body, rest);
    ClauseIsNotRest(Intended, Num(k, a), cs, st);
    ClauseIsNotRest(Actual, Num(k, a), cs, st);
  }

  lemma ClauseIsNotRest(m: Mode, v: Value, cs: Cases, st: Store)
    requires cs.Case?
    ensures FindCase(m, v, cs.rest, st).1 != Some(cs)
  {
    hide FindCase;
  }

  /** The comparisons of a switch come to a ">=" between equal numbers. */
  predicate MeetsEqual(v: Value, cs: Cases, st: Store) {
    match cs
    case NoCases => false
    case Default(_, rest) => MeetsEqual(v, rest, st)
    case Case(op, e, _, rest) =>
      match Eval(e, st)
      case Err(_) => false
      case Ok(w) =>
        if op.CaseGe? && v.Num? && w.Num? && v.n == w.n then true
        else
          var b := ApplyBin(WrittenOp(op), v, w);
          b.Ok? && !ToBool(b.v) && MeetsEqual(v, rest, st)
  }

  /** A switch chooses the clause its text says if and only if no ">=" meets equal numbers. */
  lemma {:induction false} ChoiceExactly(v: Value, cs: Cases, st: Store)
    ensures FindCase(Actual, v, cs, st) == FindCase(Intended, v, cs, st) <==> !MeetsEqual(v, cs, st)
  {
    hide Eval;
    match cs
    case NoCases =>
    case Default(_, rest) => ChoiceExactly(v, rest, st);
    case Case(op, e, _, rest) =>
      ChoiceExactly(v, rest, st);
      NotItself(v, cs, rest, st);
      if Eval(e, st).Ok? { CaseOperators(op, v, Eval(e, st).v); }
  }

  lemma NotItself(v: Value, cs: Cases, rest: Cases, st: Store)
    requires cs.Case? && rest == cs.rest
    ensures FindCase(Actual, v, rest, st).1 != Some(cs)
  {
    hide FindCase;
  }

  // ----- continue in do -----

  /** A round of a do-loop is followed by what the text says unless it ended with "continue" and the
      condition, which is not looked at, fails or raises an exception. */
  lemma DoRoundExactly(c: Expr, e: Effect)
    ensures DoEnds(Actual, c, e) == DoEnds(Intended, c, e)
       <==> !(e.exit.Continued? && (Eval(c, e.store).Ok? ==> !Truth(Eval(c, e.store).v)))
  {}

  /** do continue while (c) means what its text says exactly when it does not end: c holds. */
  lemma DoContinueExactly(c: Expr, st: Store)
    ensures (forall fuel: nat :: Exec(Actual, fuel, DoWhile(Continue, c), st) == Exec(Intended, fuel, DoWhile(Continue, c), st))
       <==> Eval(c, st).Ok? && Truth(Eval(c, st).v)
  {
    var s := DoWhile(Continue, c);
    if Eval(c, st).Ok? && Truth(Eval(c, st).v) {
      forall fuel: nat ensures Exec(Actual, fuel, s, st) == Exec(Intended, fuel, s, st) {
        DoContinue(Actual, fuel, c, st);
        DoContinue(Intended, fuel, c, st);
      }
    } else {
      DoContinue(Actual, 0, c, st);
      assert Exec(Intended, 0, s, st).exit != Timeout;
    }
  }

  /** do continue while (c) never ends as compiled, whatever c is. */
  lemma {:induction false} DoContinue(m: Mode, fuel: nat, c: Expr, st: Store)
    requires m.Actual? || (Eval(c, st).Ok? && Truth(Eval(c, st).v))
    ensures Exec(m, fuel, DoWhile(Continue, c), st) == Effect(Timeout, st)
    decreases fuel
  {
    if fuel > 0 { DoContinue(m, fuel - 1, c, st); }
  }

  // ----- foreach over a range -----

  function Upward(a: int, n: nat): seq<Value>
    decreases n
  {
    if n == 0 then [] else [Num(KInt, a)] + Upward(a + 1, n - 1)
  }

  function Downward(a: int, n: nat): seq<Value>
    decreases n
  {
    if n == 0 then [] else [Num(KInt, a)] + Downward(a - 1, n - 1)
  }

  /** The integers from a to b, both included, upwards or downwards. */
  function Inclusive(a: int, b: int): seq<Value> {
    if a <= b then Upward(a, b - a + 1) else Downward(a, a - b + 1)
  }

  lemma {:induction false} CountsUp(a: int, n: nat)
    requires StmtSim.In32(a) && a + n <= 0x8000_0000
    ensures Countdown(KInt, a, 1, n) == Upward(a, n)
    decreases n
  {
    if n > 1 {
      CountsUp(a + 1, n - 1);
    }
  }

  lemma {:induction false} CountsDown(a: int, n: nat)
    requires StmtSim.In32(a) && a - n >= -0x8000_0001
    ensures Countdown(KInt, a, -1, n) == Downward(a, n)
    decreases n
  {
    if n > 1 {
      CountsDown(a - 1, n - 1);
    }
  }

  predicate AllIn32(vs: seq<Value>) {
    forall i :: 0 <= i < |vs| ==> vs[i].Num? && StmtSim.In32(vs[i].n)
  }

  lemma {:induction false} CountsIn32(a: int, dir: int, n: nat)
    requires StmtSim.In32(a)
    ensures |Countdown(KInt, a, dir, n)| == n && AllIn32(Countdown(KInt, a, dir, n))
    decreases n
  {
    if n > 0 {
      StmtSim.Wrap32In(a + dir);
      CountsIn32(Wrap32(a + dir), dir, n - 1);
    }
  }

  lemma {:induction false} Ends(a: int, n: nat)
    requires n > 0
    ensures |Upward(a, n)| == n && Upward(a, n)[0] == Num(KInt, a) && Upward(a, n)[n - 1] == Num(KInt, a + n - 1)
    ensures |Downward(a, n)| == n && Downward(a, n)[0] == Num(KInt, a) && Downward(a, n)[n - 1] == Num(KInt, a - n + 1)
    decreases n
  {
    if n > 1 {
      Ends(a + 1, n - 1);
      Ends(a - 1, n - 1);
    }
  }

  /** One past the end of the range is a C++ int.  Otherwise the addition overflows, which C++ leaves
      undefined. */
  predicate EndDefined(a: int, b: int) {
    StmtSim.In32(Wrap32(b) + if Wrap32(a) > Wrap32(b) then -1 else 1)
  }

  /** The ranges that overflow go up to the greatest int or down to the least. */
  lemma EndOverflows(a: int, b: int)
    ensures !EndDefined(a, b) <==> Wrap32(b) == if Wrap32(a) > Wrap32(b) then -0x8000_0000 else 0x7FFF_FFFF
  {
    StmtSim.Wrap32In(b);
  }

  /** Where no addition overflows, foreach x in a .. b goes through the whole range exactly when both
      ends fit into 32 bits. */
  lemma RangeExactly(a: int, b: int)
    ensures EndDefined(a, b) ==>
      (ForValues(Num(KInt, a), Some(Num(KInt, b))) == Inclusive(a, b) <==> StmtSim.In32(a) && StmtSim.In32(b))
  {
    hide ForValues, Inclusive, Wrap32;
    RangeWrapped(a, b);
    StmtSim.Wrap32In(a);
    StmtSim.Wrap32In(b);
  }

  /** When int arithmetic wraps around, the range must also not be all of the 2^32 values, for then
      foreach goes through none. */
  lemma RangeWrapped(a: int, b: int)
    ensures ForValues(Num(KInt, a), Some(Num(KInt, b))) == Inclusive(a, b)
       <==> StmtSim.In32(a) && StmtSim.In32(b) && Abs(a - b) < 0xFFFF_FFFF
  {
    hide ForValues, Inclusive, AllIn32;
    InclusiveEnds(a, b);
    if StmtSim.In32(a) && StmtSim.In32(b) {
      RangeInside(a, b);
    } else {
      RangeOutside(a, b);
    }
  }

  lemma InclusiveEnds(a: int, b: int)
    ensures Inclusive(a, b) != []
    ensures AllIn32(Inclusive(a, b)) ==> StmtSim.In32(a) && StmtSim.In32(b)
  {
    hide Upward, Downward;
    if a <= b { Ends(a, b - a + 1); } else { Ends(a, a - b + 1); }
    var vs := Inclusive(a, b);
    assert vs[0] == Num(KInt, a) && vs[|vs| - 1] == Num(KInt, b);
  }

  lemma RangeInside(a: int, b: int)
    requires StmtSim.In32(a) && StmtSim.In32(b)
    ensures ForValues(Num(KInt, a), Some(Num(KInt, b))) == if Abs(a - b) < 0xFFFF_FFFF then Inclusive(a, b) else []
  {
    hide Upward, Downward, Rounds, Wrap32;
    StmtSim.Wrap32In(a);
    StmtSim.Wrap32In(b);
    RangeLength(a, b);
    if Abs(a - b) < 0xFFFF_FFFF {
      if a <= b { CountsUp(a, b - a + 1); } else { CountsDown(a, a - b + 1); }
    }
  }

  lemma RangeOutside(a: int, b: int)
    ensures AllIn32(ForValues(Num(KInt, a), Some(Num(KInt, b))))
  {
    hide Rounds, Wrap32, Countdown, AllIn32;
    StmtSim.Wrap32In(a);
    var d := if Wrap32(a) > Wrap32(b) then -1 else 1;
    CountsIn32(Wrap32(a), d, Rounds(Wrap32(a), Wrap32(Wrap32(b) + d), d));
  }

  lemma RangeLength(a: int, b: int)
    requires StmtSim.In32(a) && StmtSim.In32(b)
    ensures var d := if a > b then -1 else 1;
            Rounds(a, Wrap32(b + d), d) == if Abs(a - b) < 0xFFFF_FFFF then Abs(a - b) + 1 else 0
  {}
}

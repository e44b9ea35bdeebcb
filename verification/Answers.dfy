/** What compiled code leaves in the store, in integers. */
module Answers {
  import opened Values
  import opened Source
  import opened Arithmetic
  import Compiler
  import opened IntermediateForm
  import M = Machine
  import Semantics

  /** The code of program s, started with store st, comes to the end that is given. */
  ghost predicate ComesTo(c: seq<M.Instruction>, st: Store, regs: map<nat, Value>, exn: Thrown, f: M.Final, st': Store) {
    exists k: nat :: M.Run(c, k, Compiler.Start(st, regs, exn)) == M.Halted(f, st')
  }

  lemma Comes(s: Stmt, c: seq<M.Instruction>, st: Store, regs: map<nat, Value>, exn: Thrown)
    requires Compiler.Accepted(s) && Compiler.Produced(s, c)
    ensures var e := Exec(Actual, 0, s, st);
            !e.exit.Timeout? ==> !e.exit.Broke? && !e.exit.Continued? && ComesTo(c, st, regs, exn, Compiler.FinalOf(e.exit), e.store)
  {
    hide Exec, M.Run, Compiler.Produced;
    Compiler.Preservation(s, c, 0, st, regs, exn);
  }

  /** x := v, everything else as it was. */
  predicate Stored(st: Store, x: nat, v: Value, st': Store) {
    st'.caught == st.caught && st'.vars == st.vars[x := v]
  }

  /** x = y op z for numbers a and b: the compiled code stores their sum, difference, product, quotient,
      remainder or comparison, or ends with the division by zero. */
  lemma BinaryStored(op: BinOp, x: nat, y: nat, z: nat, k: Kind, a: int, l: Kind, b: int, c: seq<M.Instruction>, st: Store, regs: map<nat, Value>, exn: Thrown)
    returns (v: Value, st': Store, q: int, r: int)
    requires Compiler.Produced(Do(Assign(x, Plain(Bin(op, Var(y), Var(z))))), c)
    requires y in st.vars && st.vars[y] == Num(k, a) && z in st.vars && st.vars[z] == Num(l, b)
    ensures (op.Div? || op.Mod?) && b == 0 ==> ComesTo(c, st, regs, exn, M.Uncaught(DivisionByZero), st)
    ensures !((op.Div? || op.Mod?) && b == 0) ==> Stored(st, x, v, st') && ComesTo(c, st, regs, exn, M.Ended, st')
    ensures op.Add? ==> Keeps64(Ok(v), a + b)
    ensures op.Sub? ==> Keeps64(Ok(v), a - b)
    ensures op.Mul? ==> Keeps64(Ok(v), a * b)
    ensures b != 0 ==> a == q * b + r && -(if b < 0 then -b else b) < r < (if b < 0 then -b else b) && (r == 0 || (r < 0 <==> a < 0))
    ensures op.Div? && b != 0 ==> Keeps64(Ok(v), q)
    ensures op.Mod? && b != 0 ==> Keeps64(Ok(v), r)
    ensures op.CmpEq? ==> v == Num(KBool, if a == b then 1 else 0)
    ensures op.CmpNe? ==> v == Num(KBool, if a != b then 1 else 0)
    ensures op.CmpLt? ==> v == Num(KBool, if a < b then 1 else 0)
    ensures op.CmpLe? ==> v == Num(KBool, if a <= b then 1 else 0)
    ensures op.CmpGt? ==> v == Num(KBool, if a > b then 1 else 0)
    ensures op.CmpGe? ==> v == Num(KBool, if a >= b then 1 else 0)
  {
    hide Wrap64, TruncDiv, Compiler.Produced, ComesTo, ApplyBin, Exec;
    var s := Do(Assign(x, Plain(Bin(op, Var(y), Var(z)))));
    Comes(s, c, st, regs, exn);
    AssignedBinary(op, x, y, z, st);
    Arithmetics(k, a, l, b);
    q, r := Division(k, a, l, b);
    Comparisons(k, a, l, b);
    var o := ApplyBin(op, Num(k, a), Num(l, b));
    v := if o.Ok? then o.v else Nothing;
    st' := st.Set(x, v);
  }

  lemma AssignedBinary(op: BinOp, x: nat, y: nat, z: nat, st: Store)
    ensures Exec(Actual, 0, Do(Assign(x, Plain(Bin(op, Var(y), Var(z))))), st) == SetTo(st, x, ApplyBin(op, st.Get(y), st.Get(z)))
  {
    hide ApplyBin;
    var e := Bin(op, Var(y), Var(z));
    assert Eval(Var(y), st) == Ok(st.Get(y)) && Eval(Var(z), st) == Ok(st.Get(z));
    assert Eval(e, st) == ApplyBin(op, st.Get(y), st.Get(z));
    assert AssignRhs(Actual, x, Plain(e), st) == SetTo(st, x, Eval(e, st));
  }

  /** x = -y, x = ~y and x = !y likewise. */
  lemma UnaryStored(op: UnOp, x: nat, y: nat, k: Kind, a: int, c: seq<M.Instruction>, st: Store, regs: map<nat, Value>, exn: Thrown)
    returns (v: Value, st': Store)
    requires Compiler.Produced(Do(Assign(x, Plain(Un(op, Var(y))))), c) && y in st.vars && st.vars[y] == Num(k, a)
    ensures Stored(st, x, v, st') && ComesTo(c, st, regs, exn, M.Ended, st')
    ensures op.UMinus? ==> Keeps64(Ok(v), -a)
    ensures op.Comp? ==> Keeps64(Ok(v), -1 - a)
    ensures op.Not? ==> v == Num(KBool, if a == 0 then 1 else 0)
  {
    hide Keeps64, Wrap64, Compiler.Produced, ComesTo, ApplyUn, Exec;
    Comes(Do(Assign(x, Plain(Un(op, Var(y))))), c, st, regs, exn);
    AssignedUnary(op, x, y, st);
    Arithmetics(k, a, k, a);
    Complement(k, a, 0);
    Comparisons(k, a, k, a);
    v := UnaryValue(op, k, a);
    st' := st.Set(x, v);
  }

  lemma UnaryValue(op: UnOp, k: Kind, a: int) returns (v: Value)
    ensures ApplyUn(op, Num(k, a)) == Ok(v)
  {
    v := ApplyUn(op, Num(k, a)).v;
  }

  lemma AssignedUnary(op: UnOp, x: nat, y: nat, st: Store)
    ensures Exec(Actual, 0, Do(Assign(x, Plain(Un(op, Var(y))))), st) == SetTo(st, x, ApplyUn(op, st.Get(y)))
  {
    hide ApplyUn;
    var e := Un(op, Var(y));
    assert Eval(Var(y), st) == Ok(st.Get(y));
    assert Eval(e, st) == ApplyUn(op, st.Get(y));
    assert AssignRhs(Actual, x, Plain(e), st) == SetTo(st, x, Eval(e, st));
  }

  function Put(x: nat, n: int): Stmt {
    Do(Assign(x, Plain(Const(Num(KInt, n)))))
  }

  lemma PutDoes(x: nat, n: int, st: Store)
    ensures Exec(Actual, 0, Put(x, n), st) == Effect(Normal, st.Set(x, Num(KInt, n)))
  {}

  /** if (y) x = 1 else x = 2: the first branch is taken unless y is the number 0. */
  lemma BranchStored(x: nat, y: nat, c: seq<M.Instruction>, st: Store, regs: map<nat, Value>, exn: Thrown)
    returns (st': Store)
    requires Compiler.Produced(IfElse(Var(y), Put(x, 1), Put(x, 2)), c)
    ensures ComesTo(c, st, regs, exn, M.Ended, st')
    ensures Stored(st, x, Num(KInt, if y in st.vars && st.vars[y].Num? && st.vars[y].n == 0 then 2 else 1), st')
  {
    hide Compiler.Produced, ComesTo, Put, Truth;
    PutAllowed(x, 1);
    PutAllowed(x, 2);
    BranchAllowed(y, Put(x, 1), Put(x, 2));
    Comes(IfElse(Var(y), Put(x, 1), Put(x, 2)), c, st, regs, exn);
    Tests(st.Get(y));
    PutDoes(x, 1, st);
    PutDoes(x, 2, st);
    st' := Exec(Actual, 0, IfElse(Var(y), Put(x, 1), Put(x, 2)), st).store;
  }

  lemma PutAllowed(x: nat, n: int)
    ensures Put(x, n).Do? && Compilable(Put(x, n), false, false, 0, 0, 0) && Compilable(Put(x, n), true, false, 0, 0, 0)
  {}

  /** switch (y) { case op b: x = 1; }: the clause is taken exactly when the comparison compiled for it holds. */
  lemma ClauseStored(op: CaseOp, x: nat, y: nat, k: Kind, a: int, l: Kind, b: int, c: seq<M.Instruction>, st: Store, regs: map<nat, Value>, exn: Thrown)
    returns (st': Store)
    requires Compiler.Produced(Switch(Var(y), Case(op, Const(Num(l, b)), Put(x, 1), NoCases)), c)
    requires y in st.vars && st.vars[y] == Num(k, a)
    ensures ComesTo(c, st, regs, exn, M.Ended, st')
    ensures var holds := match op case CaseEq => a == b case CaseNe => a != b case CaseLt => a < b case CaseLe => a <= b case CaseGt => a > b case CaseGe => a > b;
            if holds then Stored(st, x, Num(KInt, 1), st') else st' == st
  {
    hide Compiler.Produced, ComesTo, Put, FindCase;
    var cs := Case(op, Const(Num(l, b)), Put(x, 1), NoCases);
    PutAllowed(x, 1);
    SwitchAllowed(y, cs);
    Comes(Switch(Var(y), cs), c, st, regs, exn);
    Semantics.FirstClause(k, a, l, b, op, Const(Num(l, b)), Put(x, 1), NoCases, st);
    NoError(op, k, a, l, b, Put(x, 1), st);
    PutDoes(x, 1, st);
    SwitchDoes(y, cs, st);
    st' := Exec(Actual, 0, Switch(Var(y), cs), st).store;
  }

  lemma BranchAllowed(y: nat, s1: Stmt, s2: Stmt)
    requires Compilable(s1, false, false, 0, 0, 0) && Compilable(s2, false, false, 0, 0, 0)
    ensures Compiler.Accepted(IfElse(Var(y), s1, s2))
  {}

  lemma SwitchAllowed(y: nat, cs: Cases)
    requires cs.Case? && Compilable(cs.body, true, false, 0, 0, 0) && cs.rest.NoCases?
    ensures Compiler.Accepted(Switch(Var(y), cs))
  {
    assert CompilableCases(NoCases, false, 0, 0, 0) && CompilableCases(cs, false, 0, 0, 0);
    assert OneDefault(cs.rest) && OneDefault(cs);
  }

  lemma SwitchDoes(y: nat, cs: Cases, st: Store)
    requires cs.Case? && cs.rest.NoCases? && FindCase(Actual, st.Get(y), cs, st).0.Ok? && FindCase(Actual, st.Get(y), cs, st).1 in {None, Some(cs)}
    requires Exec(Actual, 0, cs.body, st).exit.Normal?
    ensures Exec(Actual, 0, Switch(Var(y), cs), st) ==
            if FindCase(Actual, st.Get(y), cs, st).1 == Some(cs) then Exec(Actual, 0, cs.body, st) else Effect(Normal, st)
  {
    hide FindCase;
    var e := Exec(Actual, 0, cs.body, st);
    assert ExecCases(Actual, 0, NoCases, e.store) == Effect(Normal, e.store);
    assert DefaultOf(cs) == NoCases;
  }

  lemma NoError(op: CaseOp, k: Kind, a: int, l: Kind, b: int, body: Stmt, st: Store)
    ensures var cs := Case(op, Const(Num(l, b)), body, NoCases);
            FindCase(Actual, Num(k, a), cs, st).0.Ok? && (FindCase(Actual, Num(k, a), cs, st).1 in {None, Some(cs)})
  {}
}

/** The whole compiler: tree to node list, registers, emission.  The emitted code does what the
    program says. */
module Compiler {
  import opened Values
  import opened Source
  import opened IntermediateForm
  import opened NodeMachine
  import opened Emission
  import opened RegAlloc
  import M = Machine
  import NodeForm
  import Jumps
  import StmtSim
  import Lockstep
  import Semantics
  import Emitter
  import Generator
  import InterpreterLoop
  import Calls

  predicate Accepted(s: Stmt) {
    Compilable(s, false, false, 0, 0, 0)
  }

  // ----- the node list of a program -----

  function Table(p: Nodes, i: nat): Labels
    requires i <= |p|
    decreases i
  {
    if i == 0 then map[] else if p[i - 1].NLabel? then Table(p, i - 1)[p[i - 1].l := i - 1] else Table(p, i - 1)
  }

  lemma {:induction false} TableFinds(p: Nodes, i: nat)
    requires i <= |p| && NodeForm.Distinct(p, 0, |p|)
    ensures forall q :: 0 <= q < i && p[q].NLabel? ==> p[q].l in Table(p, i) && Table(p, i)[p[q].l] == q
    decreases i
  {
    if i > 0 { TableFinds(p, i - 1); }
  }

  lemma {:induction false} AtItself(p: Nodes, b: nat, c: Nodes)
    requires b + |c| <= |p| && p[b..b + |c|] == c
    ensures At(p, b, c)
    decreases |c|
  {
    if c != [] {
      assert p[b + 1..b + |c|] == p[b..b + |c|][1..];
      AtItself(p, b + 1, c[1..]);
    }
  }

  /** Where the parts of the list are. */
  lemma ProgramParts(s: Stmt)
    ensures var p := GenProgram(s);
            var c := GenStmt(s, 0, 0, TOP).code;
            At(p, 0, c) && p[|c|] == NEnd && |p| == |c| + 1
  {
    hide GenStmt;
    AtItself(GenProgram(s), 0, GenStmt(s, 0, 0, TOP).code);
  }

  /** The list that the generator hands on: labels are issued once and operands stand before their
      uses. */
  lemma ProgramFormed(s: Stmt)
    requires Accepted(s)
    ensures var p := GenProgram(s);
            NodeForm.Distinct(p, 0, |p|) && NodeForm.RefsFrom(p, 0, 0, |p|)
  {
    hide GenStmt, Compilable, At, NodeForm.LabelsIn, NodeForm.Range;
    ProgramParts(s);
    NodeForm.FormStmt(GenProgram(s), s, 0, 0, TOP);
  }

  /** Every label that is used is issued, and no jump skips a value that is needed. */
  lemma ProgramJumps(s: Stmt)
    requires Accepted(s)
    ensures var p := GenProgram(s);
            var ls := Table(p, |p|);
            LabelsOf(p, ls) && Jumps.JumpsIn(p, ls, 0, |p|) && Jumps.Closed(p, 0)
  {
    hide GenStmt, GenProgram, Compilable, At, NodeForm.RefsFrom, NodeForm.Distinct, Table;
    var p := GenProgram(s);
    ProgramParts(s);
    ProgramFormed(s);
    TableFinds(p, |p|);
    var q := |GenStmt(s, 0, 0, TOP).code|;
    Jumps.CloseSilent(p, q);
    Jumps.StmtJumps(p, Table(p, |p|), s, 0, 0, TOP);
    Jumps.OneJump(p, Table(p, |p|), q);
  }

  // ----- from emitted nodes to code -----

  lemma LabelOperand(p: Nodes, ls: Labels, reg: map<nat, nat>, j: nat, t: nat)
    requires j < |p| && NodeForm.Distinct(p, 0, |p|) && Jumps.JumpsAt(p, ls, j) && t in LabelOps(p[j])
    ensures Image(p, reg, |p|, j).At(t) == Lookup(Lockstep.Addresses(p, ls), LabelOps(p[j])[t])
  {
    var l := LabelOps(p[j])[t];
    assert Jumps.Known(p, ls, l);
    LabelAddrAt(p, |p|, ls[l], l);
  }

  /** A node without label operands is translated without looking at labels. */
  lemma PlainImage(p: Nodes, ls: Labels, reg: map<nat, nat>, j: nat, addrs: map<nat, int>)
    requires j < |p| && !p[j].NB? && !p[j].NBT? && !p[j].NBF? && !p[j].NTry? && !p[j].NForeach?
    ensures Emitted(Template(p, reg, j), addrs).Patched() == Rename(reg, Translate(p, ls, j))
  {
    hide Resolve, ResolveDest, ResolveMove, RegOperand, RegDest;
  }

  lemma LabelImage(p: Nodes, ls: Labels, reg: map<nat, nat>, j: nat, addrs: map<nat, int>)
    requires j < |p| && (p[j].NB? || p[j].NBT? || p[j].NBF? || p[j].NTry? || p[j].NForeach?)
    requires forall t :: t in LabelOps(p[j]) ==> Emitted(Template(p, reg, j), addrs).At(t) == Lookup(ls, LabelOps(p[j])[t])
    ensures Emitted(Template(p, reg, j), addrs).Patched() == Rename(reg, Translate(p, ls, j))
  {
    hide Resolve, RegOperand, Lookup, Emitted.At;
    var ops := LabelOps(p[j]);
    if p[j].NB? { assert 0 in ops; }
    else if p[j].NTry? { assert 0 in ops && 1 in ops; }
    else if p[j].NForeach? { assert 2 in ops; }
    else { assert 1 in ops; }
  }

  lemma ImageIsTarget(p: Nodes, ls: Labels, reg: map<nat, nat>, j: nat)
    requires j < |p| && NodeForm.Distinct(p, 0, |p|) && Jumps.JumpsAt(p, ls, j)
    ensures Image(p, reg, |p|, j).Patched() == Lockstep.Target(p, ls, reg, j)
  {
    hide Emitted.Patched, Emitted.At, Rename, Translate, LabelOps, Jumps.JumpsAt, NodeForm.Distinct;
    forall t | t in LabelOps(p[j]) ensures Image(p, reg, |p|, j).At(t) == Lookup(Lockstep.Addresses(p, ls), LabelOps(p[j])[t]) {
      LabelOperand(p, ls, reg, j, t);
    }
    if p[j].NB? || p[j].NBT? || p[j].NBF? || p[j].NTry? || p[j].NForeach? {
      LabelImage(p, Lockstep.Addresses(p, ls), reg, j, NodeAddrs(p, |p|, j));
    } else {
      PlainImage(p, Lockstep.Addresses(p, ls), reg, j, NodeAddrs(p, |p|, j));
    }
  }

  lemma AssembledIsCode(p: Nodes, ls: Labels, reg: map<nat, nat>, code: seq<Emitted>)
    requires NodeForm.Distinct(p, 0, |p|) && Jumps.JumpsIn(p, ls, 0, |p|) && CodeFor(p, reg, |p|, code)
    ensures Lockstep.IsCode(p, ls, reg, Assemble(code))
  {
    forall j: nat | j < |p| && Kept(p[j]) ensures Addr(p, j) < |code| && Assemble(code)[Addr(p, j)] == Lockstep.Target(p, ls, reg, j) {
      ImageIsTarget(p, ls, reg, j);
    }
  }

  // ----- correctness -----

  /** How a run of the program ends. */
  function FinalOf(e: Exit): M.Final
    requires !e.Timeout? && !e.Broke? && !e.Continued?
  {
    match e
    case Normal => M.Ended
    case Return(v) => M.Returned(v)
    case Threw(t) => M.Uncaught(t)
  }

  /** The machine at address 0, with whatever is left in its registers. */
  function Start(st: Store, regs: map<nat, Value>, exn: Thrown): M.State {
    M.State(0, regs, st, 0, [], [], exn)
  }

  /** What running code c has to do when the program has effect e with the given fuel. */
  ghost predicate Behaves(c: seq<M.Instruction>, t: M.State, e: Effect, fuel: nat) {
    !e.exit.Broke? && !e.exit.Continued?
    && if e.exit.Timeout? then M.Run(c, fuel, t).Running?
       else exists k: nat :: M.Run(c, k, t) == M.Halted(FinalOf(e.exit), e.store)
  }

  /** The node list run by the machine with one slot for each node. */
  lemma NodesRun(s: Stmt, fuel: nat, st: Store, exn: Thrown) returns (k: nat)
    requires Accepted(s)
    ensures var p := GenProgram(s);
            var c := Code(p, Table(p, |p|));
            var e := Exec(Actual, fuel, s, st);
            && !e.exit.Broke? && !e.exit.Continued?
            && if e.exit.Timeout? then M.Run(c, k, Start(st, map[], exn)).Running? && M.Work(c, k, Start(st, map[], exn)) >= fuel
               else M.Run(c, k, Start(st, map[], exn)) == M.Halted(FinalOf(e.exit), e.store)
  {
    hide GenStmt, GenProgram, Exec, Table, At, M.Run, M.Work, M.Step, Jumps.JumpsIn, Compilable, LabelsOf;
    var p := GenProgram(s);
    var ls := Table(p, |p|);
    var c := Code(p, ls);
    var s0 := Start(st, map[], exn);
    ProgramParts(s);
    ProgramJumps(s);
    var t: M.State;
    k, t := StmtSim.StmtCode(p, ls, TOP, fuel, s, 0, 0, s0);
    if Exec(Actual, fuel, s, st).exit.Normal? {
      AtEnd(p, ls, s0, k, t);
      k := k + 1;
    }
  }

  lemma AtEnd(p: Nodes, ls: Labels, s: M.State, k: nat, t: M.State)
    requires M.Run(Code(p, ls), k, s) == M.Running(t) && t.pc < |p| && p[t.pc] == NEnd && t.tries == []
    ensures M.Run(Code(p, ls), k + 1, s) == M.Halted(M.Ended, t.store)
  {
    M.RunAdd(Code(p, ls), k, 1, s);
    assert M.Run(Code(p, ls), 1, t) == M.Step(Code(p, ls), t);
  }

  /** The code c was produced for program s. */
  ghost predicate Produced(s: Stmt, c: seq<M.Instruction>) {
    var p := GenProgram(s);
    exists reg, nregs: nat :: Allocation(View(p), reg, nregs) && Lockstep.IsCode(p, Table(p, |p|), reg, c)
  }

  lemma ProducedCode(s: Stmt, c: seq<M.Instruction>) returns (reg: map<nat, nat>, nregs: nat)
    requires Accepted(s) && Produced(s, c)
    ensures var p := GenProgram(s);
            Lockstep.Compiled(p, Table(p, |p|), reg, nregs) && Lockstep.IsCode(p, Table(p, |p|), reg, c)
  {
    hide GenProgram, Compilable, Allocation, Lockstep.IsCode, NodeForm.Distinct, NodeForm.RefsFrom, Jumps.JumpsIn, LabelsOf;
    var p := GenProgram(s);
    reg, nregs :| Allocation(View(p), reg, nregs) && Lockstep.IsCode(p, Table(p, |p|), reg, c);
    ProgramFormed(s);
    ProgramJumps(s);
  }

  /** Semantics preservation: for every program, store, register contents and amount of fuel, the
      emitted code halts the way the program ends, with the store of the program, or if the fuel runs
      out executes at least as many instructions without halting. */
  lemma Preservation(s: Stmt, c: seq<M.Instruction>, fuel: nat, st: Store, regs: map<nat, Value>, exn: Thrown)
    requires Accepted(s) && Produced(s, c)
    ensures Behaves(c, Start(st, regs, exn), Exec(Actual, fuel, s, st), fuel)
  {
    hide GenProgram, Exec, Compilable, Lockstep.Compiled, Lockstep.IsCode, M.Run, M.Work, M.Step, Lockstep.Related, Produced;
    var p := GenProgram(s);
    var ls := Table(p, |p|);
    var reg, nregs := ProducedCode(s, c);
    var s0, t0 := Start(st, map[], exn), Start(st, regs, exn);
    StartRelated(p, reg, st, regs, exn);
    var k := NodesRun(s, fuel, st, exn);
    var w := Lockstep.RunSame(p, ls, reg, nregs, c, k, s0, t0);
    if Exec(Actual, fuel, s, st).exit.Timeout? {
      EarlierRunning(c, fuel, w, t0);
    }
  }

  lemma StartRelated(p: Nodes, reg: map<nat, nat>, st: Store, regs: map<nat, Value>, exn: Thrown)
    ensures Lockstep.Related(p, reg, Start(st, map[], exn), Start(st, regs, exn))
  {}

  lemma EarlierRunning(c: seq<M.Instruction>, j: nat, k: nat, t: M.State)
    requires M.Run(c, k, t).Running? && j <= k
    ensures M.Run(c, j, t).Running?
  {
    if !M.Run(c, j, t).Running? { M.RunHalted(c, j, k, t); }
  }

  /** The converse: when the emitted code halts, the program ends in that way with that store; so the
      code runs forever exactly when the program runs out of every amount of fuel. */
  lemma Reflection(s: Stmt, c: seq<M.Instruction>, k: nat, st: Store, regs: map<nat, Value>, exn: Thrown)
    requires Accepted(s) && Produced(s, c) && !M.Run(c, k, Start(st, regs, exn)).Running?
    ensures var e := Exec(Actual, k, s, st);
            && !e.exit.Timeout? && !e.exit.Broke? && !e.exit.Continued?
            && M.Run(c, k, Start(st, regs, exn)) == M.Halted(FinalOf(e.exit), e.store)
  {
    hide Exec, Compilable, M.Run, Produced;
    Preservation(s, c, k, st, regs, exn);
    var e := Exec(Actual, k, s, st);
    var t := Start(st, regs, exn);
    var j: nat :| M.Run(c, j, t) == M.Halted(FinalOf(e.exit), e.store);
    if j <= k { M.RunHalted(c, j, k, t); } else { M.RunHalted(c, k, j, t); }
  }

  /** A harmless program compiles to code with the intended meaning: it ends the same way with the
      same store (any store after an uncaught exception), and runs out of fuel alike. */
  lemma IntendedPreservation(s: Stmt, c: seq<M.Instruction>, fuel: nat, st: Store, regs: map<nat, Value>, exn: Thrown)
    requires Accepted(s) && Produced(s, c) && Semantics.Harmless(s, false)
    ensures var e := Exec(Intended, fuel, s, st);
            && !e.exit.Broke? && !e.exit.Continued?
            && if e.exit.Timeout? then M.Run(c, fuel, Start(st, regs, exn)).Running?
               else exists k: nat, st' :: M.Run(c, k, Start(st, regs, exn)) == M.Halted(FinalOf(e.exit), st') && (e.exit.Threw? || st' == e.store)
  {
    hide Exec, Compilable, M.Run, Produced, Semantics.Harmless;
    Preservation(s, c, fuel, st, regs, exn);
    Semantics.Same(fuel, s, st, false);
  }

  // ----- the compiler -----

  /** One label object for each label number in the set. */
  method NewLabels(ls: set<nat>) returns (labels: map<nat, Emitter.IFLabel>)
    ensures labels.Keys == ls
    ensures forall l :: l in labels ==> fresh(labels[l]) && labels[l].addr == -1 && labels[l].fixups == []
    ensures forall l, l' :: l in labels && l' in labels && l != l' ==> labels[l] != labels[l']
  {
    labels := map[];
    var rest := ls;
    while rest != {}
      invariant labels.Keys == ls - rest && rest <= ls
      invariant forall l :: l in labels ==> fresh(labels[l]) && labels[l].addr == -1 && labels[l].fixups == []
      invariant forall l, l' :: l in labels && l' in labels && l != l' ==> labels[l] != labels[l']
      decreases |rest|
    {
      var l :| l in rest;
      var created := new Emitter.IFLabel();
      assert forall l' :: l' in labels ==> labels[l'] != created;
      labels := labels[l := created];
      rest := rest - {l};
    }
  }

  /** The label numbers that occur in a list. */
  function LabelNumbers(p: Nodes): (r: set<nat>)
    ensures forall i: nat {:trigger p[i]} :: i < |p| ==> (p[i].NLabel? ==> p[i].l in r) && LabelOps(p[i]).Values <= r
    decreases |p|
  {
    if p == [] then {}
    else
      var x := p[|p| - 1];
      LabelNumbers(p[..|p| - 1]) + LabelOps(x).Values + (if x.NLabel? then {x.l} else {})
  }

  /** All three passes. */
  method Compile(s: Stmt) returns (code: seq<M.Instruction>, nregs: nat)
    requires Accepted(s)
    ensures Produced(s, code) && forall a :: 0 <= a < |code| ==> InterpreterLoop.Below(code[a], nregs)
    ensures forall fuel: nat, st, regs, exn :: Behaves(code, Start(st, regs, exn), Exec(Actual, fuel, s, st), fuel)
  {
    hide GenProgram, GenStmt, Compilable, Allocation, CodeFor, NodeForm.Distinct, NodeForm.RefsFrom, Jumps.JumpsIn, Jumps.Closed, LabelsOf, Table, Behaves, Exec;
    var generator := new Generator.CodeGenerator();
    generator.Build(s);
    var last := generator.Issue(NEnd);
    var p := generator.code;
    assert p == GenProgram(s) by { FromTop(s, p); }
    ProgramFormed(s);
    ProgramJumps(s);
    var allocator := new Allocator();
    ViewOrdered(p);
    allocator.AllocateRegisters(View(p));
    nregs := allocator.nregs;
    var labels := NewLabels(LabelNumbers(p));
    var emitter := new Emitter.CodeEmitter(labels, allocator.reg);
    emitter.Emit(p);
    code := Assemble(emitter.codesequence.code);
    AssembledIsCode(p, Table(p, |p|), allocator.reg, emitter.codesequence.code);
    KeepsToRegisters(p, Table(p, |p|), allocator.reg, nregs, code);
    forall fuel: nat, st, regs, exn ensures Behaves(code, Start(st, regs, exn), Exec(Actual, fuel, s, st), fuel) {
      Preservation(s, code, fuel, st, regs, exn);
    }
  }

  lemma FromTop(s: Stmt, p: Nodes)
    requires p == [] + GenStmt(s, 0, 0, TOP).code + [NEnd]
    ensures p == GenProgram(s)
  {}

  lemma ViewOrdered(p: Nodes)
    requires NodeForm.RefsFrom(p, 0, 0, |p|)
    ensures Ordered(View(p))
  {
    forall i, n | 0 <= i < |p| && n in View(p)[i].ops ensures n < i {
      RefsAreUses(p[i], n);
    }
  }

  /** Compile a program and run it in the nested interpreter.  Unless the instructions run out, the
      interpreter comes back the way the program ends, with the store of the program. */
  method CompileAndRun(s: Stmt, st: Store, regs: map<nat, Value>, exn: Thrown, fuel: nat) returns (r: InterpreterLoop.Signal, st': Store)
    requires Accepted(s)
    ensures r.OutOfFuel? || exists k: nat :: k <= fuel && EndsAs(Exec(Actual, k, s, st), r, st')
  {
    hide Exec, M.Run, Compilable, Produced, Behaves, M.Finish, M.Raise;
    var code, nregs := Compile(s);
    var routine := Calls.Routine(seq(|code|, i requires 0 <= i < |code| => Calls.Plain(code[i])), nregs, 0);
    assert [routine] == Calls.Alone(code, nregs);
    var vm := new InterpreterLoop.VirtualMachine([routine], st, regs, exn, fuel);
    ghost var start := vm.Flat([]);
    r := vm.Execute([], []);
    st' := vm.frames[vm.frame];
    if r != InterpreterLoop.OutOfFuel {
      ghost var k := fuel - vm.fuel;
      Came(s, code, nregs, k, st, start.slots, exn, vm.Flat([]), r);
      assert k <= fuel && EndsAs(Exec(Actual, k, s, st), r, st');
    }
  }

  /** What the outermost execute reports is how the program ends. */
  lemma Came(s: Stmt, c: seq<M.Instruction>, nregs: nat, k: nat, st: Store, regs: map<nat, Value>, exn: Thrown, m: M.State, r: InterpreterLoop.Signal)
    requires Accepted(s) && Produced(s, c) && !r.OutOfFuel? && InterpreterLoop.Proper(r) && m.tries == []
    requires Calls.Run(Calls.Alone(c, nregs), k, Calls.World(0, Start(st, regs, exn), [])) == InterpreterLoop.Delivered(0, m, [], [], r)
    ensures EndsAs(Exec(Actual, k, s, st), r, m.store)
  {
    hide Exec, M.Run, Compilable, Produced, InterpreterLoop.Delivered, Calls.Run, Calls.Alone;
    Calls.RunAlone(c, nregs, k, Start(st, regs, exn));
    Outermost(m, r);
    Reflection(s, c, k, st, regs, exn);
  }

  /** Emitted code uses only the registers that were allocated. */
  lemma KeepsToRegisters(p: Nodes, ls: Labels, reg: map<nat, nat>, nregs: nat, c: seq<M.Instruction>)
    requires Allocation(View(p), reg, nregs) && NodeForm.RefsFrom(p, 0, 0, |p|) && Lockstep.IsCode(p, ls, reg, c)
    ensures forall a :: 0 <= a < |c| ==> InterpreterLoop.Below(c[a], nregs)
  {
    hide Lockstep.Target, InterpreterLoop.Below, Allocation, NodeForm.RefsFrom;
    forall a | 0 <= a < |c| ensures InterpreterLoop.Below(c[a], nregs) {
      var j := Origin(p, a);
      NodeKeepsTo(p, ls, reg, nregs, j);
    }
  }

  /** The node from which the instruction at address a was emitted. */
  lemma {:induction false} Origin(p: Nodes, a: nat) returns (j: nat)
    requires a < Addr(p, |p|)
    ensures j < |p| && Kept(p[j]) && Addr(p, j) == a
  {
    j := |p|;
    while Addr(p, j) > a
      invariant j <= |p| && a <= Addr(p, j)
      invariant Addr(p, j) == a ==> j < |p| && Kept(p[j])
      decreases j
    {
      j := j - 1;
    }
  }

  lemma NodeKeepsTo(p: Nodes, ls: Labels, reg: map<nat, nat>, nregs: nat, j: nat)
    requires Allocation(View(p), reg, nregs) && NodeForm.RefsFrom(p, 0, 0, |p|) && j < |p| && Kept(p[j])
    ensures InterpreterLoop.Below(Lockstep.Target(p, ls, reg, j), nregs)
  {
    hide Allocation, NodeForm.RefsFrom, Lockstep.Addresses, View, Resolve, RegOperand, RegDest, ResolveDest, ResolveMove, InterpreterLoop.SlotBelow, InterpreterLoop.DestBelow;
    UsesAreValues(p, j);
    forall o: Opd | o.ONode? ==> NodeForm.IsValue(p, o.n) ensures InterpreterLoop.SlotBelow(RegOperand(reg, Resolve(p, o)), nregs) {
      SlotKeepsTo(p, reg, nregs, o);
    }
    match p[j]
    case NUn(_, _, d) => DestKeepsTo(p, reg, nregs, j);
    case NBin(_, _, _, d) => DestKeepsTo(p, reg, nregs, j);
    case NMov(to, _) =>
      if to.MNode? { DestKeepsTo(p, reg, nregs, to.n); }
      MoveKeepsTo(p, reg, nregs, to);
    case _ =>
  }

  lemma SlotKeepsTo(p: Nodes, reg: map<nat, nat>, nregs: nat, o: Opd)
    requires Allocation(View(p), reg, nregs) && (o.ONode? ==> NodeForm.IsValue(p, o.n))
    ensures InterpreterLoop.SlotBelow(RegOperand(reg, Resolve(p, o)), nregs)
  {
    hide Allocation;
    OperandsBelow(p, reg, nregs);
  }

  lemma DestKeepsTo(p: Nodes, reg: map<nat, nat>, nregs: nat, n: nat)
    requires Allocation(View(p), reg, nregs) && NodeForm.IsValue(p, n)
    ensures InterpreterLoop.DestBelow(RegDest(reg, ResolveDest(n, DestOf(p, n))), nregs)
  {
    hide Allocation;
    OperandsBelow(p, reg, nregs);
  }

  lemma MoveKeepsTo(p: Nodes, reg: map<nat, nat>, nregs: nat, to: MoveTo)
    requires to.MNode? ==> InterpreterLoop.DestBelow(RegDest(reg, ResolveDest(to.n, DestOf(p, to.n))), nregs)
    ensures InterpreterLoop.DestBelow(RegDest(reg, ResolveMove(p, to)), nregs)
  {}

  lemma UsesAreValues(p: Nodes, j: nat)
    requires NodeForm.RefsFrom(p, 0, 0, |p|) && j < |p|
    ensures forall n :: NodeForm.Uses(p[j], n) ==> NodeForm.IsValue(p, n)
  {}

  lemma OperandsBelow(p: Nodes, reg: map<nat, nat>, nregs: nat)
    requires Allocation(View(p), reg, nregs)
    ensures forall n :: NodeForm.IsValue(p, n) && DestOf(p, n).None? ==> Register(reg, n) < nregs
  {}

  predicate EndsAs(e: Effect, r: InterpreterLoop.Signal, st: Store) {
    && !e.exit.Timeout? && !e.exit.Broke? && !e.exit.Continued? && e.store == st
    && r == if e.exit.Threw? then InterpreterLoop.Raised(e.exit.t) else InterpreterLoop.Done(FinalOf(e.exit))
  }

  lemma Outermost(s: M.State, r: InterpreterLoop.Signal)
    requires !r.OutOfFuel? && InterpreterLoop.Proper(r) && s.tries == []
    ensures var o := InterpreterLoop.Delivered(0, s, [], [], r);
            match r
            case Done(f) => o == Calls.Over(f, s.store)
            case Raised(t) => o == Calls.Over(M.Uncaught(t), s.store)
            case _ => o == Calls.Wrong
  {}
}

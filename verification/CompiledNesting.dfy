/** Emitted code nests properly: the plan of the node list, carried over to addresses. */
module CompiledNesting {
  import opened Values
  import opened Source
  import opened IntermediateForm
  import opened NodeMachine
  import opened Emission
  import opened Plans
  import Calls
  import Compiler
  import InterpreterLoop
  import Jumps
  import Lockstep
  import M = Machine
  import N = Nesting

  // ----- the node list of a program -----

  /** The depths of a whole program: its last node is END. */
  function ProgramDepths(s: Stmt): (ds: Depths)
    ensures |ds| == |GenProgram(s)|
  {
    var p := GenProgram(s);
    seq(|p|, i requires 0 <= i < |p| => if i == |p| - 1 then OUTSIDE else DepthAt(Compiler.Table(p, |p|), s, 0, 0, TOP, OUTSIDE, i))
  }

  lemma ProgramKeeps(s: Stmt)
    requires Compiler.Accepted(s)
    ensures var p := GenProgram(s);
            KeepsIn(p, Compiler.Table(p, |p|), ProgramDepths(s), 0, |p|) && On(ProgramDepths(s), 0, OUTSIDE)
  {
    hide GenStmt, DepthAt, Compiler.Table, Compilable, At, LabelsOf, KeepsAt, Jumps.JumpsIn, Jumps.Closed;
    var p, ds := GenProgram(s), ProgramDepths(s);
    var ls := Compiler.Table(p, |p|);
    var c := GenStmt(s, 0, 0, TOP).code;
    Compiler.ProgramParts(s);
    Compiler.ProgramJumps(s);
    forall i: nat | Part(0, i, c) ensures On(ds, i, DepthAt(ls, s, 0, 0, TOP, OUTSIDE, i)) {}
    assert On(ds, |c|, OUTSIDE);
    StmtKeeps(p, ls, ds, s, 0, 0, TOP, OUTSIDE);
    OutsideKeeps(p, ls, ds, |c|);
  }

  // ----- from nodes to addresses -----

  function MapMark(p: Nodes, m: N.Mark): N.Mark {
    N.Mark(Addr(p, m.catchAddr), Addr(p, m.endAddr), m.loops)
  }

  function MapLoop(p: Nodes, l: N.Loop): N.Loop {
    N.Loop(Addr(p, l.endAddr), Addr(p, l.bodyAddr))
  }

  function MapDepth(p: Nodes, d: N.Depth): (r: N.Depth)
    ensures |r.marks| == |d.marks| && forall i :: 0 <= i < |d.marks| ==> r.marks[i] == MapMark(p, d.marks[i])
    ensures |r.loops| == |d.loops| && forall i :: 0 <= i < |d.loops| ==> r.loops[i] == MapLoop(p, d.loops[i])
  {
    N.Depth(seq(|d.marks|, i requires 0 <= i < |d.marks| => MapMark(p, d.marks[i])),
            seq(|d.loops|, i requires 0 <= i < |d.loops| => MapLoop(p, d.loops[i])))
  }

  lemma MapCut(p: Nodes, d: N.Depth, nt: nat, nf: nat)
    requires nt <= |d.marks| && nf <= |d.loops|
    ensures MapDepth(p, N.Depth(d.marks[nt..], d.loops[nf..])) == N.Depth(MapDepth(p, d).marks[nt..], MapDepth(p, d).loops[nf..])
  {
    hide MapMark, MapLoop;
  }

  lemma MapMore(p: Nodes, d: N.Depth, m: N.Mark, l: N.Loop)
    ensures MapDepth(p, N.Depth([m] + d.marks, d.loops)) == N.Depth([MapMark(p, m)] + MapDepth(p, d).marks, MapDepth(p, d).loops)
    ensures MapDepth(p, N.Depth(d.marks, [l] + d.loops)) == N.Depth(MapDepth(p, d).marks, [MapLoop(p, l)] + MapDepth(p, d).loops)
  {
    hide MapMark, MapLoop;
  }

  lemma MapHandler(p: Nodes, d: N.Depth)
    requires N.Ordered(d)
    ensures N.Ordered(MapDepth(p, d))
    ensures d.marks != [] ==> MapDepth(p, N.AtHandler(d)) == N.AtHandler(MapDepth(p, d))
  {
    var r := MapDepth(p, d);
    forall i | 0 <= i < |r.marks| ensures r.marks[i].loops <= |r.loops| {
      assert d.marks[i].loops <= |d.loops|;
    }
    forall i, j | 0 <= i < j < |r.marks| ensures r.marks[j].loops <= r.marks[i].loops {
      assert d.marks[j].loops <= d.marks[i].loops;
    }
    if d.marks != [] { MapCut(p, d, 1, |d.loops| - d.marks[0].loops); }
  }

  /** The instruction at or after node q has the depth of q: what is in between is not emitted and enters
      nothing. */
  lemma {:induction false} NextKept(p: Nodes, ls: Labels, ds: Depths, q: nat) returns (j: nat)
    requires |ds| == |p| && KeepsIn(p, ls, ds, 0, |p|) && q < |p| && Kept(p[|p| - 1])
    ensures q <= j < |p| && Kept(p[j]) && Addr(p, j) == Addr(p, q) && ds[j] == ds[q]
    decreases |p| - q
  {
    if Kept(p[q]) {
      j := q;
    } else {
      SkippedKeeps(p, ls, ds, q);
      j := NextKept(p, ls, ds, q + 1);
    }
  }

  lemma SkippedKeeps(p: Nodes, ls: Labels, ds: Depths, q: nat)
    requires |ds| == |p| && KeepsIn(p, ls, ds, 0, |p|) && q < |p| && !Kept(p[q])
    ensures q + 1 < |p| && ds[q + 1] == ds[q]
  {
    hide N.Ordered, N.AtHandler;
    assert KeepsAt(p, ls, ds, q);
  }

  /** The depths at addresses. */
  ghost predicate Carried(p: Nodes, ds: Depths, es: Depths) {
    |ds| == |p| && |es| == Addr(p, |p|) && forall j: nat {:trigger Addr(p, j)} :: j < |p| ==> Addr(p, j) < |es| && es[Addr(p, j)] == MapDepth(p, ds[j])
  }

  lemma Carry(p: Nodes, ls: Labels, ds: Depths) returns (es: Depths)
    requires |ds| == |p| && KeepsIn(p, ls, ds, 0, |p|) && p != [] && Kept(p[|p| - 1])
    ensures Carried(p, ds, es)
  {
    hide KeepsIn, MapDepth, Addr;
    es := [];
    while |es| < Addr(p, |p|)
      invariant |es| <= Addr(p, |p|)
      invariant forall j: nat {:trigger Addr(p, j)} :: j < |p| && Kept(p[j]) && Addr(p, j) < |es| ==> es[Addr(p, j)] == MapDepth(p, ds[j])
    {
      var o := Compiler.Origin(p, |es|);
      forall j: nat | j < |p| && Kept(p[j]) && Addr(p, j) == |es| ensures j == o {
        OneOrigin(p, j, o);
      }
      es := es + [MapDepth(p, ds[o])];
    }
    forall j: nat | j < |p| ensures Addr(p, j) < |es| && es[Addr(p, j)] == MapDepth(p, ds[j]) {
      var k := NextKept(p, ls, ds, j);
      AddrGrows(p, k, |p|);
    }
  }

  lemma OneOrigin(p: Nodes, i: nat, j: nat)
    requires i < |p| && j < |p| && Kept(p[i]) && Kept(p[j]) && Addr(p, i) == Addr(p, j)
    ensures i == j
  {
    if i < j { AddrGrows(p, i, j); }
    if j < i { AddrGrows(p, j, i); }
  }

  lemma CarriedOn(p: Nodes, ds: Depths, es: Depths, q: nat, d: N.Depth)
    requires Carried(p, ds, es) && On(ds, q, d)
    ensures On(es, Addr(p, q), MapDepth(p, d))
  {}

  lemma AddrNext(p: Nodes, j: nat)
    requires j < |p| && Kept(p[j])
    ensures Addr(p, j + 1) == Addr(p, j) + 1
  {}

  lemma AddressOf(p: Nodes, ls: Labels, l: nat)
    requires l in ls
    ensures Lookup(Lockstep.Addresses(p, ls), l) == Addr(p, Lookup(ls, l))
  {}

  /** Leaving a try block or the program. */
  lemma LeavesCarried(p: Nodes, ds: Depths, es: Depths, d: N.Depth)
    requires Carried(p, ds, es) && N.Leaves([ds], 0, d)
    ensures N.Leaves([es], 0, MapDepth(p, d))
  {
    hide Carried, MapDepth;
    if d.marks != [] {
      var d' := N.Depth(d.marks[1..], d.loops);
      assert d.loops[0..] == d.loops && MapDepth(p, d).loops[0..] == MapDepth(p, d).loops;
      MapCut(p, d, 1, 0);
      assert On(ds, d.marks[0].endAddr, d');
      CarriedOn(p, ds, es, d.marks[0].endAddr, d');
    }
  }

  /** Where control goes from node j, it goes from the instruction emitted for j. */
  ghost predicate Follows(p: Nodes, ls: Labels, reg: map<nat, nat>, ds: Depths, es: Depths, j: nat, d: N.Depth)
    requires j < |p|
  {
    N.Follows([ds], 0, j, d, Translate(p, ls, j)) ==> N.Follows([es], 0, Addr(p, j), MapDepth(p, d), Lockstep.Target(p, ls, reg, j))
  }

  lemma PassFollows(p: Nodes, ls: Labels, reg: map<nat, nat>, ds: Depths, es: Depths, j: nat, d: N.Depth)
    requires Carried(p, ds, es) && j < |p| && Kept(p[j]) && (Passes(p[j]) || p[j].NThrow?)
    ensures Follows(p, ls, reg, ds, es, j, d)
  {
    hide Carried, MapDepth, Addr, Resolve, ResolveDest, ResolveMove, RegOperand, RegDest;
    AddrNext(p, j);
    if On(ds, j + 1, d) { CarriedOn(p, ds, es, j + 1, d); }
  }

  lemma JumpFollows(p: Nodes, ls: Labels, reg: map<nat, nat>, ds: Depths, es: Depths, j: nat, d: N.Depth)
    requires Carried(p, ds, es) && j < |p| && (p[j].NB? || p[j].NBT? || p[j].NBF?) && p[j].l in ls
    ensures Follows(p, ls, reg, ds, es, j, d)
  {
    hide Carried, MapDepth, Addr, Resolve, RegOperand, Lookup, Lockstep.Addresses;
    AddrNext(p, j);
    AddressOf(p, ls, p[j].l);
    if On(ds, j + 1, d) { CarriedOn(p, ds, es, j + 1, d); }
    var t := Lookup(ls, p[j].l);
    if On(ds, t, d) { CarriedOn(p, ds, es, t, d); }
  }

  lemma PopFollows(p: Nodes, ls: Labels, reg: map<nat, nat>, ds: Depths, es: Depths, j: nat, d: N.Depth)
    requires Carried(p, ds, es) && j < |p| && p[j].NPopScope?
    ensures Follows(p, ls, reg, ds, es, j, d)
  {
    hide Carried, MapDepth, Addr;
    AddrNext(p, j);
    var nt, nf := p[j].nt, p[j].nf;
    if 0 <= nt <= |d.marks| && 0 <= nf <= |d.loops| {
      var d' := N.Depth(d.marks[nt..], d.loops[nf..]);
      MapCut(p, d, nt, nf);
      if On(ds, j + 1, d') { CarriedOn(p, ds, es, j + 1, d'); }
    }
  }

  lemma TryFollows(p: Nodes, ls: Labels, reg: map<nat, nat>, ds: Depths, es: Depths, j: nat, d: N.Depth)
    requires Carried(p, ds, es) && j < |p| && p[j].NTry? && p[j].lc in ls && p[j].le in ls
    ensures Follows(p, ls, reg, ds, es, j, d)
  {
    hide Carried, MapDepth, Addr, Lookup, Lockstep.Addresses;
    AddrNext(p, j);
    AddressOf(p, ls, p[j].lc);
    AddressOf(p, ls, p[j].le);
    var m := N.Mark(Lookup(ls, p[j].lc), Lookup(ls, p[j].le), |d.loops|);
    var d' := N.Depth([m] + d.marks, d.loops);
    MapMore(p, d, m, N.Loop(0, 0));
    if On(ds, j + 1, d') { CarriedOn(p, ds, es, j + 1, d'); }
  }

  lemma ForeachFollows(p: Nodes, ls: Labels, reg: map<nat, nat>, ds: Depths, es: Depths, j: nat, d: N.Depth)
    requires Carried(p, ds, es) && j < |p| && p[j].NForeach? && p[j].l in ls
    ensures Follows(p, ls, reg, ds, es, j, d)
  {
    hide Carried, MapDepth, Addr, Resolve, RegOperand, Lookup, Lockstep.Addresses;
    AddrNext(p, j);
    AddressOf(p, ls, p[j].l);
    var t := Lookup(ls, p[j].l);
    var l := N.Loop(t, j + 1);
    var d' := N.Depth(d.marks, [l] + d.loops);
    MapMore(p, d, N.Mark(0, 0, 0), l);
    if On(ds, j + 1, d') { CarriedOn(p, ds, es, j + 1, d'); }
    if On(ds, t, d) { CarriedOn(p, ds, es, t, d); }
  }

  lemma NextFollows(p: Nodes, ls: Labels, reg: map<nat, nat>, ds: Depths, es: Depths, j: nat, d: N.Depth)
    requires Carried(p, ds, es) && j < |p| && p[j].NNext?
    ensures Follows(p, ls, reg, ds, es, j, d)
  {
    hide Carried, Addr;
    if d.loops != [] {
      var l := d.loops[0];
      var d' := N.Depth(d.marks, d.loops[1..]);
      MapCut(p, d, 0, 1);
      assert d.marks[0..] == d.marks && MapDepth(p, d).marks[0..] == MapDepth(p, d).marks;
      if On(ds, l.bodyAddr, d) { CarriedOn(p, ds, es, l.bodyAddr, d); }
      if On(ds, l.endAddr, d') { CarriedOn(p, ds, es, l.endAddr, d'); }
    }
  }

  lemma EndFollows(p: Nodes, ls: Labels, reg: map<nat, nat>, ds: Depths, es: Depths, j: nat, d: N.Depth)
    requires Carried(p, ds, es) && j < |p| && (p[j].NRet? || p[j].NRetVal? || p[j].NEnd?)
    ensures Follows(p, ls, reg, ds, es, j, d)
  {
    hide Carried, MapDepth, Addr, N.Leaves, Resolve, RegOperand;
    if N.Leaves([ds], 0, d) { LeavesCarried(p, ds, es, d); }
  }

  lemma NodeFollows(p: Nodes, ls: Labels, reg: map<nat, nat>, ds: Depths, es: Depths, j: nat, d: N.Depth)
    requires Carried(p, ds, es) && j < |p| && Kept(p[j]) && Jumps.JumpsAt(p, ls, j)
    ensures Follows(p, ls, reg, ds, es, j, d)
  {
    hide Carried, Follows, Jumps.JumpOk, Jumps.Closed;
    match p[j]
    case NB(_) => JumpFollows(p, ls, reg, ds, es, j, d);
    case NBT(_, _) => JumpFollows(p, ls, reg, ds, es, j, d);
    case NBF(_, _) => JumpFollows(p, ls, reg, ds, es, j, d);
    case NPopScope(_, _, _) => PopFollows(p, ls, reg, ds, es, j, d);
    case NTry(_, _) => TryFollows(p, ls, reg, ds, es, j, d);
    case NForeach(_, _, _, _) => ForeachFollows(p, ls, reg, ds, es, j, d);
    case NNext => NextFollows(p, ls, reg, ds, es, j, d);
    case NRet => EndFollows(p, ls, reg, ds, es, j, d);
    case NRetVal(_) => EndFollows(p, ls, reg, ds, es, j, d);
    case NEnd => EndFollows(p, ls, reg, ds, es, j, d);
    case _ => PassFollows(p, ls, reg, ds, es, j, d);
  }

  lemma KeepsCarried(p: Nodes, ls: Labels, reg: map<nat, nat>, ds: Depths, es: Depths, j: nat)
    requires Carried(p, ds, es) && j < |p| && Kept(p[j]) && Jumps.JumpsAt(p, ls, j) && KeepsAt(p, ls, ds, j)
    ensures Addr(p, j) < |es| && N.Keeps([es], 0, Addr(p, j), Calls.Plain(Lockstep.Target(p, ls, reg, j)))
  {
    hide MapDepth, Addr, N.Follows, N.Ordered, N.AtHandler, Translate, Lockstep.Target, Jumps.JumpsAt;
    var d := ds[j];
    NodeFollows(p, ls, reg, ds, es, j, d);
    MapHandler(p, d);
    if d.marks != [] { CarriedOn(p, ds, es, d.marks[0].catchAddr, N.AtHandler(d)); }
  }

  // ----- compiled programs -----

  /** Every program that is compiled has a plan. */
  lemma Nests(s: Stmt, c: seq<M.Instruction>, nregs: nat) returns (plan: N.Plan)
    requires Compiler.Accepted(s) && Compiler.Produced(s, c)
    ensures N.WellNested(plan, Calls.Alone(c, nregs))
  {
    hide GenProgram, Compilable, Compiler.Produced, Compiler.Table, Lockstep.Compiled, Jumps.JumpsAt, Carried, N.Keeps, KeepsAt, ProgramDepths, Addr;
    var p, ds := GenProgram(s), ProgramDepths(s);
    var ls := Compiler.Table(p, |p|);
    var reg, n := Compiler.ProducedCode(s, c);
    Compiler.ProgramJumps(s);
    ProgramKeeps(s);
    LastKept(s);
    var es := Carry(p, ls, ds);
    plan := [es];
    var program := Calls.Alone(c, nregs);
    assert |es| == |c| by { CodeSize(p, ls, reg, ds, es, c); }
    forall a | 0 <= a < |c| ensures N.Keeps(plan, 0, a, program[0].code[a]) {
      var j := Compiler.Origin(p, a);
      KeepsCarried(p, ls, reg, ds, es, j);
    }
    CarriedOn(p, ds, es, 0, OUTSIDE);
    AtStart(p);
  }

  lemma LastKept(s: Stmt)
    ensures var p := GenProgram(s); p != [] && Kept(p[|p| - 1])
  {
    hide GenStmt;
  }

  lemma CodeSize(p: Nodes, ls: Labels, reg: map<nat, nat>, ds: Depths, es: Depths, c: seq<M.Instruction>)
    requires Carried(p, ds, es) && Lockstep.IsCode(p, ls, reg, c)
    ensures |es| == |c|
  {}

  lemma AtStart(p: Nodes)
    ensures Addr(p, 0) == 0 && MapDepth(p, OUTSIDE) == OUTSIDE
  {}

  /** The state m is reached when the code is run from its start. */
  ghost predicate Reached(c: seq<M.Instruction>, m: M.State) {
    exists k: nat, st, regs, exn :: M.Run(c, k, Compiler.Start(st, regs, exn)) == M.Running(m)
  }

  lemma ReachedFits(plan: N.Plan, c: seq<M.Instruction>, nregs: nat, m: M.State)
    requires N.WellNested(plan, Calls.Alone(c, nregs)) && Reached(c, m)
    ensures N.Nested(plan, 0, m, [])
  {
    hide N.WellNested, N.Nested, M.Run, Calls.Run, Calls.Alone;
    var k: nat, st, regs, exn :| M.Run(c, k, Compiler.Start(st, regs, exn)) == M.Running(m);
    var m0 := Compiler.Start(st, regs, exn);
    Calls.RunAlone(c, nregs, k, m0);
    AlonePlan(plan, c, nregs);
    StartNests(plan, m0);
    N.RunFits(plan, Calls.Alone(c, nregs), k, Calls.World(0, m0, []));
  }

  lemma AlonePlan(plan: N.Plan, c: seq<M.Instruction>, nregs: nat)
    requires N.WellNested(plan, Calls.Alone(c, nregs))
    ensures N.At(plan, 0, 0, OUTSIDE)
  {
    N.StartsEmpty(plan, Calls.Alone(c, nregs), 0);
  }

  lemma StartNests(plan: N.Plan, m: M.State)
    requires N.At(plan, 0, 0, OUTSIDE) && m.pc == 0 && m.fors == [] && m.tries == []
    ensures N.Nested(plan, 0, m, [])
  {}

  lemma RecordsThere(plan: N.Plan, m: M.State)
    requires N.Nested(plan, 0, m, [])
    ensures N.Fitting(plan, 0, m) && |m.fors| == |plan[0][m.pc].loops| && |m.tries| == |plan[0][m.pc].marks|
  {}

  /** In compiled code an address says how many foreach loops are running and try blocks pending, however
      it was come to. */
  lemma AddressTells(s: Stmt, c: seq<M.Instruction>, m: M.State, m': M.State)
    requires Compiler.Accepted(s) && Compiler.Produced(s, c) && Reached(c, m) && Reached(c, m') && m.pc == m'.pc
    ensures |m.fors| == |m'.fors| && |m.tries| == |m'.tries|
  {
    hide Compilable, Compiler.Produced, Reached, N.Nested, N.WellNested;
    var plan := Nests(s, c, 0);
    ReachedFits(plan, c, 0, m);
    ReachedFits(plan, c, 0, m');
    RecordsThere(plan, m);
    RecordsThere(plan, m');
  }

  /** At a handler there are as many records and pending try blocks as at its TRY. */
  lemma HandlerRecords(s: Stmt, c: seq<M.Instruction>, m: M.State, m': M.State)
    requires Compiler.Accepted(s) && Compiler.Produced(s, c) && Reached(c, m) && Reached(c, m')
    requires m.pc < |c| && c[m.pc].Try? && m'.pc == c[m.pc].catchAddr
    ensures |m.fors| == |m'.fors| && |m.tries| == |m'.tries|
  {
    hide Compilable, Compiler.Produced, Reached, N.Nested, N.WellNested;
    var plan := Nests(s, c, 0);
    var program := Calls.Alone(c, 0);
    ReachedFits(plan, c, 0, m);
    ReachedFits(plan, c, 0, m');
    RecordsThere(plan, m);
    RecordsThere(plan, m');
    N.HandlerDepth(plan, program, 0, m.pc, c[m.pc].catchAddr, c[m.pc].endAddr);
  }

  /** A try block of compiled code in the interpreter: an exception that comes out of it arrives at the
      handler with everything as at TRY. */
  method Protected(s: Stmt, c: seq<M.Instruction>, nregs: nat, vm: InterpreterLoop.VirtualMachine, catchop: nat, endop: nat, ghost outer: seq<M.TryRecord>)
    returns (o: InterpreterLoop.Next, ghost how: InterpreterLoop.Signal)
    requires Compiler.Accepted(s) && Compiler.Produced(s, c)
    requires vm.Valid() && vm.program == Calls.Alone(c, nregs) && vm.currentCode == 0 && Reached(c, vm.Flat(outer))
    requires vm.pc < |c| && c[vm.pc] == M.Try(catchop, endop)
    modifies vm
    ensures vm.Valid()
    ensures how.Raised? ==>
              && o.Continue? && vm.pc == catchop && vm.exception == how.t
              && vm.currentCode == 0 && vm.frame == old(vm.frame) && vm.staticLink == old(vm.staticLink)
              && vm.regfile == old(vm.regfile) && vm.regs == old(vm.regs) && vm.scopeSP == old(vm.scopeSP)
              && |vm.forStack| == |old(vm.forStack)|
  {
    hide Compilable, Compiler.Produced, Reached, N.Nested, N.WellNested, InterpreterLoop.Fits;
    ghost var plan := Nests(s, c, nregs);
    ReachedFits(plan, c, nregs, vm.Flat(outer));
    o, how := N.Protected(vm, catchop, endop, plan, outer, []);
  }
}

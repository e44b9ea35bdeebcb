/** Finite registers refine unbounded node values: the emitted code runs in lockstep with the node
    list, one instruction for each node that emission keeps. */
module Lockstep {
  import opened Values
  import opened IntermediateForm
  import opened NodeMachine
  import opened Machine
  import opened RegAlloc
  import opened Emission
  import NodeForm
  import Jumps

  /** A node list with its labels and a register allocation, all of whose operands and jumps are in order. */
  ghost predicate Compiled(p: Nodes, ls: Labels, reg: map<nat, nat>, nregs: nat) {
    && Allocation(View(p), reg, nregs) && LabelsOf(p, ls)
    && NodeForm.RefsFrom(p, 0, 0, |p|) && Jumps.JumpsIn(p, ls, 0, |p|)
  }

  /** The label table of the emitted code. */
  function Addresses(p: Nodes, ls: Labels): Labels {
    map l | l in ls :: Addr(p, ls[l])
  }

  function Target(p: Nodes, ls: Labels, reg: map<nat, nat>, j: nat): Machine.Instruction
    requires j < |p|
  {
    Rename(reg, Translate(p, Addresses(p, ls), j))
  }

  /** c is the emitted code. */
  ghost predicate IsCode(p: Nodes, ls: Labels, reg: map<nat, nat>, c: seq<Machine.Instruction>) {
    |c| == Addr(p, |p|) && forall j: nat {:trigger Kept(p[j])} :: j < |p| && Kept(p[j]) ==> Addr(p, j) < |c| && c[Addr(p, j)] == Target(p, ls, reg, j)
  }

  // ----- the relation between the two machines -----

  function MapFor(p: Nodes, r: ForRecord): ForRecord {
    r.(endAddr := Addr(p, r.endAddr), bodyAddr := Addr(p, r.bodyAddr))
  }

  function MapTry(p: Nodes, r: TryRecord): TryRecord {
    r.(catchAddr := Addr(p, r.catchAddr), endAddr := Addr(p, r.endAddr))
  }

  /** A position where no node value is needed. */
  ghost predicate Landing(p: Nodes, q: nat) {
    q <= |p| && Jumps.Closed(p, q)
  }

  ghost predicate ForLands(p: Nodes, r: ForRecord) {
    Landing(p, r.endAddr) && Landing(p, r.bodyAddr)
  }

  ghost predicate TryLands(p: Nodes, r: TryRecord) {
    Landing(p, r.catchAddr) && Landing(p, r.endAddr)
  }

  /** Store, scopes and exception agree; the records agree up to addresses. */
  ghost predicate Stacks(p: Nodes, s: State, t: State) {
    && t.store == s.store && t.scopes == s.scopes && t.exn == s.exn
    && |t.fors| == |s.fors| && (forall i :: 0 <= i < |s.fors| ==> ForLands(p, s.fors[i]) && t.fors[i] == MapFor(p, s.fors[i]))
    && |t.tries| == |s.tries| && (forall i :: 0 <= i < |s.tries| ==> TryLands(p, s.tries[i]) && t.tries[i] == MapTry(p, s.tries[i]))
  }

  /** Every value that is still needed is in its register. */
  ghost predicate Held(p: Nodes, reg: map<nat, nat>, pc: nat, slots: map<nat, Value>, regs: map<nat, Value>) {
    forall n: nat {:trigger Live(View(p), pc, n)} :: Live(View(p), pc, n) && n in slots && n in reg ==> reg[n] in regs && regs[reg[n]] == slots[n]
  }

  ghost predicate Related(p: Nodes, reg: map<nat, nat>, s: State, t: State) {
    s.pc <= |p| && t.pc == Addr(p, s.pc) && Stacks(p, s, t) && Held(p, reg, s.pc, s.slots, t.slots)
  }

  ghost predicate SameOutcome(p: Nodes, reg: map<nat, nat>, o: Outcome, o': Outcome) {
    match o
    case Running(s) => o'.Running? && Related(p, reg, s, o'.s)
    case _ => o' == o
  }

  // ----- values that are needed -----

  lemma LiveUsed(p: Nodes, q: nat, n: nat)
    requires Live(View(p), q, n)
    ensures exists j: nat :: q <= j < |p| && NodeForm.Uses(p[j], n)
  {
    CountPositive(View(p), q, n);
    var j: nat :| q <= j < |p| && n in View(p)[j].ops;
    RefsAreUses(p[j], n);
  }

  lemma UsedLive(p: Nodes, q: nat, j: nat, n: nat)
    requires q <= j < |p| && NodeForm.Uses(p[j], n) && n < q && GetsRegister(View(p)[n])
    ensures Live(View(p), q, n)
  {
    RefsAreUses(p[j], n);
    CountPositive(View(p), q, n);
  }

  lemma LandingHolds(p: Nodes, reg: map<nat, nat>, q: nat, slots: map<nat, Value>, regs: map<nat, Value>)
    requires Landing(p, q)
    ensures Held(p, reg, q, slots, regs)
  {
    forall n: nat | Live(View(p), q, n) ensures false {
      LiveUsed(p, q, n);
    }
  }

  /** Falling through to the next node. */
  lemma StepLive(p: Nodes, pc: nat, n: nat)
    requires Live(View(p), pc + 1, n) && n != pc
    ensures Live(View(p), pc, n)
  {
    LiveUsed(p, pc + 1, n);
    var j: nat :| pc + 1 <= j < |p| && NodeForm.Uses(p[j], n);
    UsedLive(p, pc, j, n);
  }

  lemma JumpHolds(p: Nodes, reg: map<nat, nat>, pc: nat, q: nat, slots: map<nat, Value>, regs: map<nat, Value>)
    requires Held(p, reg, pc, slots, regs) && Jumps.JumpOk(p, pc, q)
    ensures Held(p, reg, q, slots, regs)
  {
    forall n: nat | Live(View(p), q, n) ensures Live(View(p), pc, n) {
      LiveUsed(p, q, n);
      var j: nat :| q <= j < |p| && NodeForm.Uses(p[j], n);
      UsedLive(p, pc, j, n);
    }
  }

  /** A node that writes no register holds what follows. */
  lemma NextHolds(p: Nodes, reg: map<nat, nat>, pc: nat, slots: map<nat, Value>, regs: map<nat, Value>)
    requires Held(p, reg, pc, slots, regs) && NodeForm.RefsFrom(p, 0, 0, |p|) && (!NodeForm.IsValue(p, pc) || !GetsRegister(View(p)[pc]))
    ensures Held(p, reg, pc + 1, slots, regs)
  {
    forall n: nat | Live(View(p), pc + 1, n) && n in slots && n in reg ensures reg[n] in regs && regs[reg[n]] == slots[n] {
      LiveUsed(p, pc + 1, n);
      StepLive(p, pc, n);
    }
  }

  /** Writing the register of node m keeps the values needed after the node at pc; m is that node
      itself, or a TEMP that the node, a MOV, moves to. */
  lemma WriteHolds(p: Nodes, reg: map<nat, nat>, nregs: nat, pc: nat, m: nat, slots: map<nat, Value>, regs: map<nat, Value>, v: Value)
    requires Held(p, reg, pc, slots, regs) && NodeForm.RefsFrom(p, 0, 0, |p|) && Allocation(View(p), reg, nregs) && pc < |p|
    requires m in reg && (m == pc || (!NodeForm.IsValue(p, pc) && NodeForm.Uses(p[pc], m)))
    ensures Held(p, reg, pc + 1, slots[m := v], regs[reg[m] := v])
  {
    hide Allocation, NodeForm.RefsFrom, NodeForm.Uses, NodeForm.IsValue, Live, View;
    forall n: nat | Live(View(p), pc + 1, n) && n in slots[m := v] && n in reg
      ensures reg[n] in regs[reg[m] := v] && regs[reg[m] := v][reg[n]] == slots[m := v][n]
    {
      NotPc(p, pc, m, n);
      if n != m { Elsewhere(p, reg, nregs, pc, m, n); }
    }
  }

  /** What is live after the node at pc is either written there or was live before. */
  lemma NotPc(p: Nodes, pc: nat, m: nat, n: nat)
    requires NodeForm.RefsFrom(p, 0, 0, |p|) && pc < |p| && Live(View(p), pc + 1, n)
    requires m == pc || !NodeForm.IsValue(p, pc)
    ensures n == m || n != pc
  {
    LiveUsed(p, pc + 1, n);
  }

  /** A value that lives on is not in the register that is written. */
  lemma Elsewhere(p: Nodes, reg: map<nat, nat>, nregs: nat, pc: nat, m: nat, n: nat)
    requires Allocation(View(p), reg, nregs) && NodeForm.RefsFrom(p, 0, 0, |p|)
    requires pc < |p| && m in reg && n in reg && n != m && n != pc && Live(View(p), pc + 1, n)
    requires m == pc || NodeForm.Uses(p[pc], m)
    ensures Live(View(p), pc, n) && reg[n] != reg[m]
  {
    StepLive(p, pc, n);
    if m == pc {
      assert WriteOk(View(p), pc, reg);
    } else {
      UsedLive(p, pc, pc, m);
      assert Apart(View(p), pc, reg);
    }
  }

  // ----- the parts of a step -----

  lemma ReadSame(p: Nodes, reg: map<nat, nat>, nregs: nat, o: Opd, s: State, t: State)
    requires Related(p, reg, s, t) && NodeForm.RefsFrom(p, 0, 0, |p|) && Allocation(View(p), reg, nregs)
    requires s.pc < |p| && (o.ONode? ==> NodeForm.Uses(p[s.pc], o.n)) && Read(s, Resolve(p, o)).Some?
    ensures Read(t, RegOperand(reg, Resolve(p, o))) == Read(s, Resolve(p, o))
  {
    if o.ONode? && DestOf(p, o.n).None? {
      assert NodeForm.IsValue(p, o.n) && o.n < s.pc;
      UsedLive(p, s.pc, s.pc, o.n);
    }
  }

  lemma RaiseSame(p: Nodes, reg: map<nat, nat>, s: State, t: State, x: Thrown)
    requires Stacks(p, s, t)
    ensures SameOutcome(p, reg, Raise(s, x), Raise(t, x))
  {
    if s.tries != [] {
      var r := s.tries[0];
      assert TryLands(p, r);
      LandingHolds(p, reg, r.catchAddr, s.slots, t.slots);
    }
  }

  lemma FinishSame(p: Nodes, reg: map<nat, nat>, s: State, t: State, f: Final)
    requires Stacks(p, s, t)
    ensures SameOutcome(p, reg, Finish(s, f), Finish(t, f))
  {
    if s.tries != [] {
      var r := s.tries[0];
      assert TryLands(p, r);
      LandingHolds(p, reg, r.endAddr, s.slots, t.slots);
    }
  }

  /** The next node, when the present one is emitted and writes no register. */
  lemma NextSame(p: Nodes, reg: map<nat, nat>, s: State, t: State, s': State, t': State)
    requires Held(p, reg, s.pc, s.slots, t.slots) && NodeForm.RefsFrom(p, 0, 0, |p|) && s.pc < |p| && Kept(p[s.pc])
    requires !NodeForm.IsValue(p, s.pc) || !GetsRegister(View(p)[s.pc])
    requires t.pc == Addr(p, s.pc) && s'.pc == s.pc + 1 && t'.pc == t.pc + 1 && s'.slots == s.slots && t'.slots == t.slots
    requires Stacks(p, s', t')
    ensures Related(p, reg, s', t')
  {
    NextHolds(p, reg, s.pc, s.slots, t.slots);
  }

  lemma StoreSame(p: Nodes, reg: map<nat, nat>, nregs: nat, d: Dest, r: Result, s: State, t: State)
    requires Related(p, reg, s, t) && NodeForm.RefsFrom(p, 0, 0, |p|) && Allocation(View(p), reg, nregs) && s.pc < |p| && Kept(p[s.pc])
    requires if d.ToSlot? then d.n in reg && (d.n == s.pc || (!NodeForm.IsValue(p, s.pc) && NodeForm.Uses(p[s.pc], d.n)))
             else !NodeForm.IsValue(p, s.pc) || !GetsRegister(View(p)[s.pc])
    ensures SameOutcome(p, reg, StoreResult(s, d, r), StoreResult(t, RegDest(reg, d), r))
  {
    hide Stacks, Held, Allocation, NodeForm.RefsFrom, Raise;
    match r
    case Err(x) => RaiseSame(p, reg, s, t, x);
    case Ok(v) =>
      if d.ToSlot? {
        SlotSame(p, reg, nregs, d.n, v, s, t);
      } else {
        VariableSame(p, reg, d.x, v, s, t);
      }
  }

  lemma SlotSame(p: Nodes, reg: map<nat, nat>, nregs: nat, n: nat, v: Value, s: State, t: State)
    requires Related(p, reg, s, t) && NodeForm.RefsFrom(p, 0, 0, |p|) && Allocation(View(p), reg, nregs) && s.pc < |p| && Kept(p[s.pc])
    requires n in reg && (n == s.pc || (!NodeForm.IsValue(p, s.pc) && NodeForm.Uses(p[s.pc], n)))
    ensures SameOutcome(p, reg, StoreResult(s, ToSlot(n), Ok(v)), StoreResult(t, RegDest(reg, ToSlot(n)), Ok(v)))
  {
    hide Stacks, Held, Allocation, NodeForm.RefsFrom;
    Agree(p, s, t);
    StoreStacks(p, s, t, s.(slots := s.slots[n := v], pc := s.pc + 1), t.(slots := t.slots[reg[n] := v], pc := t.pc + 1));
    WriteHolds(p, reg, nregs, s.pc, n, s.slots, t.slots, v);
  }

  lemma VariableSame(p: Nodes, reg: map<nat, nat>, x: nat, v: Value, s: State, t: State)
    requires Related(p, reg, s, t) && NodeForm.RefsFrom(p, 0, 0, |p|) && s.pc < |p| && Kept(p[s.pc])
    requires !NodeForm.IsValue(p, s.pc) || !GetsRegister(View(p)[s.pc])
    ensures SameOutcome(p, reg, StoreResult(s, ToVariable(x), Ok(v)), StoreResult(t, ToVariable(x), Ok(v)))
  {
    hide Stacks, Held, NodeForm.RefsFrom;
    Agree(p, s, t);
    StoreStacks(p, s, t, s.(store := s.store.Set(x, v), pc := s.pc + 1), t.(store := t.store.Set(x, v), pc := t.pc + 1));
    NextHolds(p, reg, s.pc, s.slots, t.slots);
  }

  lemma Agree(p: Nodes, s: State, t: State)
    requires Stacks(p, s, t)
    ensures t.store == s.store && |t.fors| == |s.fors|
  {}

  lemma StoreStacks(p: Nodes, s: State, t: State, s': State, t': State)
    requires Stacks(p, s, t) && t'.store == s'.store
    requires s'.scopes == s.scopes && s'.exn == s.exn && s'.fors == s.fors && s'.tries == s.tries
    requires t'.scopes == t.scopes && t'.exn == t.exn && t'.fors == t.fors && t'.tries == t.tries
    ensures Stacks(p, s', t')
  {}

  lemma JumpSame(p: Nodes, reg: map<nat, nat>, taken: bool, q: nat, s: State, t: State)
    requires Related(p, reg, s, t) && NodeForm.RefsFrom(p, 0, 0, |p|) && s.pc < |p| && Kept(p[s.pc]) && !NodeForm.IsValue(p, s.pc)
    requires q <= |p| && Jumps.JumpOk(p, s.pc, q)
    ensures SameOutcome(p, reg, Jump(s, taken, q), Jump(t, taken, Addr(p, q)))
  {
    hide Stacks, Held;
    var s', t' := Jump(s, taken, q).s, Jump(t, taken, Addr(p, q)).s;
    Agree(p, s, t);
    StoreStacks(p, s, t, s', t');
    if taken {
      JumpHolds(p, reg, s.pc, q, s.slots, t.slots);
    } else {
      NextHolds(p, reg, s.pc, s.slots, t.slots);
    }
  }

  lemma AdvanceSame(p: Nodes, reg: map<nat, nat>, s: State, t: State)
    requires Stacks(p, s, t) && !Advance(s).Stuck?
    ensures SameOutcome(p, reg, Advance(s), Advance(t))
  {
    hide Jumps.Closed, Held, ControlValue;
    var r := s.fors[0];
    assert ForLands(p, r) && t.fors[0] == MapFor(p, r);
    var q := if r.cur == r.end then r.endAddr else r.bodyAddr;
    LandingHolds(p, reg, q, s.slots, t.slots);
  }

  lemma NewRecordSame(p: Nodes, x: nat, v: Value, hi: Option<Value>, endAddr: nat, bodyAddr: nat)
    requires v.Num? && (hi.Some? ==> hi.value.Num?)
    ensures var r := NewRecord(x, v, hi, endAddr, bodyAddr);
            NewRecord(x, v, hi, Addr(p, endAddr), Addr(p, bodyAddr)) == MapFor(p, r) && r.endAddr == endAddr && r.bodyAddr == bodyAddr
  {}

  lemma PushFor(p: Nodes, s: State, t: State, r: ForRecord)
    requires Stacks(p, s, t) && ForLands(p, r)
    ensures Stacks(p, s.(fors := [r] + s.fors), t.(fors := [MapFor(p, r)] + t.fors))
  {}

  lemma Advances(s: State)
    requires s.fors != []
    ensures !Advance(s).Stuck?
  {}

  lemma StartSame(p: Nodes, reg: map<nat, nat>, s: State, t: State, x: nat, v: Value, hi: Option<Value>, q: nat)
    requires Stacks(p, s, t) && t.pc == Addr(p, s.pc) && s.pc < |p| && Kept(p[s.pc])
    requires Landing(p, q) && Landing(p, s.pc + 1)
    ensures SameOutcome(p, reg, StartForeach(s, x, v, hi, q), StartForeach(t, x, v, hi, Addr(p, q)))
  {
    hide Landing, Stacks, NewFor, NewForRange, NewRecord, MapFor, SameOutcome, Advance, Raise;
    if v.Nothing? || (hi.Some? && hi.value.Nothing?) {
      RaiseSame(p, reg, s, t, IllegalForeach);
    } else {
      var r := NewRecord(x, v, hi, q, s.pc + 1);
      NewRecordSame(p, x, v, hi, q, s.pc + 1);
      assert Addr(p, s.pc + 1) == t.pc + 1;
      assert ForLands(p, r);
      PushFor(p, s, t, r);
      Advances(s.(fors := [r] + s.fors));
      AdvanceSame(p, reg, s.(fors := [r] + s.fors), t.(fors := [MapFor(p, r)] + t.fors));
    }
  }

  lemma PopSame(p: Nodes, reg: map<nat, nat>, s: State, t: State, ns: int, nt: int, nf: int)
    requires Related(p, reg, s, t) && NodeForm.RefsFrom(p, 0, 0, |p|) && s.pc < |p| && Kept(p[s.pc]) && !NodeForm.IsValue(p, s.pc)
    requires !Pop(s, ns, nt, nf).Stuck?
    ensures SameOutcome(p, reg, Pop(s, ns, nt, nf), Pop(t, ns, nt, nf))
  {
    NextSame(p, reg, s, t, Pop(s, ns, nt, nf).s, Pop(t, ns, nt, nf).s);
  }

  lemma PushTry(p: Nodes, s: State, t: State, c: nat, e: nat)
    requires Stacks(p, s, t) && Landing(p, c) && Landing(p, e)
    ensures Stacks(p, Execute(Try(c, e), s).s, Execute(Try(Addr(p, c), Addr(p, e)), t).s)
  {
    hide Landing, Addr, ForLands, TryLands, MapFor, MapTry;
    var r := TryRecord(c, e, s.scopes, |s.fors|);
    TryMapped(p, r);
    var s', t' := Execute(Try(c, e), s).s, Execute(Try(Addr(p, c), Addr(p, e)), t).s;
    assert s'.tries == [r] + s.tries && t'.tries == [MapTry(p, r)] + t.tries;
  }

  lemma TryMapped(p: Nodes, r: TryRecord)
    requires Landing(p, r.catchAddr) && Landing(p, r.endAddr)
    ensures TryLands(p, r) && MapTry(p, r) == TryRecord(Addr(p, r.catchAddr), Addr(p, r.endAddr), r.scopes, r.fors)
  {}

  lemma EnterTrySame(p: Nodes, reg: map<nat, nat>, s: State, t: State, c: nat, e: nat)
    requires Related(p, reg, s, t) && NodeForm.RefsFrom(p, 0, 0, |p|) && s.pc < |p| && p[s.pc].NTry?
    requires Landing(p, c) && Landing(p, e)
    ensures SameOutcome(p, reg, Execute(Try(c, e), s), Execute(Try(Addr(p, c), Addr(p, e)), t))
  {
    hide Landing, Stacks, MapTry, NodeForm.RefsFrom, Held;
    Agree(p, s, t);
    PushTry(p, s, t, c, e);
    NextSame(p, reg, s, t, Execute(Try(c, e), s).s, Execute(Try(Addr(p, c), Addr(p, e)), t).s);
  }

  // ----- one step -----

  /** Position j and what stands there. */
  ghost predicate Ready(p: Nodes, ls: Labels, reg: map<nat, nat>, nregs: nat, s: State, t: State) {
    && Compiled(p, ls, reg, nregs) && Related(p, reg, s, t) && s.pc < |p|
    && !Execute(Translate(p, ls, s.pc), s).Stuck?
  }

  ghost predicate StepOk(p: Nodes, ls: Labels, reg: map<nat, nat>, s: State, t: State)
    requires s.pc < |p|
  {
    SameOutcome(p, reg, Execute(Translate(p, ls, s.pc), s), Execute(Target(p, ls, reg, s.pc), t))
  }

  lemma Registered(p: Nodes, ls: Labels, reg: map<nat, nat>, nregs: nat, n: nat)
    requires Compiled(p, ls, reg, nregs) && NodeForm.IsValue(p, n) && DestOf(p, n).None?
    ensures n in reg
  {}

  lemma OperatorStep(p: Nodes, ls: Labels, reg: map<nat, nat>, nregs: nat, s: State, t: State)
    requires Ready(p, ls, reg, nregs, s, t) && (p[s.pc].NUn? || p[s.pc].NBin?)
    ensures StepOk(p, ls, reg, s, t)
  {
    hide Related, Allocation, NodeForm.RefsFrom, Jumps.JumpsIn, LabelsOf, Raise, ApplyUn, ApplyBin, SameOutcome;
    var x := p[s.pc];
    ReadSame(p, reg, nregs, x.a, s, t);
    if x.dest.None? { Registered(p, ls, reg, nregs, s.pc); }
    if x.NUn? {
      StoreSame(p, reg, nregs, ResolveDest(s.pc, x.dest), ApplyUn(x.uop, Read(s, Resolve(p, x.a)).value), s, t);
    } else {
      ReadSame(p, reg, nregs, x.b, s, t);
      StoreSame(p, reg, nregs, ResolveDest(s.pc, x.dest), ApplyBin(x.bop, Read(s, Resolve(p, x.a)).value, Read(s, Resolve(p, x.b)).value), s, t);
    }
  }

  lemma MoveStep(p: Nodes, ls: Labels, reg: map<nat, nat>, nregs: nat, s: State, t: State)
    requires Ready(p, ls, reg, nregs, s, t) && p[s.pc].NMov?
    ensures StepOk(p, ls, reg, s, t)
  {
    hide Related, Allocation, Jumps.JumpsIn, LabelsOf, Raise, SameOutcome;
    var x := p[s.pc];
    ReadSame(p, reg, nregs, x.a, s, t);
    if x.to.MNode? {
      assert NodeForm.Uses(x, x.to.n) && NodeForm.IsValue(p, x.to.n);
      if DestOf(p, x.to.n).None? { Registered(p, ls, reg, nregs, x.to.n); }
    }
    StoreSame(p, reg, nregs, ResolveMove(p, x.to), Ok(Read(s, Resolve(p, x.a)).value), s, t);
  }

  lemma BranchStep(p: Nodes, ls: Labels, reg: map<nat, nat>, nregs: nat, s: State, t: State)
    requires Ready(p, ls, reg, nregs, s, t) && (p[s.pc].NB? || p[s.pc].NBT? || p[s.pc].NBF?)
    ensures StepOk(p, ls, reg, s, t)
  {
    hide Related, Allocation, NodeForm.RefsFrom, LabelsOf, SameOutcome, Jumps.JumpOk;
    var x := p[s.pc];
    assert Jumps.JumpsAt(p, ls, s.pc);
    if x.NB? {
      JumpSame(p, reg, true, ls[x.l], s, t);
    } else {
      ReadSame(p, reg, nregs, x.a, s, t);
      var v := Read(s, Resolve(p, x.a)).value;
      JumpSame(p, reg, if x.NBT? then ToBool(v) else !ToBool(v), ls[x.l], s, t);
    }
  }

  lemma ForeachStep(p: Nodes, ls: Labels, reg: map<nat, nat>, nregs: nat, s: State, t: State)
    requires Ready(p, ls, reg, nregs, s, t) && p[s.pc].NForeach?
    ensures StepOk(p, ls, reg, s, t)
  {
    hide Allocation, NodeForm.RefsFrom, LabelsOf, SameOutcome, Stacks, Held, StartForeach, Read, Resolve, RegOperand, Raise, Addr, Jumps.JumpOk, Jumps.Closed;
    var x := p[s.pc];
    assert Jumps.JumpsAt(p, ls, s.pc);
    ReadSame(p, reg, nregs, x.a, s, t);
    var v := Read(s, Resolve(p, x.a)).value;
    if x.hi.None? {
      StartSame(p, reg, s, t, x.x, v, None, ls[x.l]);
    } else {
      ReadSame(p, reg, nregs, x.hi.value, s, t);
      StartSame(p, reg, s, t, x.x, v, Some(Read(s, Resolve(p, x.hi.value)).value), ls[x.l]);
    }
  }

  lemma ExitStep(p: Nodes, ls: Labels, reg: map<nat, nat>, nregs: nat, s: State, t: State)
    requires Ready(p, ls, reg, nregs, s, t) && (p[s.pc].NThrow? || p[s.pc].NRet? || p[s.pc].NRetVal? || p[s.pc].NEnd? || p[s.pc].NNext?)
    ensures StepOk(p, ls, reg, s, t)
  {
    hide Allocation, NodeForm.RefsFrom, LabelsOf, SameOutcome, Stacks, Held, Jumps.JumpsIn, Raise, Finish, Advance, Read, Resolve, RegOperand, Addr;
    match p[s.pc]
    case NThrow(a) =>
      ReadSame(p, reg, nregs, a, s, t);
      RaiseSame(p, reg, s, t, User(Read(s, Resolve(p, a)).value));
    case NRet => FinishSame(p, reg, s, t, Returned(None));
    case NRetVal(a) =>
      ReadSame(p, reg, nregs, a, s, t);
      FinishSame(p, reg, s, t, Returned(Some(Read(s, Resolve(p, a)).value)));
    case NEnd => FinishSame(p, reg, s, t, Ended);
    case NNext => AdvanceSame(p, reg, s, t);
  }

  lemma ScopeStep(p: Nodes, ls: Labels, reg: map<nat, nat>, nregs: nat, s: State, t: State)
    requires Ready(p, ls, reg, nregs, s, t) && (p[s.pc].NPushScope? || p[s.pc].NPopScope? || p[s.pc].NCatch?)
    ensures StepOk(p, ls, reg, s, t)
  {
    hide Allocation, NodeForm.RefsFrom, LabelsOf, Jumps.JumpsIn, Held, Pop;
    match p[s.pc]
    case NPushScope => NextSame(p, reg, s, t, Execute(PushScope, s).s, Execute(PushScope, t).s);
    case NPopScope(ns, nt, nf) => PopSame(p, reg, s, t, ns, nt, nf);
    case NCatch(x) => NextSame(p, reg, s, t, Execute(Catch(x), s).s, Execute(Catch(x), t).s);
  }

  lemma TryStep(p: Nodes, ls: Labels, reg: map<nat, nat>, nregs: nat, s: State, t: State)
    requires Ready(p, ls, reg, nregs, s, t) && p[s.pc].NTry?
    ensures StepOk(p, ls, reg, s, t)
  {
    hide Allocation, NodeForm.RefsFrom, LabelsOf, Held, Stacks, SameOutcome;
    assert Jumps.JumpsAt(p, ls, s.pc);
    EnterTrySame(p, reg, s, t, ls[p[s.pc].lc], ls[p[s.pc].le]);
  }

  lemma PseudoStep(p: Nodes, ls: Labels, reg: map<nat, nat>, nregs: nat, s: State, t: State)
    requires Ready(p, ls, reg, nregs, s, t) && !Kept(p[s.pc])
    ensures var o := Execute(Translate(p, ls, s.pc), s); o.Running? && Related(p, reg, o.s, t)
  {
    hide Allocation, LabelsOf, NodeForm.RefsFrom, Jumps.JumpsIn, Held, Stacks, Execute, Translate;
    PseudoEffect(p, ls, s);
    PseudoHolds(p, reg, s.pc, s.slots, t.slots);
    Agree(p, s, t);
    StoreStacks(p, s, t, Execute(Translate(p, ls, s.pc), s).s, t);
  }

  lemma PseudoEffect(p: Nodes, ls: Labels, s: State)
    requires s.pc < |p| && !Kept(p[s.pc])
    ensures Execute(Translate(p, ls, s.pc), s) ==
            Running(s.(pc := s.pc + 1, slots := if p[s.pc].NTemp? && p[s.pc].dest.None? then s.slots - {s.pc} else s.slots))
  {}

  lemma PseudoHolds(p: Nodes, reg: map<nat, nat>, pc: nat, slots: map<nat, Value>, regs: map<nat, Value>)
    requires Held(p, reg, pc, slots, regs) && NodeForm.RefsFrom(p, 0, 0, |p|) && pc < |p| && !Kept(p[pc])
    ensures if p[pc].NTemp? && p[pc].dest.None? then Held(p, reg, pc + 1, slots - {pc}, regs) else Held(p, reg, pc + 1, slots, regs)
  {
    forall n: nat | Live(View(p), pc + 1, n) && n in slots && n in reg && n != pc ensures reg[n] in regs && regs[reg[n]] == slots[n] {
      StepLive(p, pc, n);
    }
    if !(p[pc].NTemp? && p[pc].dest.None?) {
      NextHolds(p, reg, pc, slots, regs);
    }
  }

  // ----- runs -----

  lemma StepSame(p: Nodes, ls: Labels, reg: map<nat, nat>, nregs: nat, c: seq<Machine.Instruction>, s: State, t: State)
    requires Compiled(p, ls, reg, nregs) && IsCode(p, ls, reg, c) && Related(p, reg, s, t) && !Step(Code(p, ls), s).Stuck?
    ensures s.pc < |p| && IsPseudo(Code(p, ls)[s.pc]) == !Kept(p[s.pc])
    ensures if Kept(p[s.pc]) then SameOutcome(p, reg, Step(Code(p, ls), s), Step(c, t))
            else Step(Code(p, ls), s).Running? && Related(p, reg, Step(Code(p, ls), s).s, t)
  {
    hide Compiled, Stacks, Held, SameOutcome, Execute, Rename;
    match p[s.pc]
    case NTemp(_) => PseudoStep(p, ls, reg, nregs, s, t);
    case NLabel(_) => PseudoStep(p, ls, reg, nregs, s, t);
    case NUn(_, _, _) => OperatorStep(p, ls, reg, nregs, s, t);
    case NBin(_, _, _, _) => OperatorStep(p, ls, reg, nregs, s, t);
    case NMov(_, _) => MoveStep(p, ls, reg, nregs, s, t);
    case NB(_) => BranchStep(p, ls, reg, nregs, s, t);
    case NBT(_, _) => BranchStep(p, ls, reg, nregs, s, t);
    case NBF(_, _) => BranchStep(p, ls, reg, nregs, s, t);
    case NForeach(_, _, _, _) => ForeachStep(p, ls, reg, nregs, s, t);
    case NPushScope => ScopeStep(p, ls, reg, nregs, s, t);
    case NPopScope(_, _, _) => ScopeStep(p, ls, reg, nregs, s, t);
    case NCatch(_) => ScopeStep(p, ls, reg, nregs, s, t);
    case NTry(_, _) => TryStep(p, ls, reg, nregs, s, t);
    case _ => ExitStep(p, ls, reg, nregs, s, t);
  }

  lemma RunUnfold(code: seq<Machine.Instruction>, k: nat, s: State)
    ensures Run(code, k + 1, s) == (if Step(code, s).Running? then Run(code, k, Step(code, s).s) else Step(code, s))
    ensures Step(code, s).Running? ==> Work(code, k + 1, s) == (if IsPseudo(code[s.pc]) then 0 else 1) + Work(code, k, Step(code, s).s)
    ensures !Step(code, s).Running? ==> Work(code, k + 1, s) == 0
  {}

  /** A run of the node list is matched by the emitted code with one instruction for each kept node;
      halting takes one more. */
  lemma {:induction false} RunSame(p: Nodes, ls: Labels, reg: map<nat, nat>, nregs: nat, c: seq<Machine.Instruction>, k: nat, s: State, t: State) returns (w: nat)
    requires Compiled(p, ls, reg, nregs) && IsCode(p, ls, reg, c) && Related(p, reg, s, t) && !Run(Code(p, ls), k, s).Stuck?
    ensures SameOutcome(p, reg, Run(Code(p, ls), k, s), Run(c, w, t))
    ensures w == Work(Code(p, ls), k, s) + (if Run(Code(p, ls), k, s).Running? then 0 else 1)
    decreases k
  {
    hide Compiled, IsCode, Related, Step, Run, Work, IsPseudo, Translate, SameOutcome;
    if k == 0 {
      w := 0;
      NoRounds(p, ls, reg, c, s, t);
    } else {
      RunUnfold(Code(p, ls), k - 1, s);
      StepSame(p, ls, reg, nregs, c, s, t);
      var o := Step(Code(p, ls), s);
      if !o.Running? {
        w := 1;
        RunUnfold(c, 0, t);
        NotRunning(p, reg, o, Step(c, t));
      } else if Kept(p[s.pc]) {
        StillRunning(p, reg, o, Step(c, t));
        w := RunSame(p, ls, reg, nregs, c, k - 1, o.s, Step(c, t).s);
        RunUnfold(c, w, t);
        w := w + 1;
      } else {
        w := RunSame(p, ls, reg, nregs, c, k - 1, o.s, t);
      }
    }
  }

  lemma NoRounds(p: Nodes, ls: Labels, reg: map<nat, nat>, c: seq<Machine.Instruction>, s: State, t: State)
    requires Related(p, reg, s, t)
    ensures Run(Code(p, ls), 0, s) == Running(s) && Work(Code(p, ls), 0, s) == 0 && SameOutcome(p, reg, Running(s), Run(c, 0, t))
  {
    hide Related;
  }

  lemma StillRunning(p: Nodes, reg: map<nat, nat>, o: Outcome, o': Outcome)
    requires SameOutcome(p, reg, o, o') && o.Running?
    ensures o'.Running? && Related(p, reg, o.s, o'.s)
  {}

  lemma NotRunning(p: Nodes, reg: map<nat, nat>, o: Outcome, o': Outcome)
    requires SameOutcome(p, reg, o, o') && !o.Running?
    ensures o' == o
  {}
}

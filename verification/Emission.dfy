/** From the node list to code: node operands become registers, label operands become addresses, and
    TEMP and LABEL nodes disappear. */
module Emission {
  import opened Values
  import opened IntermediateForm
  import opened NodeMachine
  import opened Machine
  import opened RegAlloc
  import NodeForm

  // ----- the node list as the register allocator sees it -----

  function OpdRefs(o: Opd): seq<nat> {
    if o.ONode? then [o.n] else []
  }

  function Refs(x: Node): seq<nat> {
    match x
    case NUn(_, a, _) => OpdRefs(a)
    case NBin(_, a, b, _) => OpdRefs(a) + OpdRefs(b)
    case NMov(to, a) => (if to.MNode? then [to.n] else []) + OpdRefs(a)
    case NBT(a, _) => OpdRefs(a)
    case NBF(a, _) => OpdRefs(a)
    case NThrow(a) => OpdRefs(a)
    case NForeach(_, a, hi, _) => OpdRefs(a) + (if hi.Some? then OpdRefs(hi.value) else [])
    case NRetVal(a) => OpdRefs(a)
    case _ => []
  }

  function ShapeOf(x: Node): Shape {
    match x
    case NTemp(d) => Expression([], d.Some?, false)
    case NUn(_, _, d) => Expression(Refs(x), d.Some?, false)
    case NBin(_, _, _, d) => Expression(Refs(x), d.Some?, false)
    case NMov(_, _) => Expression(Refs(x), false, false)
    case _ => Shape.Instruction(Refs(x))
  }

  function View(p: Nodes): (v: seq<Shape>)
    ensures |v| == |p| && forall i :: 0 <= i < |p| ==> v[i] == ShapeOf(p[i])
  {
    seq(|p|, i requires 0 <= i < |p| => ShapeOf(p[i]))
  }

  lemma RefsAreUses(x: Node, r: nat)
    ensures r in ShapeOf(x).ops <==> NodeForm.Uses(x, r)
  {}

  /** A register is given to the value of each expression node, and of each MOV, that no variable is the
      destination of. */
  lemma RegisterGiven(x: Node)
    ensures GetsRegister(ShapeOf(x)) <==> ((x.NTemp? || x.NUn? || x.NBin?) && x.dest.None?) || x.NMov?
    ensures ShapeOf(x).Expression? ==> !ShapeOf(x).late
  {}

  // ----- addresses -----

  predicate Kept(x: Node) {
    !x.NTemp? && !x.NLabel?
  }

  /** The address of the first instruction emitted for node i or after it. */
  function Addr(p: Nodes, i: nat): nat
    decreases i
  {
    if i == 0 then 0
    else if i > |p| then Addr(p, |p|)
    else Addr(p, i - 1) + (if Kept(p[i - 1]) then 1 else 0)
  }

  lemma {:induction false} AddrGrows(p: Nodes, i: nat, j: nat)
    requires i <= j <= |p|
    ensures Addr(p, i) <= Addr(p, j) && (i < j && Kept(p[i]) ==> Addr(p, i) < Addr(p, j))
    decreases j
  {
    if i < j { AddrGrows(p, i, j - 1); }
  }

  // ----- one emitted instruction -----

  function Register(reg: map<nat, nat>, n: nat): nat {
    if n in reg then reg[n] else n
  }

  function RegOperand(reg: map<nat, nat>, o: Operand): Operand {
    if o.Slot? then Slot(Register(reg, o.n)) else o
  }

  function RegDest(reg: map<nat, nat>, d: Dest): Dest {
    if d.ToSlot? then ToSlot(Register(reg, d.n)) else d
  }

  /** The instruction with registers in place of nodes. */
  function Rename(reg: map<nat, nat>, i: Machine.Instruction): Machine.Instruction {
    match i
    case Mov(d, a) => Mov(RegDest(reg, d), RegOperand(reg, a))
    case Unary(op, d, a) => Unary(op, RegDest(reg, d), RegOperand(reg, a))
    case Binary(op, d, a, b) => Binary(op, RegDest(reg, d), RegOperand(reg, a), RegOperand(reg, b))
    case BranchTrue(a, t) => BranchTrue(RegOperand(reg, a), t)
    case BranchFalse(a, t) => BranchFalse(RegOperand(reg, a), t)
    case Throw(a) => Machine.Throw(RegOperand(reg, a))
    case Foreach(x, a, hi, e) =>
      Machine.Foreach(x, RegOperand(reg, a), if hi.None? then None else Some(RegOperand(reg, hi.value)), e)
    case RetVal(a) => RetVal(RegOperand(reg, a))
    case _ => i
  }

  /** The label operands of a node by operand number. */
  function LabelOps(x: Node): map<nat, nat> {
    match x
    case NB(l) => map[0 := l]
    case NBT(_, l) => map[1 := l]
    case NBF(_, l) => map[1 := l]
    case NTry(lc, le) => map[0 := lc, 1 := le]
    case NForeach(_, _, _, l) => map[2 := l]
    case _ => map[]
  }

  /** An instruction under construction: addrs holds its address operands, -1 for those not yet known. */
  datatype Emitted = Emitted(ins: Machine.Instruction, addrs: map<nat, int>) {
    function At(t: nat): nat {
      if t in addrs && addrs[t] >= 0 then addrs[t] else 0
    }

    /** What the virtual machine sees. */
    function Patched(): Machine.Instruction {
      match ins
      case Branch(_) => Branch(At(0))
      case BranchTrue(a, _) => BranchTrue(a, At(1))
      case BranchFalse(a, _) => BranchFalse(a, At(1))
      case Try(_, _) => Try(At(0), At(1))
      case Foreach(x, a, hi, _) => Machine.Foreach(x, a, hi, At(2))
      case _ => ins
    }
  }

  function Assemble(code: seq<Emitted>): (c: seq<Machine.Instruction>)
    ensures |c| == |code| && forall a :: 0 <= a < |code| ==> c[a] == code[a].Patched()
  {
    seq(|code|, a requires 0 <= a < |code| => code[a].Patched())
  }

  function Template(p: Nodes, reg: map<nat, nat>, j: nat): Machine.Instruction
    requires j < |p|
  {
    Rename(reg, Translate(p, map[], j))
  }

  /** The address of label l as far as the first i nodes define it. */
  function LabelAddr(p: Nodes, i: nat, l: nat): int
    requires i <= |p|
    decreases i
  {
    if i == 0 then -1 else if p[i - 1] == NLabel(l) then Addr(p, i - 1) else LabelAddr(p, i - 1, l)
  }

  lemma {:induction false} LabelAddrAt(p: Nodes, i: nat, q: nat, l: nat)
    requires q < i <= |p| && p[q] == NLabel(l) && NodeForm.Distinct(p, 0, |p|)
    ensures LabelAddr(p, i, l) == Addr(p, q)
    decreases i
  {
    if p[i - 1] != NLabel(l) { LabelAddrAt(p, i - 1, q, l); }
  }

  lemma {:induction false} LabelAddrNone(p: Nodes, i: nat, l: nat)
    requires i <= |p| && forall q :: 0 <= q < i ==> p[q] != NLabel(l)
    ensures LabelAddr(p, i, l) == -1
    decreases i
  {
    if i > 0 { LabelAddrNone(p, i - 1, l); }
  }

  /** The address operands of node j as far as the first i nodes define them. */
  function NodeAddrs(p: Nodes, i: nat, j: nat): map<nat, int>
    requires i <= |p| && j < |p|
  {
    map t | t in LabelOps(p[j]) :: LabelAddr(p, i, LabelOps(p[j])[t])
  }

  /** What stands in the code for node j when i nodes have been emitted. */
  function Image(p: Nodes, reg: map<nat, nat>, i: nat, j: nat): Emitted
    requires i <= |p| && j < |p|
  {
    Emitted(Template(p, reg, j), NodeAddrs(p, i, j))
  }

  ghost predicate CodeFor(p: Nodes, reg: map<nat, nat>, i: nat, code: seq<Emitted>)
    requires i <= |p|
  {
    |code| == Addr(p, i) && forall j: nat {:trigger Kept(p[j])} :: j < i && Kept(p[j]) ==> Addr(p, j) < |code| && code[Addr(p, j)] == Image(p, reg, i, j)
  }

  // ----- fixups -----

  datatype Fixup = Fixup(inst: nat, token: nat)

  /** The operands of node x, emitted at address a, that refer to label l. */
  function FixupsOf(x: Node, a: nat, l: nat): seq<Fixup> {
    (if 0 in LabelOps(x) && LabelOps(x)[0] == l then [Fixup(a, 0)] else [])
    + (if 1 in LabelOps(x) && LabelOps(x)[1] == l then [Fixup(a, 1)] else [])
    + (if 2 in LabelOps(x) && LabelOps(x)[2] == l then [Fixup(a, 2)] else [])
  }

  function Pending(p: Nodes, i: nat, l: nat): seq<Fixup>
    requires i <= |p|
    decreases i
  {
    if i == 0 then [] else Pending(p, i - 1, l) + FixupsOf(p[i - 1], Addr(p, i - 1), l)
  }

  lemma FixupsExact(x: Node, a: nat, l: nat, f: Fixup)
    ensures f in FixupsOf(x, a, l) <==> f.inst == a && f.token in LabelOps(x) && LabelOps(x)[f.token] == l
    ensures f.token in LabelOps(x) ==> Kept(x)
  {}

  lemma {:induction false} PendingBelow(p: Nodes, i: nat, l: nat, f: Fixup)
    requires i <= |p| && f in Pending(p, i, l)
    ensures f.inst < Addr(p, i) && exists j: nat :: j < i && Kept(p[j]) && Addr(p, j) == f.inst && f.token in LabelOps(p[j])
    decreases i
  {
    hide FixupsOf, LabelOps;
    FixupsExact(p[i - 1], Addr(p, i - 1), l, f);
    if f !in FixupsOf(p[i - 1], Addr(p, i - 1), l) {
      PendingBelow(p, i - 1, l, f);
    }
  }

  /** The fixup list of a label holds exactly the operands that refer to it. */
  lemma {:induction false} PendingExact(p: Nodes, i: nat, l: nat, j: nat, t: nat)
    requires j < i <= |p| && Kept(p[j])
    ensures Fixup(Addr(p, j), t) in Pending(p, i, l) <==> t in LabelOps(p[j]) && LabelOps(p[j])[t] == l
    decreases i
  {
    hide FixupsOf, LabelOps;
    var f := Fixup(Addr(p, j), t);
    AddrGrows(p, j, i - 1);
    FixupsExact(p[i - 1], Addr(p, i - 1), l, f);
    if j == i - 1 {
      if f in Pending(p, i - 1, l) { PendingBelow(p, i - 1, l, f); }
    } else {
      PendingExact(p, i - 1, l, j, t);
    }
  }
}

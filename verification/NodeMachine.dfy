/** The node list as a program of the virtual machine with one slot per node: operands, destinations
    and labels are resolved, but registers and addresses are not yet assigned. */
module NodeMachine {
  import opened Values
  import opened IntermediateForm
  import opened Machine

  type Nodes = seq<Node>
  type Labels = map<nat, nat>

  function DestOf(p: Nodes, n: nat): Option<nat> {
    if n >= |p| then None
    else
      match p[n]
      case NTemp(d) => d
      case NUn(_, _, d) => d
      case NBin(_, _, _, d) => d
      case _ => None
  }

  /** CodeGenerator::operand: a node with a destination variable is read from that variable. */
  function Resolve(p: Nodes, o: Opd): Operand {
    match o
    case OVar(x) => Variable(x)
    case OImm(v) => Immediate(v)
    case ONode(n) => var d := DestOf(p, n); if d.Some? then Variable(d.value) else Slot(n)
  }

  function ResolveDest(i: nat, d: Option<nat>): Dest {
    if d.Some? then ToVariable(d.value) else ToSlot(i)
  }

  function ResolveMove(p: Nodes, to: MoveTo): Dest {
    match to
    case MVar(x) => ToVariable(x)
    case MNode(n) => ResolveDest(n, DestOf(p, n))
  }

  function Lookup(ls: Labels, l: nat): nat {
    if l in ls then ls[l] else 0
  }

  function Translate(p: Nodes, ls: Labels, i: nat): Instruction
    requires i < |p|
  {
    match p[i]
    case NTemp(d) => if d.Some? then Nop else Temp(i)
    case NUn(op, a, d) => Unary(op, ResolveDest(i, d), Resolve(p, a))
    case NBin(op, a, b, d) => Binary(op, ResolveDest(i, d), Resolve(p, a), Resolve(p, b))
    case NMov(to, a) => Mov(ResolveMove(p, to), Resolve(p, a))
    case NLabel(_) => Nop
    case NB(l) => Branch(Lookup(ls, l))
    case NBT(a, l) => BranchTrue(Resolve(p, a), Lookup(ls, l))
    case NBF(a, l) => BranchFalse(Resolve(p, a), Lookup(ls, l))
    case NPushScope => PushScope
    case NPopScope(ns, nt, nf) => PopScope(ns, nt, nf)
    case NTry(lc, le) => Try(Lookup(ls, lc), Lookup(ls, le))
    case NCatch(x) => Catch(x)
    case NThrow(a) => Machine.Throw(Resolve(p, a))
    case NForeach(x, a, hi, l) =>
      Machine.Foreach(x, Resolve(p, a), if hi.None? then None else Some(Resolve(p, hi.value)), Lookup(ls, l))
    case NNext => Next
    case NRet => Ret
    case NRetVal(a) => RetVal(Resolve(p, a))
    case NEnd => End
  }

  function Code(p: Nodes, ls: Labels): (c: seq<Instruction>)
    ensures |c| == |p|
    ensures forall i :: 0 <= i < |p| ==> c[i] == Translate(p, ls, i)
  {
    seq(|p|, i requires 0 <= i < |p| => Translate(p, ls, i))
  }

  /** The nodes c stand at position b of p. */
  ghost predicate At(p: Nodes, b: nat, c: Nodes)
    decreases |c|
  {
    if c == [] then b <= |p| else b < |p| && p[b] == c[0] && At(p, b + 1, c[1..])
  }

  lemma {:induction false} AtSplit(p: Nodes, b: nat, c: Nodes, c': Nodes)
    requires At(p, b, c + c')
    ensures At(p, b, c) && At(p, b + |c|, c') && b + |c| + |c'| <= |p|
    decreases |c|
  {
    if c == [] {
      assert c + c' == c';
      AtLength(p, b, c');
    } else {
      assert (c + c')[1..] == c[1..] + c';
      AtSplit(p, b + 1, c[1..], c');
    }
  }

  lemma {:induction false} AtLength(p: Nodes, b: nat, c: Nodes)
    requires At(p, b, c)
    ensures b + |c| <= |p|
    decreases |c|
  {
    if c != [] {
      AtLength(p, b + 1, c[1..]);
    }
  }

  lemma AtLast(p: Nodes, b: nat, c: Nodes, x: Node)
    requires At(p, b, c + [x])
    ensures At(p, b, c) && b + |c| < |p| && p[b + |c|] == x
  {
    AtSplit(p, b, c, [x]);
  }

  /** A list cut into five parts. */
  lemma AtSplit5(p: Nodes, b: nat, c1: Nodes, c2: Nodes, c3: Nodes, c4: Nodes, c5: Nodes)
    requires At(p, b, c1 + c2 + c3 + c4 + c5)
    ensures At(p, b, c1) && At(p, b + |c1|, c2) && At(p, b + |c1| + |c2|, c3)
    ensures At(p, b + |c1| + |c2| + |c3|, c4) && At(p, b + |c1| + |c2| + |c3| + |c4|, c5)
    ensures b + |c1| + |c2| + |c3| + |c4| + |c5| <= |p|
  {
    AtSplit(p, b, c1 + c2 + c3 + c4, c5);
    AtSplit(p, b, c1 + c2 + c3, c4);
    AtSplit(p, b, c1 + c2, c3);
    AtSplit(p, b, c1, c2);
  }

  lemma AtOne(p: Nodes, b: nat, x: Node)
    requires At(p, b, [x])
    ensures b < |p| && p[b] == x
  {}

  lemma AtTwo(p: Nodes, b: nat, x: Node, y: Node)
    requires At(p, b, [x, y])
    ensures b + 1 < |p| && p[b] == x && p[b + 1] == y
  {
    AtLast(p, b, [x], y);
  }

  /** The label table sends each label to the node that issues it. */
  ghost predicate LabelsOf(p: Nodes, ls: Labels) {
    forall i :: 0 <= i < |p| && p[i].NLabel? ==> p[i].l in ls && ls[p[i].l] == i
  }
}

/** The emission pass: one walk over the node list that issues instructions and resolves labels by
    backpatching. */
module Emitter {
  import opened Values
  import opened IntermediateForm
  import opened NodeMachine
  import opened Emission
  import NodeForm

  class CodeSequence {
    var code: seq<Emitted>

    constructor ()
      ensures code == []
    {
      code := [];
    }
  }

  /** The code with the fixups in fs set to address a. */
  ghost predicate Fixed(before: seq<Emitted>, fs: seq<Fixup>, a: int, after: seq<Emitted>) {
    && |after| == |before|
    && (forall i {:trigger after[i]} :: 0 <= i < |after| ==> after[i].ins == before[i].ins && after[i].addrs.Keys == before[i].addrs.Keys)
    && (forall i: nat, t: nat {:trigger t in after[i].addrs} {:trigger after[i].addrs[t]} :: i < |after| && t in after[i].addrs ==>
          after[i].addrs[t] == if Fixup(i, t) in fs then a else before[i].addrs[t])
  }

  class IFLabel {
    var addr: int            // -1 until the label is defined
    var fixups: seq<Fixup>

    constructor ()
      ensures addr == -1 && fixups == []
    {
      addr, fixups := -1, [];
    }

    /** The address, or -1 and a note that the operand has to be filled in later. */
    method Reference(i: nat, tok: nat) returns (r: int)
      modifies this`fixups
      ensures r == addr
      ensures fixups == if addr == -1 then old(fixups) + [Fixup(i, tok)] else old(fixups)
    {
      if addr != -1 {
        return addr;
      }
      fixups := fixups + [Fixup(i, tok)];
      r := -1;
    }

    method Define(cs: CodeSequence, a: nat)
      requires forall f :: f in fixups ==> f.inst < |cs.code| && f.token in cs.code[f.inst].addrs
      modifies this`addr, cs
      ensures addr == a && Fixed(old(cs.code), fixups, a, cs.code)
    {
      addr := a;
      var i := 0;
      while i < |fixups|
        invariant 0 <= i <= |fixups|
        invariant addr == a && Fixed(old(cs.code), fixups[..i], a, cs.code)
      {
        var f := fixups[i];
        assert fixups[..i + 1] == fixups[..i] + [f];
        var ins := cs.code[f.inst];
        cs.code := cs.code[f.inst := ins.(addrs := ins.addrs[f.token := addr])];
        i := i + 1;
      }
      assert fixups[..i] == fixups;
    }
  }

  class CodeEmitter {
    const labels: map<nat, IFLabel>
    const reg: map<nat, nat>
    const codesequence: CodeSequence
    var currentAddr: nat

    constructor (labels: map<nat, IFLabel>, reg: map<nat, nat>)
      ensures this.labels == labels && this.reg == reg && fresh(codesequence) && codesequence.code == [] && currentAddr == 0
    {
      this.labels, this.reg, currentAddr := labels, reg, 0;
      codesequence := new CodeSequence();
    }

    /** Different labels are different objects, and every label of the list is known. */
    ghost predicate Knows(p: Nodes) {
      && (forall l, l' :: l in labels && l' in labels && l != l' ==> labels[l] != labels[l'])
      && (forall i: nat {:trigger p[i]} :: i < |p| ==> (p[i].NLabel? ==> p[i].l in labels) && LabelOps(p[i]).Values <= labels.Keys)
    }

    /** The first i nodes have been emitted. */
    ghost predicate Upto(p: Nodes, i: nat)
      requires i <= |p|
      reads this, codesequence, labels.Values
    {
      currentAddr == Addr(p, i) && CodeFor(p, reg, i, codesequence.code) && LabelsAt(p, i)
    }

    ghost predicate LabelsAt(p: Nodes, i: nat)
      requires i <= |p|
      reads labels.Values
    {
      forall l :: l in labels ==> labels[l].addr == LabelAddr(p, i, l) && (labels[l].addr == -1 ==> labels[l].fixups == Pending(p, i, l))
    }

    /** The address operands of node x, to be issued at address a. */
    method References(x: Node, a: nat) returns (addrs: map<nat, int>)
      requires LabelOps(x).Values <= labels.Keys
      requires forall l, l' :: l in labels && l' in labels && l != l' ==> labels[l] != labels[l']
      modifies labels.Values
      ensures addrs.Keys == LabelOps(x).Keys && forall t :: t in addrs ==> LabelOps(x)[t] in labels && addrs[t] == labels[LabelOps(x)[t]].addr
      ensures forall l :: l in labels ==> labels[l].addr == old(labels[l].addr)
      ensures forall l :: l in labels ==> labels[l].fixups == old(labels[l].fixups) + (if labels[l].addr == -1 then FixupsOf(x, a, l) else [])
    {
      addrs := map[];
      var ops := LabelOps(x);
      if 0 in ops {
        assert ops[0] in ops.Values;
        var r := labels[ops[0]].Reference(a, 0);
        addrs := addrs[0 := r];
      }
      if 1 in ops {
        assert ops[1] in ops.Values;
        var r := labels[ops[1]].Reference(a, 1);
        addrs := addrs[1 := r];
      }
      if 2 in ops {
        assert ops[2] in ops.Values;
        var r := labels[ops[2]].Reference(a, 2);
        addrs := addrs[2 := r];
      }
    }

    /** A label is defined at the current address, and the operands waiting for it are filled in. */
    method EmitLabel(p: Nodes, i: nat)
      requires i < |p| && p[i].NLabel? && Knows(p) && NodeForm.Distinct(p, 0, |p|) && Upto(p, i)
      modifies this, codesequence, labels.Values
      ensures Upto(p, i + 1)
    {
      hide CodeFor, Fixed, Pending, NodeForm.Distinct;
      var l := p[i].l;
      LabelFixups(p, reg, i, codesequence.code, l);
      ghost var before := codesequence.code;
      labels[l].Define(codesequence, currentAddr);
      LabelEmitted(p, reg, i, before, l, labels[l].fixups, codesequence.code);
      LabelStep(p, i);
    }

    method NodeReferences(p: Nodes, i: nat) returns (addrs: map<nat, int>)
      requires i < |p| && Kept(p[i]) && Knows(p) && LabelsAt(p, i)
      modifies labels.Values
      ensures addrs == NodeAddrs(p, i, i) && LabelsAt(p, i + 1)
    {
      hide LabelOps, FixupsOf, LabelAddr, Pending, Addr;
      addrs := References(p[i], Addr(p, i));
      InstructionStep(p, i);
    }

    method EmitInstruction(p: Nodes, i: nat)
      requires i < |p| && Kept(p[i]) && Knows(p) && Upto(p, i)
      modifies this, codesequence, labels.Values
      ensures Upto(p, i + 1)
    {
      hide CodeFor, Template, NodeAddrs;
      var addrs := NodeReferences(p, i);
      InstructionEmitted(p, reg, i, codesequence.code, addrs);
      codesequence.code := codesequence.code + [Emitted(Template(p, reg, i), addrs)];
      currentAddr := currentAddr + 1;
    }

    method EmitNode(p: Nodes, i: nat)
      requires i < |p| && Knows(p) && NodeForm.Distinct(p, 0, |p|) && Upto(p, i)
      modifies this, codesequence, labels.Values
      ensures Upto(p, i + 1)
    {
      match p[i]
      case NTemp(_) => TempEmitted(p, reg, i, codesequence.code);
      case NLabel(_) => EmitLabel(p, i);
      case _ => EmitInstruction(p, i);
    }

    method Emit(p: Nodes)
      requires Knows(p) && NodeForm.Distinct(p, 0, |p|) && currentAddr == 0 && codesequence.code == []
      requires forall l :: l in labels ==> labels[l].addr == -1 && labels[l].fixups == []
      modifies this, codesequence, labels.Values
      ensures CodeFor(p, reg, |p|, codesequence.code)
      ensures forall l :: l in labels ==> labels[l].addr == LabelAddr(p, |p|, l)
    {
      var i := 0;
      while i < |p|
        invariant 0 <= i <= |p| && Upto(p, i)
      {
        EmitNode(p, i);
        i := i + 1;
      }
    }
  }

  lemma TempEmitted(p: Nodes, reg: map<nat, nat>, i: nat, code: seq<Emitted>)
    requires i < |p| && p[i].NTemp? && CodeFor(p, reg, i, code)
    ensures CodeFor(p, reg, i + 1, code)
  {
    forall j: nat | j < i ensures Image(p, reg, i, j) == Image(p, reg, i + 1, j) {}
  }

  lemma LabelStep(p: Nodes, i: nat)
    requires i < |p| && p[i].NLabel?
    ensures Addr(p, i + 1) == Addr(p, i)
    ensures forall l: nat :: LabelAddr(p, i + 1, l) == if p[i] == NLabel(l) then Addr(p, i) else LabelAddr(p, i, l)
    ensures forall l: nat :: Pending(p, i + 1, l) == Pending(p, i, l)
  {}

  lemma InstructionStep(p: Nodes, i: nat)
    requires i < |p| && Kept(p[i])
    ensures Addr(p, i + 1) == Addr(p, i) + 1
    ensures forall l: nat :: LabelAddr(p, i + 1, l) == LabelAddr(p, i, l)
    ensures forall l: nat :: Pending(p, i + 1, l) == Pending(p, i, l) + FixupsOf(p[i], Addr(p, i), l)
  {}

  /** A label that is defined now was not defined before, and its fixups stand in the code. */
  lemma LabelFixups(p: Nodes, reg: map<nat, nat>, i: nat, code: seq<Emitted>, l: nat)
    requires i < |p| && p[i] == NLabel(l) && NodeForm.Distinct(p, 0, |p|) && CodeFor(p, reg, i, code)
    ensures LabelAddr(p, i, l) == -1
    ensures forall f :: f in Pending(p, i, l) ==> f.inst < |code| && f.token in code[f.inst].addrs
  {
    LabelAddrNone(p, i, l);
    forall f | f in Pending(p, i, l) ensures f.inst < |code| && f.token in code[f.inst].addrs {
      PendingBelow(p, i, l, f);
      var j: nat :| j < i && Kept(p[j]) && Addr(p, j) == f.inst && f.token in LabelOps(p[j]);
      assert code[Addr(p, j)] == Image(p, reg, i, j);
    }
  }

  lemma LabelEmitted(p: Nodes, reg: map<nat, nat>, i: nat, before: seq<Emitted>, l: nat, fs: seq<Fixup>, code: seq<Emitted>)
    requires i < |p| && p[i] == NLabel(l) && CodeFor(p, reg, i, before)
    requires fs == Pending(p, i, l) && Fixed(before, fs, Addr(p, i), code)
    ensures CodeFor(p, reg, i + 1, code)
  {
    hide Template, LabelOps, FixupsOf, Pending;
    forall j: nat | j < i && Kept(p[j]) ensures Addr(p, j) < |code| && code[Addr(p, j)] == Image(p, reg, i + 1, j) {
      var a := Addr(p, j);
      assert before[a] == Image(p, reg, i, j);
      forall t | t in LabelOps(p[j]) ensures code[a].addrs[t] == LabelAddr(p, i + 1, LabelOps(p[j])[t]) {
        PendingExact(p, i, l, j, t);
      }
      assert code[a].addrs == Image(p, reg, i + 1, j).addrs;
    }
  }

  lemma InstructionEmitted(p: Nodes, reg: map<nat, nat>, i: nat, before: seq<Emitted>, addrs: map<nat, int>)
    requires i < |p| && Kept(p[i]) && CodeFor(p, reg, i, before)
    requires addrs == NodeAddrs(p, i, i)
    ensures CodeFor(p, reg, i + 1, before + [Emitted(Template(p, reg, i), addrs)])
    ensures Addr(p, i + 1) == Addr(p, i) + 1
  {
    hide Template, LabelOps;
    var code := before + [Emitted(Template(p, reg, i), addrs)];
    forall j: nat | j < i + 1 && Kept(p[j]) ensures Addr(p, j) < |code| && code[Addr(p, j)] == Image(p, reg, i + 1, j) {
      if j < i { assert Image(p, reg, i, j) == Image(p, reg, i + 1, j); }
    }
  }

  /** Backpatching: whether a branch stands before or after its label, its operand is the address of
      the first instruction that follows the label; the operand stays -1 only for a label that the
      list does not issue. */
  lemma Backpatched(p: Nodes, reg: map<nat, nat>, code: seq<Emitted>, j: nat, t: nat)
    requires NodeForm.Distinct(p, 0, |p|) && CodeFor(p, reg, |p|, code)
    requires j < |p| && t in LabelOps(p[j])
    ensures Addr(p, j) < |code| && t in code[Addr(p, j)].addrs
    ensures forall q :: 0 <= q < |p| && p[q] == NLabel(LabelOps(p[j])[t]) ==> code[Addr(p, j)].addrs[t] == Addr(p, q)
    ensures (forall q :: 0 <= q < |p| ==> p[q] != NLabel(LabelOps(p[j])[t])) <==> code[Addr(p, j)].addrs[t] == -1
  {
    assert Kept(p[j]) && code[Addr(p, j)] == Image(p, reg, |p|, j);
    var l := LabelOps(p[j])[t];
    if q :| 0 <= q < |p| && p[q] == NLabel(l) {
      LabelAddrAt(p, |p|, q, l);
    } else {
      LabelAddrNone(p, |p|, l);
    }
  }
}

/** Register allocation by use counting over the list of IF nodes. */
module RegAlloc {

  /** What the allocator sees of a node: its operand nodes; for an expression also whether a store
      made a variable its destination, and whether it is FINDA or ADDRSUB ("late"), whose result must
      not share a register with its operands. */
  datatype Shape =
    | Instruction(ops: seq<nat>)
    | Expression(ops: seq<nat>, hasDest: bool, late: bool)

  function CountIn(ops: seq<nat>, n: nat): nat {
    if ops == [] then 0 else (if ops[0] == n then 1 else 0) + CountIn(ops[1..], n)
  }

  /** refCount restricted to the operands from position i on. */
  function CountFrom(v: seq<Shape>, i: nat, n: nat): nat
    decreases |v| - i
  {
    if i >= |v| then 0 else CountIn(v[i].ops, n) + CountFrom(v, i + 1, n)
  }

  /** Operands stand before the nodes that use them. */
  ghost predicate Ordered(v: seq<Shape>) {
    forall i, n :: 0 <= i < |v| && n in v[i].ops ==> n < i
  }

  predicate GetsRegister(x: Shape) {
    x.Expression? && !x.hasDest
  }

  /** The value of node n is still needed by a node from position i on. */
  predicate Live(v: seq<Shape>, i: nat, n: nat) {
    n < i && n < |v| && GetsRegister(v[n]) && CountFrom(v, i, n) > 0
  }

  /** The nodes before position i that need a register have one. */
  ghost predicate Assigned(v: seq<Shape>, i: nat, reg: map<nat, nat>) {
    forall n: nat :: n in reg <==> n < i && n < |v| && GetsRegister(v[n])
  }

  /** Values needed at the same time are in different registers. */
  ghost predicate Apart(v: seq<Shape>, i: nat, reg: map<nat, nat>) {
    forall m: nat, n: nat {:trigger Live(v, i, m), Live(v, i, n)} ::
      Live(v, i, m) && Live(v, i, n) && m != n && m in reg && n in reg ==> reg[m] != reg[n]
  }

  /** Writing node j clobbers no value needed after it, and if j is late none of its operands. */
  ghost predicate WriteOk(v: seq<Shape>, j: nat, reg: map<nat, nat>) {
    j in reg && j < |v| ==>
      && (forall n: nat {:trigger Live(v, j + 1, n)} :: n in reg && n != j && Live(v, j + 1, n) ==> reg[j] != reg[n])
      && (v[j].Expression? && v[j].late ==> forall n :: n in v[j].ops && n in reg ==> reg[j] != reg[n])
  }

  /** What allocation has established for the first i nodes. */
  ghost predicate Upto(v: seq<Shape>, i: nat, reg: map<nat, nat>, nregs: nat) {
    && Assigned(v, i, reg) && (forall n :: n in reg ==> reg[n] < nregs)
    && (forall j: nat :: j <= i ==> Apart(v, j, reg))
    && (forall j: nat :: j < i ==> WriteOk(v, j, reg))
  }

  /** The result of allocation: every node that needs one has a register, and a register is written
      only when no other live value is in it. */
  ghost predicate Allocation(v: seq<Shape>, reg: map<nat, nat>, nregs: nat) {
    Upto(v, |v|, reg, nregs)
  }

  lemma {:induction false} CountInPositive(ops: seq<nat>, n: nat)
    ensures CountIn(ops, n) > 0 <==> n in ops
  {
    if ops != [] { CountInPositive(ops[1..], n); }
  }

  lemma {:induction false} CountNone(v: seq<Shape>, i: nat, n: nat)
    requires Ordered(v) && i <= n + 1
    ensures CountFrom(v, i, n) == CountFrom(v, n + 1, n)
    decreases n + 1 - i
  {
    if i <= n {
      if i < |v| { CountInPositive(v[i].ops, n); }
      CountNone(v, i + 1, n);
    }
  }

  lemma {:induction false} CountPositive(v: seq<Shape>, i: nat, n: nat)
    ensures CountFrom(v, i, n) > 0 <==> exists j: nat :: i <= j < |v| && n in v[j].ops
    decreases |v| - i
  {
    if i < |v| {
      CountInPositive(v[i].ops, n);
      CountPositive(v, i + 1, n);
      if exists j: nat :: i <= j < |v| && n in v[j].ops {
        var j: nat :| i <= j < |v| && n in v[j].ops;
      }
    }
  }

  /** refCount: how many operands of the whole list refer to node n. */
  function RefCount(v: seq<Shape>, n: nat): nat {
    CountFrom(v, 0, n)
  }

  // ----- the state of the allocator between two steps -----

  ghost predicate NoRepeats(free: seq<nat>, nregs: nat) {
    && (forall a, b :: 0 <= a < b < |free| ==> free[a] != free[b])
    && (forall a :: 0 <= a < |free| ==> free[a] < nregs)
  }

  ghost predicate Holds(reg: map<nat, nat>, uses: map<nat, int>, n: nat, r: nat) {
    n in reg && n in uses && reg[n] == r && uses[n] > 0
  }

  /** Every register is either on the free list or held by exactly one node. */
  ghost predicate Split(free: seq<nat>, nregs: nat, reg: map<nat, nat>, uses: map<nat, int>) {
    && (forall n, r: nat :: Holds(reg, uses, n, r) ==> r < nregs && r !in free)
    && (forall m, n, r: nat :: Holds(reg, uses, m, r) && Holds(reg, uses, n, r) ==> m == n)
    && (forall r: nat {:trigger r in free} :: r < nregs && r !in free ==> exists n :: Holds(reg, uses, n, r))
  }

  /** uses counts the operands still to come: those from node i on and the pending ones. */
  ghost predicate Counted(v: seq<Shape>, i: nat, pending: seq<nat>, reg: map<nat, nat>, uses: map<nat, int>) {
    && reg.Keys == uses.Keys
    && (forall n :: n in uses ==> uses[n] == CountFrom(v, i, n) + CountIn(pending, n))
  }

  /** Registers in use belong to the values still needed, one register to each; all others are on
      the free list, once. */
  ghost predicate Sound(v: seq<Shape>, i: nat, pending: seq<nat>, free: seq<nat>, nregs: nat, reg: map<nat, nat>, uses: map<nat, int>) {
    NoRepeats(free, nregs) && Split(free, nregs, reg, uses) && Counted(v, i, pending, reg, uses)
  }

  /** An operand without a register is passed over. */
  lemma UseOther(v: seq<Shape>, i: nat, ops: seq<nat>, free: seq<nat>, nregs: nat, reg: map<nat, nat>, uses: map<nat, int>)
    requires Sound(v, i, ops, free, nregs, reg, uses) && ops != [] && ops[0] !in reg
    ensures Sound(v, i, ops[1..], free, nregs, reg, uses)
  {}

  /** An operand with a register loses a use; with its last use it gives up the register, which was
      not on the free list before. */
  lemma UseOne(v: seq<Shape>, i: nat, ops: seq<nat>, free: seq<nat>, nregs: nat, reg: map<nat, nat>, uses: map<nat, int>)
    requires Sound(v, i, ops, free, nregs, reg, uses) && ops != [] && ops[0] in reg
    ensures var n := ops[0];
            var uses' := uses[n := uses[n] - 1];
            reg[n] !in free && Sound(v, i, ops[1..], if uses'[n] <= 0 then [reg[n]] + free else free, nregs, reg, uses')
  {
    var n := ops[0];
    var uses' := uses[n := uses[n] - 1];
    var free' := if uses'[n] <= 0 then [reg[n]] + free else free;
    assert Holds(reg, uses, n, reg[n]);
    forall m, r: nat | Holds(reg, uses', m, r) ensures r < nregs && r !in free' && Holds(reg, uses, m, r) {
      assert Holds(reg, uses, m, r);
    }
    forall r: nat | r < nregs && r !in free' ensures exists m :: Holds(reg, uses', m, r) {
      assert r !in free;
      var m :| Holds(reg, uses, m, r);
      assert Holds(reg, uses', m, r);
    }
  }

  /** A free or new register leaves the free list: nobody holds it. */
  lemma Allocate(free: seq<nat>, nregs: nat, reg: map<nat, nat>, uses: map<nat, int>) returns (r: nat, rest: seq<nat>, nregs': nat)
    requires NoRepeats(free, nregs) && Split(free, nregs, reg, uses)
    ensures if free == [] then r == nregs && rest == [] && nregs' == nregs + 1 else r == free[0] && rest == free[1..] && nregs' == nregs
    ensures r < nregs' && r !in rest && NoRepeats(rest, nregs')
    ensures (forall m :: !Holds(reg, uses, m, r)) && (forall q: nat :: q in free <==> q in rest || (q == r && q < nregs))
  {
    if free == [] {
      r, rest, nregs' := nregs, [], nregs + 1;
    } else {
      r, rest, nregs' := free[0], free[1..], nregs;
      assert free == [r] + rest;
    }
  }

  /** The allocated register goes to node n, and back to the free list if n is never used. */
  lemma Take(free: seq<nat>, nregs: nat, reg: map<nat, nat>, uses: map<nat, int>, n: nat, count: nat) returns (r: nat, rest: seq<nat>, nregs': nat)
    requires NoRepeats(free, nregs) && Split(free, nregs, reg, uses) && n !in reg
    ensures if free == [] then r == nregs && rest == [] && nregs' == nregs + 1 else r == free[0] && rest == free[1..] && nregs' == nregs
    ensures r < nregs' && r !in rest && forall m :: !Holds(reg, uses, m, r)
    ensures var free' := if count == 0 then [r] + rest else rest;
            NoRepeats(free', nregs') && Split(free', nregs', reg[n := r], uses[n := count])
  {
    r, rest, nregs' := Allocate(free, nregs, reg, uses);
    Moved(free, nregs, reg, uses, n, count, r, rest, nregs');
  }

  lemma Moved(free: seq<nat>, nregs: nat, reg: map<nat, nat>, uses: map<nat, int>, n: nat, count: nat, r: nat, rest: seq<nat>, nregs': nat)
    requires Split(free, nregs, reg, uses) && n !in reg && nregs <= nregs' <= nregs + 1 && r < nregs' && r !in rest
    requires (forall m :: !Holds(reg, uses, m, r)) && (nregs < nregs' ==> r == nregs)
    requires forall q: nat :: q in free <==> q in rest || (q == r && q < nregs)
    ensures Split(if count == 0 then [r] + rest else rest, nregs', reg[n := r], uses[n := count])
  {
    hide Holds;
    var free' := if count == 0 then [r] + rest else rest;
    var reg', uses' := reg[n := r], uses[n := count];
    forall m, q: nat ensures Holds(reg', uses', m, q) <==> if m == n then q == r && count > 0 else Holds(reg, uses, m, q) {
      HeldAfter(reg, uses, n, r, count, m, q);
    }
    forall q: nat | q < nregs' && q !in free' ensures exists m :: Holds(reg', uses', m, q) {
      if q == r {
        assert Holds(reg', uses', n, q);
      } else {
        assert q !in rest;
        var m :| Holds(reg, uses, m, q);
        HeldAfter(reg, uses, n, r, count, m, q);
      }
    }
  }

  lemma HeldAfter(reg: map<nat, nat>, uses: map<nat, int>, n: nat, r: nat, count: nat, m: nat, q: nat)
    requires n !in reg
    ensures Holds(reg[n := r], uses[n := count], m, q) <==> if m == n then q == r && count > 0 else Holds(reg, uses, m, q)
    ensures !Holds(reg, uses, n, q)
  {}

  /** Reaching node i: its operands become pending. */
  lemma Reach(v: seq<Shape>, i: nat, free: seq<nat>, nregs: nat, reg: map<nat, nat>, uses: map<nat, int>)
    requires Sound(v, i, [], free, nregs, reg, uses) && i < |v|
    ensures Sound(v, i + 1, v[i].ops, free, nregs, reg, uses)
  {}

  // ----- one node -----

  /** Once the operands of node i are used up, the live values hold pairwise different registers. */
  lemma SoundApart(v: seq<Shape>, i: nat, free: seq<nat>, nregs: nat, reg: map<nat, nat>, uses: map<nat, int>)
    requires Sound(v, i, [], free, nregs, reg, uses) && Assigned(v, i, reg)
    ensures Apart(v, i, reg)
  {
    forall n: nat | Live(v, i, n) && n in reg ensures Holds(reg, uses, n, reg[n]) {
      assert CountIn([], n) == 0;
    }
  }

  /** The registers of earlier nodes never change, so what held for a prefix still holds. */
  lemma UptoStep(v: seq<Shape>, i: nat, reg: map<nat, nat>, nregs: nat, reg': map<nat, nat>, nregs': nat)
    requires Ordered(v) && Upto(v, i, reg, nregs) && nregs <= nregs' && i < |v|
    requires Assigned(v, i + 1, reg') && (forall n :: n in reg ==> n in reg' && reg'[n] == reg[n]) && (i in reg' ==> reg'[i] < nregs')
    requires Apart(v, i + 1, reg') && WriteOk(v, i, reg')
    ensures Upto(v, i + 1, reg', nregs')
  {
    forall j: nat | j <= i + 1 ensures Apart(v, j, reg') {
      if j <= i { assert Apart(v, j, reg); }
    }
    forall j: nat | j < i + 1 ensures WriteOk(v, j, reg') {
      if j < i { assert WriteOk(v, j, reg); }
    }
  }

  /** A register that nobody holds after node i may be written by node i. */
  lemma FreshWrite(v: seq<Shape>, i: nat, free: seq<nat>, nregs: nat, reg: map<nat, nat>, uses: map<nat, int>, pending: seq<nat>, r: nat)
    requires Ordered(v) && i < |v| && Assigned(v, i, reg) && GetsRegister(v[i])
    requires Sound(v, i + 1, pending, free, nregs, reg, uses) && (forall m :: !Holds(reg, uses, m, r))
    requires if v[i].late then pending == v[i].ops else pending == []
    ensures WriteOk(v, i, reg[i := r])
  {
    forall n: nat | n in reg && Live(v, i + 1, n) ensures r != reg[n] {
      assert !Holds(reg, uses, n, r);
    }
    if v[i].late {
      forall n | n in v[i].ops && n in reg ensures r != reg[n] {
        CountInPositive(v[i].ops, n);
        assert !Holds(reg, uses, n, r);
      }
    }
  }

  // ----- the allocator -----

  class Allocator {
    var regFreeList: seq<nat>
    var nregs: nat
    var reg: map<nat, nat>    // the register of each node that has one
    var uses: map<nat, int>   // how often the value of a node will still be used
    ghost var peak: int       // the largest number of registers out of the free list so far

    constructor ()
      ensures regFreeList == [] && nregs == 0 && reg == map[] && uses == map[] && Tight()
    {
      regFreeList, nregs, reg, uses, peak := [], 0, map[], map[], 0;
    }

    /** Every register that was created was needed at some time. */
    ghost predicate Tight()
      reads this
    {
      nregs == peak
    }

    /** Registers and uses after the first i nodes, with some operands of the last still to come. */
    ghost predicate Between(v: seq<Shape>, i: nat, pending: seq<nat>)
      reads this
    {
      Sound(v, i, pending, regFreeList, nregs, reg, uses) && Tight()
    }

    /** A register comes back only when it is out. */
    method FreeReg(r: nat)
      requires r !in regFreeList
      modifies this`regFreeList
      ensures regFreeList == [r] + old(regFreeList)
      ensures r < nregs && old(NoRepeats(regFreeList, nregs)) ==> NoRepeats(regFreeList, nregs)
    {
      regFreeList := [r] + regFreeList;
    }

    method AllocateReg() returns (r: nat)
      requires Tight()
      modifies this`regFreeList, this`nregs, this`peak
      ensures Tight()
      ensures if old(regFreeList) == [] then r == old(nregs) && nregs == old(nregs) + 1 && regFreeList == []
              else r == old(regFreeList)[0] && nregs == old(nregs) && regFreeList == old(regFreeList)[1..]
      ensures peak == if nregs - |regFreeList| > old(peak) then nregs - |regFreeList| else old(peak)
    {
      if regFreeList == [] {
        r := nregs;
        nregs := nregs + 1;
      } else {
        r := regFreeList[0];
        regFreeList := regFreeList[1..];
      }
      if nregs - |regFreeList| > peak { peak := nregs - |regFreeList|; }
    }

    /** IFInstruction::regalloc: each operand loses a use, and its register when that was the last. */
    method UseOperands(v: seq<Shape>, i: nat, ops: seq<nat>)
      requires Between(v, i, ops)
      modifies this`regFreeList, this`uses
      ensures Between(v, i, [])
    {
      hide Sound;
      var k := 0;
      while k < |ops|
        invariant 0 <= k <= |ops|
        invariant Between(v, i, ops[k..])
      {
        var op := ops[k];
        assert ops[k..][0] == op && ops[k..][1..] == ops[k + 1..];
        if op in reg {
          UseOne(v, i, ops[k..], regFreeList, nregs, reg, uses);
          UsesKnown(v, i, ops[k..], regFreeList, nregs, reg, uses);
          uses := uses[op := uses[op] - 1];
          if uses[op] <= 0 {
            FreeReg(reg[op]);
          }
        } else {
          UseOther(v, i, ops[k..], regFreeList, nregs, reg, uses);
        }
        k := k + 1;
      }
      assert ops[|ops|..] == [];
    }

    /** IFExpression::regalloc: the result may reuse the register of an operand that dies here,
        unless the node is late; a result that is never used gives its register back at once. */
    method ForExpression(v: seq<Shape>, i: nat)
      requires i < |v| && v[i].Expression? && Ordered(v)
      requires Between(v, i, []) && Upto(v, i, reg, nregs)
      modifies this
      ensures Between(v, i + 1, []) && Upto(v, i + 1, reg, nregs)
    {
      hide Sound, Upto;
      Reach(v, i, regFreeList, nregs, reg, uses);
      if !v[i].late {
        UseOperands(v, i + 1, v[i].ops);
      }
      ghost var before := reg;
      ghost var count := nregs;
      if !v[i].hasDest {
        ghost var r', rest, nregs' := Placed(v, i, if v[i].late then v[i].ops else [], regFreeList, nregs, reg, uses);
        var r := AllocateReg();
        reg := reg[i := r];
        uses := uses[i := RefCount(v, i)];
        if uses[i] == 0 {
          FreeReg(r);
        }
      }
      if v[i].late {
        UseOperands(v, i + 1, v[i].ops);
      }
      NodeDone(v, i, regFreeList, nregs, before, count, reg, uses);
    }

    /** allocateRegisters: one pass over the list. */
    method AllocateRegisters(v: seq<Shape>)
      requires Ordered(v)
      requires regFreeList == [] && nregs == 0 && reg == map[] && uses == map[] && Tight()
      modifies this
      ensures Allocation(v, reg, nregs)
      ensures forall r: nat :: r < nregs ==> r in regFreeList  // at the end every register is free again
      ensures nregs == peak
    {
      var i := 0;
      while i < |v|
        invariant 0 <= i <= |v|
        invariant Between(v, i, []) && Upto(v, i, reg, nregs)
      {
        if v[i].Expression? {
          ForExpression(v, i);
        } else {
          ForInstruction(v, i);
        }
        i := i + 1;
      }
      AllFree(v, regFreeList, nregs, reg, uses);
    }

    method ForInstruction(v: seq<Shape>, i: nat)
      requires i < |v| && v[i].Instruction? && Ordered(v)
      requires Between(v, i, []) && Upto(v, i, reg, nregs)
      modifies this`regFreeList, this`uses
      ensures Between(v, i + 1, []) && Upto(v, i + 1, reg, nregs)
    {
      hide Sound, Upto;
      Reach(v, i, regFreeList, nregs, reg, uses);
      UseOperands(v, i + 1, v[i].ops);
      NodeDone(v, i, regFreeList, nregs, reg, nregs, reg, uses);
    }
  }

  lemma UsesKnown(v: seq<Shape>, i: nat, ops: seq<nat>, free: seq<nat>, nregs: nat, reg: map<nat, nat>, uses: map<nat, int>)
    requires Sound(v, i, ops, free, nregs, reg, uses)
    ensures reg.Keys == uses.Keys
  {}

  /** Node i gets the register that AllocateReg is about to return. */
  lemma Placed(v: seq<Shape>, i: nat, pending: seq<nat>, free: seq<nat>, nregs: nat, reg: map<nat, nat>, uses: map<nat, int>) returns (r: nat, rest: seq<nat>, nregs': nat)
    requires i < |v| && GetsRegister(v[i]) && Ordered(v) && Upto(v, i, reg, nregs)
    requires pending == (if v[i].late then v[i].ops else []) && Sound(v, i + 1, pending, free, nregs, reg, uses)
    ensures if free == [] then r == nregs && rest == [] && nregs' == nregs + 1 else r == free[0] && rest == free[1..] && nregs' == nregs
    ensures Sound(v, i + 1, pending, if RefCount(v, i) == 0 then [r] + rest else rest, nregs', reg[i := r], uses[i := RefCount(v, i)])
    ensures WriteOk(v, i, reg[i := r]) && Assigned(v, i + 1, reg[i := r]) && r < nregs' && r !in rest
  {
    hide NoRepeats, Split, WriteOk, Holds;
    CountNone(v, 0, i);
    CountInPositive(pending, i);
    assert i !in reg;
    r, rest, nregs' := Take(free, nregs, reg, uses, i, RefCount(v, i));
    FreshWrite(v, i, free, nregs, reg, uses, pending, r);
  }

  lemma NodeDone(v: seq<Shape>, i: nat, free: seq<nat>, nregs: nat, before: map<nat, nat>, count: nat, reg: map<nat, nat>, uses: map<nat, int>)
    requires i < |v| && Ordered(v) && Upto(v, i, before, count) && Sound(v, i + 1, [], free, nregs, reg, uses) && count <= nregs
    requires if GetsRegister(v[i]) then i in reg && reg == before[i := reg[i]] && reg[i] < nregs && WriteOk(v, i, reg) else reg == before
    ensures Upto(v, i + 1, reg, nregs)
  {
    SoundApart(v, i + 1, free, nregs, reg, uses);
    UptoStep(v, i, before, count, reg, nregs);
  }

  lemma AllFree(v: seq<Shape>, free: seq<nat>, nregs: nat, reg: map<nat, nat>, uses: map<nat, int>)
    requires Sound(v, |v|, [], free, nregs, reg, uses)
    ensures forall r: nat :: r < nregs ==> r in free
  {
    forall r: nat | r < nregs ensures r in free {
      forall n ensures !Holds(reg, uses, n, r) {
        assert CountFrom(v, |v|, n) == 0 && CountIn([], n) == 0;
      }
    }
  }
}

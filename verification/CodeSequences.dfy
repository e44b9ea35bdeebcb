/** Code sequences as objects: instructions hold pointers to operands, copying an instruction shares
    them, and relocation bumps address operands in place. */
module CodeSequences {
  import opened Machine
  import opened Relocation

  class Operand {
    var val: nat

    constructor (v: nat)
      ensures val == v
    {
      val := v;
    }
  }

  /** The operands that hold an address, by source position. */
  function Tokens(i: Instruction): set<nat> {
    match i
    case Branch(_) => {0}
    case BranchTrue(_, _) => {1}
    case BranchFalse(_, _) => {1}
    case Try(_, _) => {0, 1}
    case Foreach(_, _, _, _) => {2}
    case _ => {}
  }

  /** An element of the code vector; src holds the address operands. */
  datatype Cell = Cell(ins: Instruction, src: map<nat, Operand>) {
    ghost predicate Valid() {
      Tokens(ins) <= src.Keys && forall t, u :: t in Tokens(ins) && u in Tokens(ins) && t != u ==> src[t] != src[u]
    }

    /** The operands that relocation touches. */
    ghost function Addresses(): set<Operand>
      requires Valid()
    {
      set t | t in Tokens(ins) :: src[t]
    }

    /** What the virtual machine executes. */
    ghost function Value(): Instruction
      requires Valid()
      reads Addresses()
    {
      assert forall t :: t in Tokens(ins) ==> src[t] in Addresses();
      match ins
      case Branch(_) => Branch(src[0].val)
      case BranchTrue(a, _) => BranchTrue(a, src[1].val)
      case BranchFalse(a, _) => BranchFalse(a, src[1].val)
      case Try(_, _) => Try(src[0].val, src[1].val)
      case Foreach(x, a, hi, _) => Instruction.Foreach(x, a, hi, src[2].val)
      case _ => ins
    }
  }

  /** No two instructions share an address operand. */
  ghost predicate Unshared(code: seq<Cell>) {
    && (forall i :: 0 <= i < |code| ==> code[i].Valid())
    && (forall i, j :: 0 <= i < j < |code| ==> code[i].Addresses() !! code[j].Addresses())
  }

  ghost function AllAddresses(code: seq<Cell>): set<Operand>
    requires Unshared(code)
  {
    set i, o | 0 <= i < |code| && o in code[i].Addresses() :: o
  }

  /** The cells of code stand for the instructions of c. */
  ghost predicate Denotes(code: seq<Cell>, c: seq<Instruction>)
    requires Unshared(code)
    reads AllAddresses(code)
  {
    |code| == |c| && forall i :: 0 <= i < |code| ==> Stands(code, c, i)
  }

  ghost predicate Stands(code: seq<Cell>, c: seq<Instruction>, i: int)
    requires Unshared(code) && 0 <= i < |code| == |c|
    reads AllAddresses(code)
  {
    assert code[i].Addresses() <= AllAddresses(code);
    code[i].Value() == c[i]
  }

  /** The switch of relocate on one instruction. */
  method BumpCell(c: Cell, offset: nat)
    requires c.Valid()
    modifies c.Addresses()
    ensures c.Value() == Bump(old(c.Value()), offset)
  {
    match c.ins
    case Branch(_) => AddTo(c.src[0], offset);
    case BranchTrue(_, _) => AddTo(c.src[1], offset);
    case BranchFalse(_, _) => AddTo(c.src[1], offset);
    case Try(_, _) =>
      AddTo(c.src[0], offset);
      AddTo(c.src[1], offset);
    case Foreach(_, _, _, _) => AddTo(c.src[2], offset);
    case _ =>
  }

  method AddTo(o: Operand, offset: nat)
    modifies o
    ensures o.val == old(o.val) + offset
  {
    o.val := o.val + offset;
  }

  /** The cells from index on have been bumped. */
  ghost predicate Bumped(cells: seq<Cell>, c: seq<Instruction>, index: nat, offset: nat)
    requires Unshared(cells) && |cells| == |c|
    reads AllAddresses(cells)
  {
    forall i :: 0 <= i < |cells| ==> StandsBumped(cells, c, index, offset, i)
  }

  ghost predicate StandsBumped(cells: seq<Cell>, c: seq<Instruction>, index: nat, offset: nat, i: int)
    requires Unshared(cells) && 0 <= i < |cells| == |c|
    reads AllAddresses(cells)
  {
    assert cells[i].Addresses() <= AllAddresses(cells);
    cells[i].Value() == if i < index then c[i] else Bump(c[i], offset)
  }

  lemma NotYetBumped(cells: seq<Cell>, c: seq<Instruction>, offset: nat)
    requires Unshared(cells) && Denotes(cells, c)
    ensures Bumped(cells, c, |cells|, offset)
  {
    forall i | 0 <= i < |cells| ensures StandsBumped(cells, c, |cells|, offset, i) {
      assert Stands(cells, c, i);
    }
  }

  /** Bumping one cell leaves the others alone: they have different operands. */
  method BumpNext(cell: Cell, ghost cells: seq<Cell>, ghost c: seq<Instruction>, ghost index: nat, offset: nat)
    requires Unshared(cells) && index < |cells| == |c| && cell == cells[index]
    requires Bumped(cells, c, index + 1, offset)
    modifies AllAddresses(cells)
    ensures Bumped(cells, c, index, offset)
  {
    assert cell.Addresses() <= AllAddresses(cells);
    ghost var next := index + 1;
    assert forall i :: 0 <= i < |cells| ==> StandsBumped(cells, c, next, offset, i);
    BumpCell(cell, offset);
    forall i | 0 <= i < |cells| ensures StandsBumped(cells, c, index, offset, i) {
      assert old(StandsBumped(cells, c, index + 1, offset, i));
      if i != index {
        assert cells[i].Addresses() !! cell.Addresses();
        assert cells[i].Value() == old(cells[i].Value());
      }
    }
  }

  /** Copy the cells from start on to their new places, from the last to the first, and bump each. */
  method MoveCells(cells: seq<Cell>, start: nat, offset: nat, ghost c: seq<Instruction>) returns (code: seq<Cell>)
    requires Unshared(cells) && Denotes(cells, c) && start <= |cells|
    modifies AllAddresses(cells)
    ensures |code| == |cells| + offset && code[..start] == cells[..start] && code[start + offset..] == cells[start..]
    ensures Bumped(cells, c, start, offset)
  {
    hide Unshared, Stands, StandsBumped;
    code := cells + seq(offset, _ => Cell(Nop, map[]));
    var index := |cells|;
    NotYetBumped(cells, c, offset);
    while index > start
      invariant start <= index <= |cells| && |code| == |cells| + offset
      invariant code[..index] == cells[..index] && code[index + offset..] == cells[index..]
      invariant Bumped(cells, c, index, offset)
    {
      index := index - 1;
      MoveStep(cells, code, index, offset);
      code := code[index + offset := code[index]];
      BumpNext(code[index + offset], cells, c, index, offset);
    }
  }

  lemma MoveStep(cells: seq<Cell>, code: seq<Cell>, index: nat, offset: nat)
    requires index < |cells| && |code| == |cells| + offset
    requires code[..index + 1] == cells[..index + 1] && code[index + 1 + offset..] == cells[index + 1..]
    ensures var code' := code[index + offset := code[index]];
            code'[..index] == cells[..index] && code'[index + offset..] == cells[index..] && code'[index + offset] == cells[index]
  {
    var code' := code[index + offset := code[index]];
    assert code[index] == code[..index + 1][index];
    assert code'[index + offset..] == [code[index]] + code[index + 1 + offset..];
    assert cells[index..] == [cells[index]] + cells[index + 1..];
    assert code'[..index] == code[..index + 1][..index];
  }

  /** The vector after the move: the prefix, NOPs that may still hold old operands, the moved cells. */
  ghost predicate MovedCells(cells: seq<Cell>, start: nat, offset: nat, code: seq<Cell>)
    requires start <= |cells|
  {
    && |code| == |cells| + offset
    && (forall i :: 0 <= i < start ==> code[i] == cells[i])
    && (forall i :: start <= i < start + offset ==> code[i].ins == Nop)
    && (forall i: nat {:trigger cells[i]} :: start <= i < |cells| ==> code[i + offset] == cells[i])
  }

  lemma SlicesMoved(cells: seq<Cell>, start: nat, offset: nat, moved: seq<Cell>, code: seq<Cell>)
    requires start <= |cells| && |moved| == |cells| + offset == |code|
    requires moved[..start] == cells[..start] && moved[start + offset..] == cells[start..]
    requires forall i :: 0 <= i < |code| ==> code[i] == if start <= i < start + offset then moved[i].(ins := Nop) else moved[i]
    ensures MovedCells(cells, start, offset, code)
  {
    forall i: nat | start <= i < |cells| ensures code[i + offset] == cells[i] {
      assert moved[start + offset..][i - start] == cells[start..][i - start];
    }
    forall i | 0 <= i < start ensures code[i] == cells[i] {
      assert moved[..start][i] == cells[..start][i];
    }
  }

  lemma MovedUnshared(cells: seq<Cell>, start: nat, offset: nat, code: seq<Cell>)
    requires Unshared(cells) && start <= |cells| && MovedCells(cells, start, offset, code)
    ensures Unshared(code) && AllAddresses(code) == AllAddresses(cells)
  {
    forall i | 0 <= i < |code| ensures code[i].Valid() {
      if i >= start + offset { assert code[i] == cells[i - offset]; }
    }
    forall i, j | 0 <= i < j < |code| ensures code[i].Addresses() !! code[j].Addresses() {
      if i >= start + offset { assert code[i] == cells[i - offset]; }
      if j >= start + offset { assert code[j] == cells[j - offset]; }
    }
    forall o ensures o in AllAddresses(code) <==> o in AllAddresses(cells) {
      if o in AllAddresses(code) {
        var i :| 0 <= i < |code| && o in code[i].Addresses();
        if i >= start + offset { assert code[i] == cells[i - offset]; }
      }
      if o in AllAddresses(cells) {
        var i :| 0 <= i < |cells| && o in cells[i].Addresses();
        if i >= start { assert code[i + offset] == cells[i]; }
      }
    }
  }

  lemma RelocatedCells(cells: seq<Cell>, c: seq<Instruction>, start: nat, offset: nat, code: seq<Cell>)
    requires Unshared(cells) && |cells| == |c| && start <= |cells| && Bumped(cells, c, start, offset)
    requires MovedCells(cells, start, offset, code)
    ensures Unshared(code) && AllAddresses(code) == AllAddresses(cells) && Denotes(code, Relocated(c, start, offset))
  {
    hide Bump;
    MovedUnshared(cells, start, offset, code);
    RelocatedAt(c, start, offset);
    forall i | 0 <= i < |code| ensures Stands(code, Relocated(c, start, offset), i) {
      if i < start {
        assert StandsBumped(cells, c, start, offset, i);
      } else if i >= start + offset {
        assert StandsBumped(cells, c, start, offset, i - offset) && code[i] == cells[i - offset];
        assert c[i - offset] == c[i - offset];
      }
    }
  }

  class CodeSequence {
    var code: seq<Cell>
    var nregs: nat
    var codestart: nat

    constructor (code: seq<Cell>, nregs: nat, codestart: nat)
      ensures this.code == code && this.nregs == nregs && this.codestart == codestart
    {
      this.code, this.nregs, this.codestart := code, nregs, codestart;
    }

    /** Make room for n more instructions. */
    method Resize(n: nat)
      modifies this`code
      ensures |code| == |old(code)| + n && code[..|old(code)|] == old(code)
    {
      code := code + seq(n, _ => Cell(Nop, map[]));
    }

    /** Move the code from start on forward by offset; the operands of moved branches are shared with the
        old copies and bumped in place, and the gap becomes NOPs. */
    method Relocate(start: nat, offset: nat, ghost c: seq<Instruction>)
      requires Unshared(code) && Denotes(code, c) && start <= |code|
      modifies this`code, AllAddresses(code)
      ensures Unshared(code) && AllAddresses(code) == old(AllAddresses(code)) && Denotes(code, Relocated(c, start, offset))
      ensures |code| == |old(code)| + offset
    {
      hide MovedCells;
      ghost var cells := code;
      var moved := MoveCells(code, start, offset, c);
      NotAnOperand(AllAddresses(cells));
      code := moved;
      FillHole(start, offset);
      SlicesMoved(cells, start, offset, moved, code);
      RelocatedCells(cells, c, start, offset, code);
    }

    method FillHole(start: nat, offset: nat)
      requires start + offset <= |code|
      modifies this`code
      ensures |code| == |old(code)|
      ensures forall i :: 0 <= i < |code| ==> code[i] == if start <= i < start + offset then old(code)[i].(ins := Nop) else old(code)[i]
    {
      var index := start;
      while index < start + offset
        invariant start <= index <= start + offset && |code| == |old(code)|
        invariant forall i :: 0 <= i < |code| ==> code[i] == if start <= i < index then old(code)[i].(ins := Nop) else old(code)[i]
      {
        code := code[index := code[index].(ins := Nop)];
        index := index + 1;
      }
    }

    /** relocate with movecode == false: only the operands change. */
    method RelocateInPlace(offset: nat, ghost c: seq<Instruction>)
      requires Unshared(code) && Denotes(code, c)
      modifies AllAddresses(code)
      ensures Denotes(code, Shifted(c, offset))
    {
      var index := |code|;
      NotYetBumped(code, c, offset);
      while index > 0
        invariant 0 <= index <= |code| && Bumped(code, c, index, offset)
      {
        index := index - 1;
        BumpNext(code[index], code, c, index, offset);
      }
      forall i | 0 <= i < |code| ensures Stands(code, Shifted(c, offset), i) {
        assert StandsBumped(code, c, 0, offset, i);
      }
    }

    /** Copy the cells p over those from position s on; the operands are shared from then on. */
    method Overwrite(s: nat, p: seq<Cell>)
      requires s + |p| <= |code|
      modifies this`code
      ensures code == old(code)[..s] + p + old(code)[s + |p|..]
    {
      var i := 0;
      while i < |p|
        invariant 0 <= i <= |p| && |code| == |old(code)|
        invariant code == old(code)[..s] + p[..i] + old(code)[s + i..]
      {
        code := code[s + i := p[i]];
        i := i + 1;
      }
      assert p[..i] == p;
    }

    /** append: the parameter code goes into a gap made at codestart, the extension over the END. */
    method Append(x: Extension, ghost c: seq<Instruction>, ghost para: seq<Instruction>, ghost ext: seq<Instruction>)
      requires this != x.code && this != x.paracode && x.code != x.paracode
      requires Unshared(code) && Unshared(x.paracode.code) && Unshared(x.code.code)
      requires AllAddresses(code) !! AllAddresses(x.paracode.code) && AllAddresses(x.code.code) !! AllAddresses(code) + AllAddresses(x.paracode.code)
      requires Denotes(code, c) && Denotes(x.paracode.code, para) && Denotes(x.code.code, ext) && codestart < |code|
      modifies this, AllAddresses(code), AllAddresses(x.code.code)
      ensures Unshared(code) && Denotes(code, Appended(c, old(codestart), para, ext))
      ensures codestart == old(codestart) + (if para == [] then 0 else x.caststart)
      ensures nregs == if x.nregs > old(nregs) then x.nregs else old(nregs)
    {
      InsertPara(x.paracode.code, x.caststart, c, para);
      Extend(x.code, Inserted(c, old(codestart), para), ext);
      NotAnOperand(AllAddresses(code));
      if x.nregs > nregs {
        nregs := x.nregs;
      }
    }

    lemma NotAnOperand(s: set<Operand>)
      ensures forall o :: o in s ==> o as object != this
    {}

    /** The first half of append. */
    method InsertPara(p: seq<Cell>, caststart: nat, ghost c: seq<Instruction>, ghost para: seq<Instruction>)
      requires Unshared(code) && Denotes(code, c) && codestart < |code|
      requires Unshared(p) && Denotes(p, para) && AllAddresses(code) !! AllAddresses(p)
      modifies this`code, this`codestart, AllAddresses(code)
      ensures Unshared(code) && AllAddresses(code) == old(AllAddresses(code)) + AllAddresses(p)
      ensures Denotes(code, Inserted(c, old(codestart), para)) && |code| > 0
      ensures codestart == old(codestart) + if para == [] then 0 else caststart
    {
      hide Inserted, Relocated;
      InsertedNone(c, codestart);
      if |p| > 0 {
        Relocate(codestart, |p|, c);
        ghost var cells := code;
        Overwrite(codestart, p);
        ParaCells(cells, c, codestart, p, para, code);
        codestart := codestart + caststart;
      }
    }

    /** The second half of append. */
    method Extend(x: CodeSequence, ghost c: seq<Instruction>, ghost ext: seq<Instruction>)
      requires this != x && Unshared(code) && Denotes(code, c) && |code| > 0
      requires Unshared(x.code) && Denotes(x.code, ext) && AllAddresses(code) !! AllAddresses(x.code)
      modifies this`code, AllAddresses(x.code)
      ensures Unshared(code) && Denotes(code, Extended(c, ext))
    {
      if |x.code| > 0 {
        var oldsize := |code|;
        ghost var cells := code;
        x.RelocateInPlace(oldsize - 1, ext);
        assert Denotes(cells, c);
        Resize(|x.code| - 1);
        Overwrite(oldsize - 1, x.code);
        ExtensionCells(cells, c, x.code, ext, code);
      }
    }
  }

  /** What append adds to a sequence. */
  class Extension {
    const paracode: CodeSequence
    const code: CodeSequence
    const caststart: nat
    const nregs: nat

    constructor (paracode: CodeSequence, code: CodeSequence, caststart: nat, nregs: nat)
    {
      this.paracode, this.code, this.caststart, this.nregs := paracode, code, caststart, nregs;
    }
  }

  lemma InsertedNone(c: seq<Instruction>, cs: nat)
    requires cs <= |c|
    ensures Inserted(c, cs, []) == c
  {}

  lemma ParaCells(cells: seq<Cell>, c: seq<Instruction>, cs: nat, p: seq<Cell>, para: seq<Instruction>, code: seq<Cell>)
    requires Unshared(cells) && Unshared(p) && AllAddresses(cells) !! AllAddresses(p)
    requires cs <= |c| && |p| == |para| > 0 && Denotes(cells, Relocated(c, cs, |p|)) && Denotes(p, para)
    requires |cells| == |c| + |p| && code == cells[..cs] + p + cells[cs + |p|..]
    ensures |code| == |cells|
    ensures Unshared(code) && AllAddresses(code) == AllAddresses(cells) + AllAddresses(p) && Denotes(code, Inserted(c, cs, para))
  {
    hide Unshared, Relocated, Inserted, Bump, AllAddresses;
    RelocatedAt(c, cs, |p|);
    InsertedAt(c, cs, para);
    forall i | cs <= i < cs + |p| ensures cells[i].ins == Nop {
      CellIsNop(cells, Relocated(c, cs, |p|), i);
    }
    JoinedCells(cells, cs, p, code);
    forall i | 0 <= i < |code| ensures Stands(code, Inserted(c, cs, para), i) {
      if i < cs {
        assert Stands(cells, Relocated(c, cs, |p|), i) && code[i] == cells[i];
      } else if i < cs + |p| {
        assert Stands(p, para, i - cs) && code[i] == p[i - cs];
        assert Inserted(c, cs, para)[cs + (i - cs)] == para[i - cs];
      } else {
        var k := i - |p|;
        assert Stands(cells, Relocated(c, cs, |p|), i) && code[i] == cells[i];
        assert Relocated(c, cs, |p|)[k + |p|] == Bump(c[k], |p|) && Inserted(c, cs, para)[k + |p|] == Bump(c[k], |p|);
      }
    }
  }

  lemma CellIsNop(cells: seq<Cell>, c: seq<Instruction>, i: nat)
    requires Unshared(cells) && Denotes(cells, c) && i < |c| && c[i] == Nop
    ensures cells[i].ins == Nop
  {
    assert Stands(cells, c, i);
  }

  /** Putting foreign cells over cells without address operands shares nothing. */
  lemma JoinedCells(cells: seq<Cell>, s: nat, p: seq<Cell>, code: seq<Cell>)
    requires Unshared(cells) && Unshared(p) && AllAddresses(cells) !! AllAddresses(p) && s + |p| <= |cells|
    requires code == cells[..s] + p + cells[s + |p|..]
    requires forall i :: s <= i < s + |p| ==> cells[i].ins == Nop
    ensures Unshared(code) && AllAddresses(code) == AllAddresses(cells) + AllAddresses(p)
  {
    assert forall i :: 0 <= i < |code| ==> code[i] == if s <= i < s + |p| then p[i - s] else cells[i];
    forall i, j | 0 <= i < j < |code| ensures code[i].Addresses() !! code[j].Addresses() {
      if (s <= i < s + |p|) != (s <= j < s + |p|) {
        Foreign(cells, p, if s <= i < s + |p| then j else i, if s <= i < s + |p| then i - s else j - s);
      }
    }
    forall o ensures o in AllAddresses(code) <==> o in AllAddresses(cells) + AllAddresses(p) {
      if o in AllAddresses(p) {
        var i :| 0 <= i < |p| && o in p[i].Addresses();
        assert code[s + i] == p[i];
      } else if o in AllAddresses(cells) {
        var i :| 0 <= i < |cells| && o in cells[i].Addresses();
        assert code[i] == cells[i];
      }
    }
  }

  lemma Foreign(cells: seq<Cell>, p: seq<Cell>, i: nat, j: nat)
    requires Unshared(cells) && Unshared(p) && AllAddresses(cells) !! AllAddresses(p) && i < |cells| && j < |p|
    ensures cells[i].Addresses() !! p[j].Addresses()
  {
    assert cells[i].Addresses() <= AllAddresses(cells);
    assert p[j].Addresses() <= AllAddresses(p);
  }

  lemma ExtensionCells(cells: seq<Cell>, c: seq<Instruction>, x: seq<Cell>, ext: seq<Instruction>, code: seq<Cell>)
    requires Unshared(cells) && Unshared(x) && AllAddresses(cells) !! AllAddresses(x)
    requires |cells| == |c| > 0 && |x| == |ext| > 0 && Denotes(cells, c) && Denotes(x, Shifted(ext, |c| - 1))
    requires code == cells[..|c| - 1] + x
    ensures Unshared(code) && Denotes(code, Extended(c, ext))
  {
    hide Extended, Bump, AllAddresses;
    ExtendedAt(c, ext);
    var n := |c| - 1;
    assert forall i :: 0 <= i < |code| ==> code[i] == if i < n then cells[i] else x[i - n];
    assert Unshared(code) by {
      forall i, j | 0 <= i < j < |code| ensures code[i].Addresses() !! code[j].Addresses() {
        if i < n <= j { Foreign(cells, x, i, j - n); }
      }
    }
    forall i | 0 <= i < |code| ensures Stands(code, Extended(c, ext), i) {
      if i < n {
        assert Stands(cells, c, i);
      } else {
        assert Stands(x, Shifted(ext, n), i - n);
        assert Extended(c, ext)[n + (i - n)] == Bump(ext[i - n], n);
      }
    }
  }
}

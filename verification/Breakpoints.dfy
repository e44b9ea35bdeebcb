/** Breakpoints patch the opcode of an instruction and keep the original; execution resolves them. */
module Breakpoints {
  import opened Values
  import M = Machine

  /** What stands in an instruction: the operation compiled, or the opcode of a breakpoint over it. */
  datatype Opcode = Original(op: M.Instruction) | Patched

  class Instruction {
    var opcode: Opcode

    constructor (op: M.Instruction)
      ensures opcode == Original(op)
    {
      opcode := Original(op);
    }
  }

  class Breakpoint {
    const inst: Instruction
    const opcode: Opcode
    var disabled: bool

    /** Only where there is no breakpoint yet. */
    constructor (inst: Instruction)
      requires inst.opcode != Patched
      modifies inst
      ensures this.inst == inst && opcode == old(inst.opcode) && !disabled && inst.opcode == Patched
    {
      this.inst, opcode, disabled := inst, inst.opcode, false;
      new;
      inst.opcode := Patched;
    }

    /** The destructor. */
    method Delete()
      modifies inst
      ensures inst.opcode == if disabled then old(inst.opcode) else opcode
    {
      if !disabled {
        inst.opcode := opcode;
      }
    }

    method Disable()
      modifies this, inst
      ensures disabled && inst.opcode == if old(disabled) then old(inst.opcode) else opcode
    {
      if !disabled {
        disabled := true;
        inst.opcode := opcode;
      }
    }

    method Enable()
      modifies this, inst
      ensures !disabled && inst.opcode == if old(disabled) then Patched else old(inst.opcode)
    {
      if disabled {
        disabled := false;
        inst.opcode := Patched;
      }
    }
  }

  /** What the debugger knows about the program: each instruction as it was compiled. */
  type Program = map<Instruction, M.Instruction>

  class Debugger {
    var breakpoints: seq<Breakpoint?>
    ghost const program: Program

    constructor (ghost program: Program)
      requires forall i :: i in program ==> i.opcode == Original(program[i])
      ensures Valid() && this.program == program && breakpoints == []
    {
      breakpoints, this.program := [], program;
    }

    /** Breakpoint k exists and stands at instruction i. */
    ghost predicate At(k: int, i: Instruction)
      reads this
    {
      0 <= k < |breakpoints| && breakpoints[k] != null && breakpoints[k].inst == i
    }

    ghost predicate Live(k: int)
      reads this
    {
      0 <= k < |breakpoints| && breakpoints[k] != null
    }

    /** Every instruction holds its own opcode, or a patch that an enabled breakpoint accounts for. */
    ghost predicate Valid()
      reads this, program.Keys, set b | b in breakpoints && b != null
    {
      && (forall k :: Live(k) ==> breakpoints[k].inst in program && breakpoints[k].opcode == Original(program[breakpoints[k].inst]))
      && (forall j, k :: Live(j) && Live(k) && j != k ==> breakpoints[j] != breakpoints[k])
      && (forall i :: i in program ==> i.opcode == Original(program[i]) || (i.opcode == Patched && exists k :: Enabled(k, i)))
    }

    ghost predicate Enabled(k: int, i: Instruction)
      reads this, set b | b in breakpoints && b != null
    {
      At(k, i) && !breakpoints[k].disabled
    }

    /** No instruction has two breakpoints. */
    ghost predicate Alone()
      reads this
    {
      forall j, k :: Live(j) && Live(k) && j != k ==> breakpoints[j].inst != breakpoints[k].inst
    }

    /** Every enabled breakpoint is in place: execution stops at it. */
    ghost predicate InPlace()
      reads this, set b | b in breakpoints && b != null, set b | b in breakpoints && b != null :: b.inst
    {
      forall k :: Live(k) && !breakpoints[k].disabled ==> breakpoints[k].inst.opcode == Patched
    }

    /** Another enabled breakpoint stands where breakpoint n stands. */
    ghost predicate Shared(n: int)
      requires Live(n)
      reads this, set b | b in breakpoints && b != null
    {
      exists k :: k != n && Enabled(k, breakpoints[n].inst)
    }

    ghost predicate Armed()
      reads this, set b | b in breakpoints && b != null, set b | b in breakpoints && b != null :: b.inst
    {
      Alone() && InPlace()
    }

    /** The opcode the interpreter executes is the one that was compiled, breakpoint or not: execution
        proceeds as if there were none. */
    method Fetch(ir: Instruction) returns (op: M.Instruction)
      requires Valid() && ir in program
      ensures op == program[ir]
    {
      var o := ir.opcode;
      if o == Patched {
        o := FindBreakpointOp(ir);
      }
      op := o.op;
    }

    /** findBreakpointOp: the first breakpoint at the instruction knows the opcode. */
    method FindBreakpointOp(inst: Instruction) returns (o: Opcode)
      requires Valid() && inst in program && inst.opcode == Patched
      ensures o == Original(program[inst])
    {
      var i := 0;
      ghost var k :| Enabled(k, inst);
      while breakpoints[i] == null || breakpoints[i].inst != inst
        invariant 0 <= i <= k
        decreases k - i
      {
        i := i + 1;
      }
      assert Live(i);
      o := breakpoints[i].opcode;
    }

    /** "stop at": refused when the instruction is patched already. */
    method SetBreakpoint(inst: Instruction) returns (ok: bool)
      requires Valid() && inst in program
      modifies this, inst
      ensures Valid() && ok == (old(inst.opcode) != Patched)
      ensures ok ==> Enabled(|breakpoints| - 1, inst) && fresh(breakpoints[|breakpoints| - 1])
      ensures old(InPlace()) ==> InPlace()
      ensures old(Armed()) ==> (Armed() <==> !ok || !old(exists k :: At(k, inst)))
      ensures if ok then inst.opcode == Patched && |breakpoints| == |old(breakpoints)| + 1 && breakpoints[..|old(breakpoints)|] == old(breakpoints)
              else inst.opcode == Patched && breakpoints == old(breakpoints)
    {
      ok := inst.opcode != Patched;
      if ok {
        var b := new Breakpoint(inst);
        breakpoints := breakpoints + [b];
        assert Enabled(|breakpoints| - 1, inst);
        AloneAfter(inst);
        forall i | i in program && i != inst && i.opcode == Patched ensures exists k :: Enabled(k, i) {
          assert old(i.opcode) == Patched;
          var k :| old(Enabled(k, i));
          assert Enabled(k, i);
        }
      }
    }

    twostate lemma AloneAfter(inst: Instruction)
      requires |breakpoints| == |old(breakpoints)| + 1 && breakpoints[..|old(breakpoints)|] == old(breakpoints)
      requires At(|old(breakpoints)|, inst)
      ensures old(Alone()) ==> (Alone() <==> !old(exists k :: At(k, inst)))
    {
      var n := |old(breakpoints)|;
      forall k | 0 <= k < n ensures breakpoints[k] == old(breakpoints)[k] {
        assert breakpoints[..n][k] == breakpoints[k];
      }
      if k :| old(At(k, inst)) {
        assert Live(k) && Live(n) && breakpoints[k].inst == breakpoints[n].inst;
      }
      forall k | Live(k) && k < n && !old(exists k :: At(k, inst)) ensures breakpoints[k].inst != inst {
        assert !old(At(k, inst));
      }
    }

    /** An enabled breakpoint that is disabled takes the patch away, which every other enabled one at the
        instruction needs. */
    method Disable(n: nat)
      requires Valid() && Live(n)
      modifies breakpoints[n], breakpoints[n].inst
      ensures Valid() && breakpoints[n].disabled && (old(Armed()) ==> Armed())
      ensures old(InPlace()) ==> (InPlace() <==> old(breakpoints[n].disabled || !Shared(n)))
      ensures breakpoints[n].inst.opcode == if old(breakpoints[n].disabled) then old(breakpoints[n].inst.opcode) else Original(program[breakpoints[n].inst])
    {
      var b := breakpoints[n];
      b.Disable();
      if old(InPlace() && !b.disabled && Shared(n)) {
        var k :| k != n && old(Enabled(k, b.inst));
        assert Live(k) && !breakpoints[k].disabled && breakpoints[k].inst == b.inst;
      }
      forall k | old(InPlace() && (b.disabled || !Shared(n))) && Live(k) && !breakpoints[k].disabled ensures breakpoints[k].inst.opcode == Patched {
        assert k != n ==> old(Enabled(k, breakpoints[k].inst));
      }
      forall i | i in program && i.opcode == Patched ensures exists k :: Enabled(k, i) {
        assert old(i.opcode) == Patched;
        var k :| old(Enabled(k, i));
        assert k != n;
        assert Enabled(k, i);
      }
    }

    method Enable(n: nat)
      requires Valid() && Live(n)
      modifies breakpoints[n], breakpoints[n].inst
      ensures Valid() && !breakpoints[n].disabled && (old(Armed()) ==> Armed()) && (old(InPlace()) ==> InPlace())
      ensures breakpoints[n].inst.opcode == if old(breakpoints[n].disabled) then Patched else old(breakpoints[n].inst.opcode)
    {
      var b := breakpoints[n];
      b.Enable();
      forall i | i in program && i.opcode == Patched ensures exists k :: Enabled(k, i) {
        if i == b.inst {
          assert Enabled(n, i);
        } else {
          assert old(i.opcode) == Patched;
          var k :| old(Enabled(k, i));
          assert Enabled(k, i);
        }
      }
    }

    /** Delete one breakpoint, if it is there. */
    method DeleteBreakpoint(n: nat)
      requires Valid() && n < |breakpoints|
      modifies this, if breakpoints[n] != null then {breakpoints[n].inst} else {}
      ensures Valid() && breakpoints == old(breakpoints)[n := null] && (old(Armed()) ==> Armed())
      ensures old(InPlace()) ==> (InPlace() <==> old(breakpoints)[n] == null || old(breakpoints[n].disabled || !Shared(n)))
      ensures old(breakpoints)[n] != null && !old(breakpoints[n].disabled) ==>
                old(breakpoints)[n].inst.opcode == Original(program[old(breakpoints)[n].inst])
      ensures old(breakpoints)[n] != null && old(breakpoints[n].disabled) ==> old(breakpoints)[n].inst.opcode == old(breakpoints[n].inst.opcode)
    {
      var b := breakpoints[n];
      if b != null {
        b.Delete();
        breakpoints := breakpoints[n := null];
        assert old(InPlace()) ==> (InPlace() <==> b.disabled || !old(Shared(n))) by {
          if old(InPlace() && !b.disabled && Shared(n)) {
            var k :| k != n && old(Enabled(k, b.inst));
            assert Live(k) && !breakpoints[k].disabled && breakpoints[k].inst == b.inst;
          }
          forall k | old(InPlace() && (b.disabled || !Shared(n))) && Live(k) && !breakpoints[k].disabled ensures breakpoints[k].inst.opcode == Patched {
            assert k != n && old(Enabled(k, breakpoints[k].inst));
          }
        }
        assert old(Alone()) ==> Alone() && !old(Shared(n));
        forall i | i in program && i.opcode == Patched ensures exists k :: Enabled(k, i) {
          assert old(i.opcode) == Patched;
          var k :| old(Enabled(k, i));
          assert k != n;
          assert Enabled(k, i);
        }
      }
    }

    /** clear n; n == 0 clears all of them, and the program is as it was compiled. */
    method Clear(n: nat)
      requires Valid()
      modifies this, program.Keys
      ensures Valid() && |breakpoints| == |old(breakpoints)|
      ensures n == 0 ==> (forall k :: 0 <= k < |breakpoints| ==> breakpoints[k] == null) && forall i :: i in program ==> i.opcode == Original(program[i])
      ensures n > |old(breakpoints)| ==> breakpoints == old(breakpoints) && forall i :: i in program ==> i.opcode == old(i.opcode)
      ensures 0 < n <= |old(breakpoints)| ==> breakpoints == old(breakpoints)[n - 1 := null]
    {
      if n == 0 {
        var i := 0;
        while i < |breakpoints|
          invariant 0 <= i <= |breakpoints| == |old(breakpoints)| && Valid()
          invariant forall k :: 0 <= k < i ==> breakpoints[k] == null
        {
          DeleteBreakpoint(i);
          i := i + 1;
        }
      } else if n <= |breakpoints| {
        DeleteBreakpoint(n - 1);
      }
    }
  }

  // ----- running under the debugger -----

  /** What a user can enter while the program stands still; breakpoint numbers count from 1, and 0 means
      all of them. */
  datatype Command = StopAt(address: nat) | EnableNumber(n: nat) | DisableNumber(n: nat) | ClearNumber(n: nat)

  /** The instructions in the order of the code, each its own. */
  ghost predicate Lists(d: Debugger, cells: seq<Instruction>, code: seq<M.Instruction>) {
    |cells| == |code| && (forall i :: 0 <= i < |cells| ==> cells[i] in d.program && d.program[cells[i]] == code[i])
  }

  /** Breakpoint k of the table is the same, and enabled or disabled, as before. */
  twostate predicate Untouched(d: Debugger, k: int)
    reads d, set b | b in d.breakpoints && b != null
  {
    old(d.Live(k)) ==> d.Live(k) && d.breakpoints[k] == old(d.breakpoints)[k] && d.breakpoints[k].disabled == old(d.breakpoints[k].disabled)
  }

  /** No breakpoint that the number stands for was cleared. */
  ghost predicate Found(table: seq<Breakpoint?>, n: nat) {
    if n == 0 then forall k :: 0 <= k < |table| ==> table[k] != null else n <= |table| ==> table[n - 1] != null
  }

  /** enable and disable, of all breakpoints or of one.  A breakpoint that was cleared is not looked for:
      the debugger crashes. */
  method ControlBreakpoint(d: Debugger, enable: bool, n: nat) returns (ok: bool)
    requires d.Valid()
    modifies d.program.Keys, set b | b in d.breakpoints && b != null
    ensures d.Valid() && d.breakpoints == old(d.breakpoints)
    ensures ok <==> Found(d.breakpoints, n)
    ensures ok ==> forall k :: d.Live(k) ==> if n == 0 || k == n - 1 then d.breakpoints[k].disabled == !enable else Untouched(d, k)
  {
    hide Debugger.Armed, Debugger.InPlace, Debugger.Alone, Debugger.Shared;
    if n == 0 {
      var i := 0;
      while i < |d.breakpoints|
        invariant 0 <= i <= |d.breakpoints| && d.Valid()
        invariant forall k :: 0 <= k < i ==> d.Live(k) && d.breakpoints[k].disabled == !enable
      {
        ok := ControlOne(d, enable, i);
        if !ok { return; }
        i := i + 1;
      }
      ok := true;
    } else if n > |d.breakpoints| {
      ok := true;
    } else {
      ok := ControlOne(d, enable, n - 1);
    }
  }

  method ControlOne(d: Debugger, enable: bool, i: nat) returns (ok: bool)
    requires d.Valid() && i < |d.breakpoints|
    modifies d.program.Keys, if d.breakpoints[i] != null then {d.breakpoints[i]} else {}
    ensures d.Valid() && ok == (d.breakpoints[i] != null) && (ok ==> d.breakpoints[i].disabled == !enable)
  {
    ok := d.breakpoints[i] != null;
    if ok && enable {
      d.Enable(i);
    } else if ok {
      d.Disable(i);
    }
  }

  /** Breakpoint n, or all for 0, is gone, and the others are as before. */
  twostate predicate Cleared(d: Debugger, n: nat)
    reads d, set b | b in d.breakpoints && b != null
  {
    && |d.breakpoints| == |old(d.breakpoints)|
    && forall k :: 0 <= k < |d.breakpoints| ==> if n == 0 || k == n - 1 then d.breakpoints[k] == null else Untouched(d, k) && (d.Live(k) <==> old(d.Live(k)))
  }

  /** clear, of all breakpoints or of one. */
  method ClearNumbered(d: Debugger, n: nat)
    requires d.Valid()
    modifies d, d.program.Keys
    ensures d.Valid() && Cleared(d, n)
  {
    hide Debugger.Valid;
    d.Clear(n);
    forall k | 0 <= k < |d.breakpoints| && n != 0 && k != n - 1 ensures Untouched(d, k) && (d.Live(k) <==> old(d.Live(k))) {
      assert d.breakpoints[k] == old(d.breakpoints)[k];
    }
  }

  /** One command of the debugger; false when it crashes.  "stop at" puts in a new breakpoint unless the
      address is patched; the other commands touch the breakpoint with the number, counted from 1, or all
      of them for number 0. */
  method Obey(d: Debugger, cells: seq<Instruction>, ghost code: seq<M.Instruction>, c: Command) returns (ok: bool)
    requires d.Valid() && Lists(d, cells, code)
    modifies d, d.program.Keys, set b | b in d.breakpoints && b != null
    ensures d.Valid() && forall b :: b in d.breakpoints && b != null ==> b in old(d.breakpoints) || fresh(b)
    ensures c.StopAt? ==>
              && ok && (forall k :: Untouched(d, k))
              && if c.address < |cells| && old(cells[c.address].opcode) != Patched
                 then |d.breakpoints| == |old(d.breakpoints)| + 1 && d.Enabled(|old(d.breakpoints)|, cells[c.address]) && cells[c.address].opcode == Patched
                 else d.breakpoints == old(d.breakpoints)
    ensures c.EnableNumber? && ok ==>
              && d.breakpoints == old(d.breakpoints)
              && forall k :: d.Live(k) ==> if c.n == 0 || k == c.n - 1 then !d.breakpoints[k].disabled else Untouched(d, k)
    ensures c.DisableNumber? && ok ==>
              && d.breakpoints == old(d.breakpoints)
              && forall k :: d.Live(k) ==> if c.n == 0 || k == c.n - 1 then d.breakpoints[k].disabled else Untouched(d, k)
    ensures c.EnableNumber? || c.DisableNumber? ==> (ok <==> Found(old(d.breakpoints), c.n))
    ensures c.ClearNumber? ==> ok && Cleared(d, c.n)
  {
    hide Debugger.Armed, Debugger.InPlace, Debugger.Alone, Debugger.Shared;
    ok := true;
    if c.EnableNumber? {
      ok := ControlBreakpoint(d, true, c.n);
    } else if c.DisableNumber? {
      ok := ControlBreakpoint(d, false, c.n);
    } else if c.ClearNumber? {
      ClearNumbered(d, c.n);
    } else if c.address < |cells| {
      var set_ := d.SetBreakpoint(cells[c.address]);
      forall k | old(d.Live(k)) ensures Untouched(d, k) {
        assert set_ ==> d.breakpoints[..|old(d.breakpoints)|][k] == d.breakpoints[k];
      }
    }
  }

  /** The program run by an interpreter that resolves breakpoints, with any commands entered before any
      of its instructions, does what the compiled program does. */
  method DebuggedRun(d: Debugger, cells: seq<Instruction>, ghost code: seq<M.Instruction>, s: M.State, commands: seq<seq<Command>>)
    returns (o: Option<M.Outcome>)
    requires d.Valid() && Lists(d, cells, code)
    modifies d, d.program.Keys, set b | b in d.breakpoints && b != null
    ensures d.Valid() && (o.Some? ==> o.value == M.Run(code, |commands|, s))
  {
    hide M.Execute, M.Run, Debugger.Valid;
    var now, i := M.Running(s), 0;
    M.NoRounds(code, s);
    while i < |commands|
      invariant 0 <= i <= |commands| && d.Valid() && now == M.Run(code, i, s)
      invariant forall b :: b in d.breakpoints && b != null ==> b in old(d.breakpoints) || fresh(b)
    {
      var j := 0;
      while j < |commands[i]|
        invariant 0 <= j <= |commands[i]| && d.Valid()
        invariant forall b :: b in d.breakpoints && b != null ==> b in old(d.breakpoints) || fresh(b)
      {
        var ok := Obey(d, cells, code, commands[i][j]);
        if !ok { return None; }
        j := j + 1;
      }
      if now.Running? {
        var t := now.s;
        M.OneMore(code, i, s);
        if t.pc >= |cells| {
          now := M.Stuck;
        } else {
          var op := d.Fetch(cells[t.pc]);
          now := M.Execute(op, t);
        }
      } else {
        M.RunHalted(code, i, i + 1, s);
      }
      i := i + 1;
    }
    o := Some(now);
  }

  // ----- two breakpoints at one instruction -----

  /** Two breakpoints on one instruction: the second is set while the first is disabled. */
  method TwoOnOne(d: Debugger, inst: Instruction) returns (n: nat)
    requires d.Valid() && inst in d.program && inst.opcode != Patched
    modifies d, inst
    ensures d.Valid() && inst.opcode == Patched && n == |old(d.breakpoints)| && |d.breakpoints| == n + 2
    ensures d.At(n, inst) && d.breakpoints[n].disabled && d.Enabled(n + 1, inst)
    ensures fresh(d.breakpoints[n]) && fresh(d.breakpoints[n + 1]) && d.breakpoints[n] != d.breakpoints[n + 1]
  {
    hide Debugger.Armed, Debugger.InPlace, Debugger.Alone, Debugger.Shared;
    n := |d.breakpoints|;
    var ok := d.SetBreakpoint(inst);
    var first := d.breakpoints[n];
    d.Disable(n);
    assert first.disabled;
    ok := d.SetBreakpoint(inst);
    assert d.breakpoints[n] == first;
  }

  /** With two breakpoints on one instruction, an enabled one can be out of place: deleting the second
      takes the patch away that the first relies on. */
  method LostPatch(d: Debugger, inst: Instruction) returns (n: nat)
    requires d.Valid() && inst in d.program && inst.opcode != Patched
    modifies d, inst
    ensures d.Valid() && d.Enabled(n, inst) && inst.opcode == Original(d.program[inst])
  {
    hide Debugger.Armed, Debugger.InPlace, Debugger.Alone, Debugger.Shared;
    n := TwoOnOne(d, inst);
    var first, second := d.breakpoints[n], d.breakpoints[n + 1];
    d.Enable(n);
    assert !first.disabled && d.breakpoints[n + 1] == second && !second.disabled;
    d.DeleteBreakpoint(n + 1);
    assert d.breakpoints[n] == first;
  }
}

/** The interpreter as it is written: execute is a fetch loop over the fields of the virtual machine,
    TRY and CALL run code in a nested execute, and POPSCOPE unwinds nested calls by throwing an int.
    Its runs are those of the flat machine with calls. */
module InterpreterLoop {
  import opened Values
  import opened Machine
  import opened Calls

  /** How execute comes back: an END or RET, an exception, an int thrown by POPSCOPE, no more fuel, or
      an undefined operation. */
  datatype Signal = Done(f: Final) | Raised(t: Thrown) | Unwind(levels: nat) | OutOfFuel | Crash

  /** What one instruction asks of the loop. */
  datatype Next = Continue | Leave(signal: Signal)

  /** Signals that execute can come back with: an int thrown is positive, END and RET are no exception. */
  predicate Proper(r: Signal) {
    r != Unwind(0) && !(r.Done? && r.f.Uncaught?)
  }

  /** The course of the flat machine that corresponds to a signal, when in the running routine f the dotry
      calls around this execute are outer, and callers wait for the routine. */
  function Delivered(f: nat, s: State, outer: seq<TryRecord>, callers: seq<Caller>, r: Signal): Course
    requires !r.OutOfFuel?
  {
    match r
    case Done(final) => Onward(f, s.(tries := outer), callers, Finish(s.(tries := outer), final))
    case Raised(x) => Onward(f, s.(tries := outer), callers, Raise(s.(tries := outer), x))
    case Unwind(n) =>
      if n <= |outer| then Going(World(f, s.(tries := outer[n..]), callers)) else Escaped(callers, s.(tries := []), n - |outer|)
    case Crash => Wrong
  }

  // ----- registers -----

  predicate SlotBelow(a: Operand, n: nat) {
    a.Slot? ==> a.n < n
  }

  predicate DestBelow(d: Dest, n: nat) {
    d.ToSlot? ==> d.n < n
  }

  /** The instruction uses registers below n only. */
  predicate Below(i: Machine.Instruction, n: nat) {
    match i
    case Temp(m) => m < n
    case Mov(d, a) => DestBelow(d, n) && SlotBelow(a, n)
    case Unary(_, d, a) => DestBelow(d, n) && SlotBelow(a, n)
    case Binary(_, d, a, b) => DestBelow(d, n) && SlotBelow(a, n) && SlotBelow(b, n)
    case BranchTrue(a, _) => SlotBelow(a, n)
    case BranchFalse(a, _) => SlotBelow(a, n)
    case Throw(a) => SlotBelow(a, n)
    case Foreach(_, a, hi, _) => SlotBelow(a, n) && (hi.Some? ==> SlotBelow(hi.value, n))
    case RetVal(a) => SlotBelow(a, n)
    case _ => true
  }

  predicate OpBelow(op: Op, n: nat) {
    match op
    case Plain(i) => Below(i, n)
    case Call(d, _, args) => (d.Some? ==> DestBelow(d.value, n)) && forall i :: 0 <= i < |args| ==> SlotBelow(args[i], n)
  }

  /** Every code sequence keeps to its registers. */
  predicate Fits(program: Program) {
    forall f :: 0 <= f < |program| ==> CodeBelow(program[f])
  }

  predicate CodeBelow(r: Routine) {
    forall pc :: 0 <= pc < |r.code| ==> OpBelow(r.code[pc], r.nregs)
  }

  /** The place of register n in the array. */
  function Place(base: nat, n: nat): nat {
    base + n
  }

  /** The part of the register array from base to top, numbered from 0. */
  function Window(registers: map<nat, Value>, base: nat, top: nat): map<nat, Value> {
    map n: nat | n < top - base && Place(base, n) in registers :: registers[Place(base, n)]
  }

  class VirtualMachine {
    const program: Program
    var currentCode: nat
    var pc: nat
    var registers: map<nat, Value>
    var regfile: nat   // where the registers of the current code begin
    var regs: nat      // where those of the next code will begin
    var frames: seq<Store>
    var frame: nat
    var staticLink: seq<nat>
    var scopeSP: int
    var forStack: seq<ForRecord>
    var exception: Thrown
    var fuel: nat  // the number of instructions still to be fetched

    ghost predicate Valid()
      reads this
    {
      && Fits(program) && currentCode < |program| && frame < |frames|
      && regs == regfile + program[currentCode].nregs && (forall i :: i in registers ==> i < regs)
    }

    constructor (program: Program, st: Store, initial: map<nat, Value>, exn: Thrown, fuel: nat)
      requires Fits(program) && program != []
      ensures Valid() && this.program == program && currentCode == 0 && this.fuel == fuel
      ensures Flat([]) == State(0, Window(initial, 0, program[0].nregs), st, 0, [], [], exn)
    {
      this.program, currentCode, pc := program, 0, 0;
      registers := map n | n in initial && n < program[0].nregs :: initial[n];
      regfile, regs := 0, program[0].nregs;
      frames, frame, staticLink, scopeSP, forStack, exception := [st], 0, [], 0, [], exn;
      this.fuel := fuel;
      new;
      assert Window(registers, 0, regs) == Window(initial, 0, regs);
    }

    /** The running routine as a state of the flat machine. */
    ghost function Flat(tries: seq<TryRecord>): State
      requires frame < |frames|
      reads this
    {
      State(pc, Window(registers, regfile, regs), frames[frame], scopeSP, forStack, tries, exception)
    }

    /** The same routine in the same frame, with the same registers; what belongs to those that called it
        is as before. */
    twostate predicate Undisturbed()
      reads this
    {
      && currentCode == old(currentCode) && regfile == old(regfile) && regs == old(regs) && frame == old(frame) && staticLink == old(staticLink)
      && |frames| >= |old(frames)| && (forall i :: 0 <= i < |old(frames)| && i != frame ==> frames[i] == old(frames)[i])
      && (forall i :: 0 <= i < regfile ==> (i in registers <==> i in old(registers)) && (i in registers ==> registers[i] == old(registers)[i]))
    }

    function Get(a: Operand): Option<Value>
      requires frame < |frames|
      reads this
    {
      match a
      case Slot(n) => if regfile + n in registers then Some(registers[regfile + n]) else None
      case Variable(x) => Some(frames[frame].Get(x))
      case Immediate(v) => Some(v)
    }

    lemma GetReads(a: Operand, tries: seq<TryRecord>)
      requires Valid()
      ensures Get(a) == Read(Flat(tries), a)
    {
      if a.Slot? { assert Place(regfile, a.n) == regfile + a.n; }
    }

    method Put(d: Dest, v: Value)
      requires Valid() && DestBelow(d, program[currentCode].nregs)
      modifies this`registers, this`frames
      ensures Valid() && Undisturbed() && Flat([]) == Write(old(Flat([])), d, v)
    {
      hide Window, Fits;
      match d
      case ToSlot(n) =>
        WindowPut(registers, regfile, regs, n, v);
        registers := registers[regfile + n := v];
      case ToVariable(x) => frames := frames[frame := frames[frame].Set(x, v)];
    }

    method Set(d: Dest, r: Result) returns (o: Next)
      requires Valid() && DestBelow(d, program[currentCode].nregs)
      modifies this`registers, this`frames, this`pc
      ensures Valid() && Undisturbed() && o == if r.Ok? then Continue else Leave(Raised(r.t))
      ensures r.Err? ==> Flat([]) == old(Flat([]))
      ensures r.Ok? ==> Flat([]) == Write(old(Flat([])), d, r.v).(pc := old(pc) + 1)
    {
      hide Window, Fits;
      match r
      case Err(t) => o := Leave(Raised(t));
      case Ok(v) =>
        Put(d, v);
        pc := pc + 1;
        o := Continue;
    }

    /** VirtualMachine::next. */
    method Advance() returns (o: Next)
      requires Valid()
      modifies this`pc, this`forStack, this`frames
      ensures Valid() && Undisturbed() && o == if old(forStack) == [] then Leave(Crash) else Continue
      ensures o.Continue? ==> Machine.Advance(old(Flat([]))) == Running(Flat([]))
    {
      hide Window, Fits;
      if forStack == [] { return Leave(Crash); }
      var r := forStack[0];
      if r.cur == r.end {
        pc := r.endAddr;
        forStack := forStack[1..];
      } else {
        frames := frames[frame := frames[frame].Set(r.x, ControlValue(r.kind, r.cur))];
        forStack := [r.(cur := Wrap32(r.cur + r.dir))] + forStack[1..];
        pc := r.bodyAddr;
      }
      o := Continue;
    }

    method Foreach(x: nat, v: Value, hi: Option<Value>, endAddr: nat) returns (o: Next)
      requires Valid()
      modifies this`pc, this`forStack, this`frames
      ensures Valid() && Undisturbed()
      ensures o == if v.Nothing? || (hi.Some? && hi.value.Nothing?) then Leave(Raised(IllegalForeach)) else Continue
      ensures o.Continue? ==> StartForeach(old(Flat([])), x, v, hi, endAddr) == Running(Flat([]))
      ensures !o.Continue? ==> Flat([]) == old(Flat([]))
    {
      hide Window, Fits, NewFor, NewForRange, Machine.Advance;
      if v.Nothing? || (hi.Some? && hi.value.Nothing?) {
        return Leave(Raised(IllegalForeach));
      }
      var r := NewRecord(x, v, hi, endAddr, pc + 1);
      forStack := [r] + forStack;
      o := Advance();
    }

    method PopScope(ns: int, nt: int, nf: int) returns (o: Next)
      requires Valid()
      modifies this`pc, this`forStack, this`scopeSP
      ensures Valid() && Undisturbed()
      ensures o == if old(scopeSP) - ns < 0 || nf > |old(forStack)| then Leave(Crash) else if nt > 0 then Leave(Unwind(nt)) else Continue
      ensures o != Leave(Crash) ==>
                Flat([]) == old(Flat([])).(pc := old(pc) + 1, scopes := old(scopeSP) - ns, fors := old(forStack)[if nf < 0 then 0 else nf..])
    {
      scopeSP := scopeSP - ns;
      if scopeSP < 0 || nf > |forStack| { return Leave(Crash); }
      var k := 0;
      while k < nf
        modifies this`forStack
        invariant 0 <= k && (k <= nf || k == 0) && nf <= |old(forStack)|
        invariant forStack == if k == 0 then old(forStack) else old(forStack)[k..]
      {
        forStack := forStack[1..];
        k := k + 1;
      }
      assert old(forStack)[0..] == old(forStack);
      assert forStack == old(forStack)[if nf < 0 then 0 else nf..];
      pc := pc + 1;
      o := if nt > 0 then Leave(Unwind(nt)) else Continue;
    }

    /** What the plain instruction i does when dotry calls for outer are pending. */
    twostate predicate Executed(i: Machine.Instruction, outer: seq<TryRecord>, o: Next)
      requires old(Valid())
      reads this
    {
      && Valid() && Undisturbed() && fuel == old(fuel) && o != Leave(OutOfFuel) && (o.Leave? ==> Proper(o.signal) && !o.signal.Unwind?)
      && match o
         case Continue => Machine.Execute(i, old(Flat(outer))) == Running(Flat(outer))
         case Leave(Done(final)) => Flat([]) == old(Flat([])) && Machine.Execute(i, old(Flat(outer))) == Finish(Flat(outer), final)
         case Leave(Raised(t)) => Flat([]) == old(Flat([])) && Machine.Execute(i, old(Flat(outer))) == Raise(Flat(outer), t)
         case _ => Machine.Execute(i, old(Flat(outer))) == Stuck
    }

    /** Instructions that compute a value. */
    method Compute(i: Machine.Instruction, ghost outer: seq<TryRecord>) returns (o: Next)
      requires Valid() && Below(i, program[currentCode].nregs) && (i.Nop? || i.Temp? || i.Mov? || i.Unary? || i.Binary?)
      modifies this
      ensures Executed(i, outer, o)
    {
      hide Window, Fits, ApplyUn, ApplyBin;
      match i
      case Nop => pc := pc + 1; o := Continue;
      case Temp(n) =>
        WindowWithout(registers, regfile, regs, n);
        registers := registers - {regfile + n};
        pc := pc + 1;
        o := Continue;
      case Mov(d, a) =>
        GetReads(a, outer);
        var v := Get(a);
        if v.None? { return Leave(Crash); }
        o := Set(d, Ok(v.value));
      case Unary(op, d, a) =>
        GetReads(a, outer);
        var v := Get(a);
        if v.None? { return Leave(Crash); }
        o := Set(d, ApplyUn(op, v.value));
      case Binary(op, d, a, b) =>
        GetReads(a, outer);
        GetReads(b, outer);
        var v, w := Get(a), Get(b);
        if v.None? || w.None? { return Leave(Crash); }
        o := Set(d, ApplyBin(op, v.value, w.value));
    }

    /** Branches. */
    method Transfer(i: Machine.Instruction, ghost outer: seq<TryRecord>) returns (o: Next)
      requires Valid() && (i.Branch? || i.BranchTrue? || i.BranchFalse?)
      modifies this
      ensures Executed(i, outer, o)
    {
      hide Window, Fits;
      match i
      case Branch(t) => pc := t; o := Continue;
      case BranchTrue(a, t) =>
        GetReads(a, outer);
        var v := Get(a);
        if v.None? { return Leave(Crash); }
        pc := if ToBool(v.value) then t else pc + 1;
        o := Continue;
      case BranchFalse(a, t) =>
        GetReads(a, outer);
        var v := Get(a);
        if v.None? { return Leave(Crash); }
        pc := if !ToBool(v.value) then t else pc + 1;
        o := Continue;
    }

    /** Scopes, foreach loops and exceptions. */
    method Control(i: Machine.Instruction, ghost outer: seq<TryRecord>) returns (o: Next)
      requires Valid() && (i.PushScope? || i.Catch? || i.Next?)
      modifies this
      ensures Executed(i, outer, o)
    {
      hide Window, Fits;
      match i
      case PushScope => scopeSP := scopeSP + 1; pc := pc + 1; o := Continue;
      case Catch(x) =>
        frames := frames[frame := Store(frames[frame].vars, frames[frame].caught[x := exception])];
        pc := pc + 1;
        o := Continue;
      case Next => o := Advance();
    }

    method ForLoop(i: Machine.Instruction, ghost outer: seq<TryRecord>) returns (o: Next)
      requires Valid() && i.Foreach?
      modifies this
      ensures Executed(i, outer, o)
    {
      hide Window, Fits;
      GetReads(i.a, outer);
      if i.hi.Some? { GetReads(i.hi.value, outer); }
      var v := Get(i.a);
      var w := if i.hi.None? then Some(Nothing) else Get(i.hi.value);
      if v.None? || w.None? { return Leave(Crash); }
      ForeachOuter(old(Flat([])), outer, i.x, v.value, if i.hi.None? then None else w, i.endAddr);
      hide StartForeach;
      o := Foreach(i.x, v.value, if i.hi.None? then None else w, i.endAddr);
    }

    method Return(i: Machine.Instruction, ghost outer: seq<TryRecord>) returns (o: Next)
      requires Valid() && (i.Throw? || i.Ret? || i.RetVal? || i.End?)
      modifies this
      ensures Executed(i, outer, o)
    {
      hide Window, Fits;
      match i
      case Throw(a) =>
        GetReads(a, outer);
        var v := Get(a);
        if v.None? { return Leave(Crash); }
        o := Leave(Raised(User(v.value)));
      case Ret => o := Leave(Done(Returned(None)));
      case RetVal(a) =>
        GetReads(a, outer);
        var v := Get(a);
        if v.None? { return Leave(Crash); }
        o := Leave(Done(Returned(Some(v.value))));
      case End => o := Leave(Done(Ended));
    }

    method Single(i: Machine.Instruction, ghost outer: seq<TryRecord>) returns (o: Next)
      requires Valid() && Below(i, program[currentCode].nregs) && !i.Try? && !i.PopScope?
      modifies this
      ensures Executed(i, outer, o)
    {
      if i.Foreach? {
        o := ForLoop(i, outer);
      } else if i.Branch? || i.BranchTrue? || i.BranchFalse? {
        o := Transfer(i, outer);
      } else if i.PushScope? || i.Catch? || i.Next? {
        o := Control(i, outer);
      } else if i.Throw? || i.Ret? || i.RetVal? || i.End? {
        o := Return(i, outer);
      } else {
        o := Compute(i, outer);
      }
    }

    /** The flat machine, started in the old state with the dotry calls for outer pending and the callers
        waiting, has after k rounds reached what the nested interpreter reports. */
    twostate predicate Reports(k: nat, outer: seq<TryRecord>, callers: seq<Caller>, o: Next)
      requires old(Valid()) && Valid()
      reads this
    {
      var u := Calls.Run(program, k, World(old(currentCode), old(Flat(outer)), callers));
      match o
      case Continue => u == Going(World(currentCode, Flat(outer), callers))
      case Leave(r) =>
        if r.OutOfFuel? then u.Going? && fuel == 0 else u == Delivered(currentCode, Flat([]), outer, callers, r) && Proper(r)
    }

    /** execute(int): fetch and execute until something ends it.  Whatever that is, at any depth of calls,
        the routine still runs in its own frame, with its own registers and static link. */
    method Execute(ghost outer: seq<TryRecord>, ghost callers: seq<Caller>) returns (r: Signal)
      requires Valid()
      modifies this
      ensures Valid() && Undisturbed() && fuel <= old(fuel) && Reports(old(fuel) - fuel, outer, callers, Leave(r))
      decreases fuel, 1, 0
    {
      hide Delivered, Calls.Run, Fits, Window;
      ghost var w0 := World(currentCode, Flat(outer), callers);
      Calls.NoRounds(program, w0);
      while true
        invariant Valid() && Undisturbed() && fuel <= old(fuel)
        invariant Calls.Run(program, old(fuel) - fuel, w0) == Going(World(currentCode, Flat(outer), callers))
        decreases fuel
      {
        if fuel == 0 { return OutOfFuel; }
        ghost var k := old(fuel) - fuel;
        ghost var f := fuel;
        fuel := fuel - 1;
        var o := Fetch(outer, callers);
        MoreRounds(program, k, 1 + (f - 1) - fuel, w0);
        if o.Leave? { return o.signal; }
      }
    }

    /** One instruction, with all it runs in nested calls of execute. */
    method Fetch(ghost outer: seq<TryRecord>, ghost callers: seq<Caller>) returns (o: Next)
      requires Valid()
      modifies this
      ensures Valid() && Undisturbed() && fuel <= old(fuel) && Reports(1 + old(fuel) - fuel, outer, callers, o)
      decreases fuel, 5
    {
      hide Calls.Run, Window;
      ghost var w := World(currentCode, Flat(outer), callers);
      Calls.NoRounds(program, w);
      Calls.OneMore(program, 0, w);
      if pc >= |program[currentCode].code| {
        return Leave(Crash);
      }
      KeepsTo(program, currentCode, pc);
      var op := program[currentCode].code[pc];
      if op.Call? {
        ghost var entry: Store;
        o, entry := CallFunction(op.dest, op.f, op.args, outer, callers);
      } else if op.i.Try? {
        ghost var how, depth;
        o, how, depth := DoTry(op.i.catchAddr, op.i.endAddr, outer, callers);
      } else if op.i.PopScope? {
        PopOuter(Flat([]), outer, op.i.scopes, op.i.tries, op.i.fors);
        o := PopScope(op.i.scopes, op.i.tries, op.i.fors);
      } else {
        o := Single(op.i, outer);
      }
    }

    /** dotry, without finally: run the protected code in a nested execute and deal with the way it comes
        back.  When an exception comes out of it, from whatever depth of calls and loops, execution goes
        on at the handler with scopes, frame, registers and static link as they were at TRY, and with no
        more foreach records than there were; "how" is the signal and "depth" the number of records when
        it arrived. */
    method DoTry(catchop: nat, endop: nat, ghost outer: seq<TryRecord>, ghost callers: seq<Caller>) returns (o: Next, ghost how: Signal, ghost depth: nat)
      requires Valid() && pc < |program[currentCode].code| && program[currentCode].code[pc] == Plain(Try(catchop, endop))
      modifies this
      ensures Valid() && Undisturbed() && fuel <= old(fuel) && Reports(1 + old(fuel) - fuel, outer, callers, o)
      ensures how.Raised? ==> o == Continue && pc == catchop && exception == how.t && scopeSP == old(scopeSP)
      ensures how.Raised? ==> |forStack| == if depth < |old(forStack)| then depth else |old(forStack)|
      ensures how.Done? ==> o == Continue && pc == endop
      decreases fuel, 2
    {
      hide Calls.Run, Window, Fits, Delivered;
      var oldscopeSP, forstackSize := scopeSP, |forStack|;
      ghost var record := TryRecord(catchop, endop, scopeSP, |forStack|);
      var r := RunProtected(record, outer, callers);
      how, depth := r, |forStack|;
      if !r.OutOfFuel? { TryCame(currentCode, Flat([]), record, outer, callers, r); }
      match r
      case Done(_) =>
        pc := endop;
        o := Continue;
      case Raised(t) =>
        exception := t;
        scopeSP := oldscopeSP;
        TruncateFors(forstackSize);
        pc := catchop;
        o := Continue;
      case Unwind(i) =>
        o := if i - 1 > 0 then Leave(Unwind(i - 1)) else Continue;
      case _ => o := Leave(r);
    }

    /** The nested execute of dotry. */
    method RunProtected(ghost record: TryRecord, ghost outer: seq<TryRecord>, ghost callers: seq<Caller>) returns (r: Signal)
      requires Valid() && pc < |program[currentCode].code| && program[currentCode].code[pc] == Plain(Try(record.catchAddr, record.endAddr))
      requires record.scopes == scopeSP && record.fors == |forStack|
      modifies this
      ensures Valid() && Undisturbed() && fuel <= old(fuel)
      ensures var u := Calls.Run(program, 1 + old(fuel) - fuel, World(currentCode, old(Flat(outer)), callers));
              if r.OutOfFuel? then u.Going? && fuel == 0 else Proper(r) && u == Delivered(currentCode, Flat([]), [record] + outer, callers, r)
      decreases fuel, 1, 1
    {
      hide Calls.Run, Window, Fits, Delivered;
      ghost var w := World(currentCode, Flat(outer), callers);
      ghost var inner := [record] + outer;
      pc := pc + 1;
      EnterTry(program, w, World(currentCode, Flat(inner), callers), record.catchAddr, record.endAddr);
      ghost var f := fuel;
      r := Execute(inner, callers);
      MoreRounds(program, 1, f - fuel, w);
    }

    method TruncateFors(size: nat)
      modifies this`forStack
      ensures forStack == Truncate(old(forStack), size)
    {
      while |forStack| > size
        invariant forStack == old(forStack) || (size <= |forStack| <= |old(forStack)| && forStack == old(forStack)[|old(forStack)| - |forStack|..])
      {
        forStack := forStack[1..];
      }
    }

    /** execute(CodeSequence*): its own registers, frame, static link and code, given back on every way
        out; m is what the called routine leaves behind. */
    method ExecuteCode(g: nat, f: nat, slink: seq<nat>, ghost callers: seq<Caller>) returns (r: Signal, ghost m: State)
      requires Valid() && g < |program| && f < |frames|
      modifies this
      ensures Valid() && Kept() && scopeSP == m.scopes && Came(g, old(frames[f]), old(scopeSP), callers, r, m)
      ensures |frames| >= |old(frames)| && forall i :: 0 <= i < |old(frames)| && i != f ==> frames[i] == old(frames)[i]
      decreases fuel, 2
    {
      hide Calls.Run, Delivered, Fits, Window;
      var oldregfile, oldregs, oldframe, oldstaticlink, oldpc, oldcode := regfile, regs, frame, staticLink, pc, currentCode;
      Switch(g, f, slink);
      r := Execute([], callers);
      m := Flat([]);
      ghost var used := registers;
      GiveBack(oldregfile, oldregs, oldframe, oldstaticlink, oldpc, oldcode);
      RegistersBack(used, old(registers), oldregs);
    }

    /** The machine at the start of routine g, with registers of its own. */
    method Switch(g: nat, f: nat, slink: seq<nat>)
      requires Valid() && g < |program| && f < |frames|
      modifies this`regfile, this`regs, this`frame, this`staticLink, this`currentCode, this`pc
      ensures Valid() && regfile == old(regs) && frame == f && staticLink == slink && currentCode == g
      ensures Flat([]) == State(0, map[], frames[f], scopeSP, forStack, [], exception)
    {
      hide Fits, Window;
      NoRegisters(registers, regs, regs + program[g].nregs);
      regfile := regs;
      regs := regs + program[g].nregs;
      frame, staticLink, currentCode, pc := f, slink, g, 0;
    }

    /** The registers from low on lose their values. */
    method Destruct(low: nat)
      requires low <= regs && forall i :: i in registers ==> i < regs
      modifies this`registers
      ensures registers == map n | n in old(registers) && n < low :: old(registers)[n]
    {
      for i := low to regs
        invariant registers == map n | n in old(registers) && (n < low || i <= n) :: old(registers)[n]
      {
        registers := registers - {i};
      }
    }

    /** The end of execute(CodeSequence*). */
    method GiveBack(oldregfile: nat, oldregs: nat, oldframe: nat, oldstaticlink: seq<nat>, oldpc: nat, oldcode: nat)
      requires oldregs <= regs && forall i :: i in registers ==> i < regs
      modifies this`registers, this`regs, this`regfile, this`frame, this`staticLink, this`pc, this`currentCode
      ensures registers == map n | n in old(registers) && n < oldregs :: old(registers)[n]
      ensures regs == oldregs && regfile == oldregfile && frame == oldframe && staticLink == oldstaticlink && pc == oldpc && currentCode == oldcode
    {
      Destruct(oldregs);
      regs, regfile, frame, staticLink, pc, currentCode := oldregs, oldregfile, oldframe, oldstaticlink, oldpc, oldcode;
    }

    /** All that belongs to the running routine is as it was. */
    twostate predicate Kept()
      reads this
    {
      && regfile == old(regfile) && regs == old(regs) && frame == old(frame) && staticLink == old(staticLink) && pc == old(pc)
      && currentCode == old(currentCode) && registers == old(registers)
    }

    /** Routine g, started with the given frame and scopes, has come to what is reported, leaving m. */
    twostate predicate Came(g: nat, st: Store, scopes: int, callers: seq<Caller>, r: Signal, m: State)
      reads this
    {
      && fuel <= old(fuel) && m.fors == forStack && m.exn == exception
      && var u := Calls.Run(program, old(fuel) - fuel, World(g, State(0, map[], st, scopes, old(forStack), [], old(exception)), callers));
         if r.OutOfFuel? then u.Going? && fuel == 0 else Proper(r) && u == Delivered(g, m, [], callers, r)
    }

    /** execute(InterpretedBlock*): one more scope, given back on every way out. */
    method ExecuteBlock(g: nat, f: nat, slink: seq<nat>, ghost callers: seq<Caller>) returns (r: Signal, ghost m: State)
      requires Valid() && g < |program| && f < |frames|
      modifies this
      ensures Valid() && Kept() && scopeSP == old(scopeSP) && Came(g, old(frames[f]), old(scopeSP) + 1, callers, r, m)
      ensures |frames| >= |old(frames)| && forall i :: 0 <= i < |old(frames)| && i != f ==> frames[i] == old(frames)[i]
      decreases fuel, 3
    {
      hide Calls.Run, Delivered, Fits;
      var oldscopeSP := scopeSP;
      scopeSP := scopeSP + 1;
      r, m := ExecuteCode(g, f, slink, callers);
      scopeSP := oldscopeSP;
    }

    /** The values of the arguments, the last one first. */
    method Arguments(args: seq<Operand>) returns (vs: Option<seq<Value>>)
      requires Valid()
      ensures vs == ReadAll(Flat([]), args)
    {
      hide Window, Fits;
      var i := |args|;
      vs := Some([]);
      while i > 0
        invariant 0 <= i <= |args| && vs == ReadAll(Flat([]), args[i..])
      {
        i := i - 1;
        assert args[i..][0] == args[i] && args[i..][1..] == args[i + 1..];
        GetReads(args[i], []);
        var v := Get(args[i]);
        vs := if v.Some? && vs.Some? then Some([v.value] + vs.value) else None;
      }
      assert args[0..] == args;
    }

    /** assignParameters: the k-th variable of the frame is the k-th value. */
    method AssignParameters(vs: seq<Value>) returns (st: Store)
      ensures st.caught == map[] && (forall k: nat :: k in st.vars <==> k < |vs|) && forall k: nat :: k < |vs| ==> st.vars[k] == vs[k]
    {
      st := Store(map[], map[]);
      var form := 0;
      while form < |vs|
        invariant 0 <= form <= |vs| && st.caught == map[]
        invariant (forall k: nat :: k in st.vars <==> k < form) && forall k: nat :: k < form ==> st.vars[k] == vs[k]
      {
        st := st.Set(form, vs[form]);
        form := form + 1;
      }
    }

    /** The static link of a routine at level "to", called from one at level "from": a link for each level in
        between is followed. */
    method LinkFor(from: nat, to: nat) returns (slink: seq<nat>)
      ensures from <= to ==> slink == staticLink
      ensures to < from <= to + |staticLink| ==> staticLink[..from - to] + slink == staticLink
    {
      slink := staticLink;
      var n := from - to;
      while n > 0
        invariant n <= from - to || n == from - to
        invariant to < from ==> 0 <= n
        invariant from <= to ==> slink == staticLink
        invariant to < from <= to + |staticLink| ==> |slink| == |staticLink| - (from - to - n) && staticLink[from - to - n..] == slink
      {
        slink := if slink == [] then [] else slink[1..];
        n := n - 1;
      }
    }

    /** The call can be made: there is such a routine, and every argument has a value. */
    ghost predicate Callable(g: nat, args: seq<Operand>)
      requires frame < |frames|
      reads this
    {
      g < |program| && forall k: nat :: k < |args| ==> Get(args[k]).Some?
    }

    lemma ArgumentsRead(args: seq<Operand>)
      requires Valid()
      ensures ReadAll(Flat([]), args).Some? <==> forall k: nat :: k < |args| ==> Get(args[k]).Some?
      ensures ReadAll(Flat([]), args).Some? ==>
                |ReadAll(Flat([]), args).value| == |args| && forall k: nat :: k < |args| ==> Get(args[k]) == Some(ReadAll(Flat([]), args).value[k])
    {
      hide Fits, Window, Read, ReadAll;
      AllRead(Flat([]), args);
      forall k: nat | k < |args| ensures Get(args[k]) == Read(Flat([]), args[k]) { GetReads(args[k], []); }
    }

    /** callFunction: a new frame, the static link the routine needs, its block, and the result.  The frame
        the routine starts with, entry, has the arguments as the caller reads them. */
    method CallFunction(d: Option<Dest>, g: nat, args: seq<Operand>, ghost outer: seq<TryRecord>, ghost callers: seq<Caller>)
      returns (o: Next, ghost entry: Store)
      requires Valid() && pc < |program[currentCode].code| && program[currentCode].code[pc] == Call(d, g, args)
      modifies this
      ensures Valid() && Undisturbed() && fuel <= old(fuel) && Reports(1 + old(fuel) - fuel, outer, callers, o)
      ensures old(Callable(g, args)) ==>
                && entry.caught == map[] && (forall k: nat :: k in entry.vars <==> k < |args|)
                && (forall k: nat :: k < |args| ==> old(Get(args[k])) == Some(entry.vars[k]))
                && var c := Caller(old(currentCode), old(Flat(outer)).(pc := old(pc) + 1), d);
                   Calls.Run(program, 1, World(old(currentCode), old(Flat(outer)), callers)) ==
                   Going(World(g, State(0, map[], entry, old(scopeSP) + 1, old(forStack), [], old(exception)), [c] + callers))
      ensures !old(Callable(g, args)) ==> o == Leave(Crash)
      decreases fuel, 4
    {
      hide Calls.Run, Delivered, Window, Fits, ReadAll, Parameters, ValueOf;
      ghost var w := World(currentCode, Flat(outer), callers);
      var vs := Arguments(args);
      ArgumentsRead(args);
      ReadAlike(Flat([]), Flat(outer), args);
      EnterCall(program, w, d, g, args);
      entry := frames[frame];
      if g >= |program| || vs.None? {
        CrashDelivered(currentCode, Flat([]), outer, callers);
        o := Leave(Crash);
        return;
      }
      pc := pc + 1;
      ghost var c := Caller(currentCode, Flat(outer), d);
      var newframe := AssignParameters(vs.value);
      entry := newframe;
      AreParameters(vs.value, newframe);
      frames := frames + [newframe];
      ghost var f := fuel;
      var slink := LinkFor(program[currentCode].level, program[g].level);
      var r, m := ExecuteBlock(g, |frames| - 1, slink, [c] + callers);
      MoreRounds(program, 1, f - fuel, w);
      assert Flat(outer) == Resume(c, m);
      if r.OutOfFuel? {
        o := Leave(r);
        return;
      }
      CameBack(c, g, m, Flat([]), outer, callers, r);
      if r.Done? {
        if d.Some? {
          KeepsTo(program, currentCode, c.m.pc - 1);
          Put(d.value, ValueOf(r.f));
        }
        o := Continue;
      } else {
        o := Leave(r);
      }
    }
  }

  lemma AreParameters(vs: seq<Value>, st: Store)
    requires st.caught == map[] && (forall k: nat :: k in st.vars <==> k < |vs|) && forall k: nat :: k < |vs| ==> st.vars[k] == vs[k]
    ensures st == Parameters(vs)
  {}

  lemma KeepsTo(program: Program, f: nat, pc: nat)
    requires Fits(program) && f < |program| && pc < |program[f].code|
    ensures OpBelow(program[f].code[pc], program[f].nregs)
  {
    assert CodeBelow(program[f]);
  }

  lemma EnterCall(program: Program, w: World, d: Option<Dest>, g: nat, args: seq<Operand>)
    requires w.f < |program| && w.m.pc < |program[w.f].code| && program[w.f].code[w.m.pc] == Call(d, g, args)
    ensures var vs := ReadAll(w.m, args);
            Calls.Run(program, 1, w) ==
            if g >= |program| || vs.None? then Wrong
            else Going(World(g, State(0, map[], Parameters(vs.value), w.m.scopes + 1, w.m.fors, [], w.m.exn), [Caller(w.f, w.m.(pc := w.m.pc + 1), d)] + w.callers))
  {
    hide ReadAll, Parameters;
    Calls.NoRounds(program, w);
    Calls.OneMore(program, 0, w);
  }

  lemma {:induction false} ReadAlike(m: State, m': State, args: seq<Operand>)
    requires m.slots == m'.slots && m.store == m'.store
    ensures ReadAll(m, args) == ReadAll(m', args)
  {
    if args != [] { ReadAlike(m, m', args[1..]); }
  }

  lemma WindowPut(registers: map<nat, Value>, base: nat, top: nat, n: nat, v: Value)
    requires base + n < top
    ensures Window(registers[base + n := v], base, top) == Window(registers, base, top)[n := v]
  {
    var after, there := registers[base + n := v], Window(registers, base, top);
    PutKeys(registers, base, top, n, v);
    forall i: nat | i in there[n := v] ensures Window(after, base, top)[i] == there[n := v][i] {
      assert Place(base, i) == base + i;
    }
  }

  lemma PutKeys(registers: map<nat, Value>, base: nat, top: nat, n: nat, v: Value)
    requires base + n < top
    ensures Window(registers[base + n := v], base, top).Keys == Window(registers, base, top).Keys + {n}
  {
    forall i: nat ensures i in Window(registers[base + n := v], base, top) <==> i in Window(registers, base, top) || i == n {
      assert Place(base, i) == base + i;
    }
  }

  lemma WindowWithout(registers: map<nat, Value>, base: nat, top: nat, n: nat)
    ensures Window(registers - {base + n}, base, top) == Window(registers, base, top) - {n}
  {
    assert Place(base, n) == base + n;
  }

  lemma RegistersBack(now: map<nat, Value>, before: map<nat, Value>, low: nat)
    requires forall i :: i in before ==> i < low
    requires forall i :: 0 <= i < low ==> (i in now <==> i in before) && (i in now ==> now[i] == before[i])
    ensures (map n | n in now && n < low :: now[n]) == before
  {}

  lemma NoRegisters(registers: map<nat, Value>, base: nat, top: nat)
    requires forall i :: i in registers ==> i < base
    ensures Window(registers, base, top) == map[]
  {}

  lemma MoreRounds(program: Program, j: nat, k: nat, w: World)
    requires Calls.Run(program, j, w).Going?
    ensures Calls.Run(program, j + k, w) == Calls.Run(program, k, Calls.Run(program, j, w).w)
  {
    Calls.RunAdd(program, j, k, w);
  }

  lemma CrashDelivered(f: nat, s: State, outer: seq<TryRecord>, callers: seq<Caller>)
    ensures Delivered(f, s, outer, callers, Crash) == Wrong
  {}

  /** What a dotry does with the way its protected code comes back. */
  lemma TryCame(f: nat, s: State, record: TryRecord, outer: seq<TryRecord>, callers: seq<Caller>, r: Signal)
    requires !r.OutOfFuel? && Proper(r) && s.tries == []
    ensures var o := Delivered(f, s, [record] + outer, callers, r);
            && (r.Done? ==> o == Going(World(f, s.(pc := record.endAddr, tries := outer), callers)))
            && (r.Raised? ==>
                o == Going(World(f, s.(pc := record.catchAddr, scopes := record.scopes, fors := Truncate(s.fors, record.fors), tries := outer, exn := r.t), callers)))
            && (r.Unwind? && r.levels == 1 ==> o == Going(World(f, s.(tries := outer), callers)))
            && (r.Unwind? && r.levels > 1 ==> o == Delivered(f, s, outer, callers, Unwind(r.levels - 1)))
            && (r.Crash? ==> o == Delivered(f, s, outer, callers, r))
  {
    hide Escaped, Unwound, Returning, Truncate;
    var inner := [record] + outer;
    assert inner[1..] == outer;
    if r.Unwind? && r.levels <= |inner| { assert inner[r.levels..] == outer[r.levels - 1..]; }
  }

  lemma EnterTry(program: Program, w: World, w': World, c: nat, e: nat)
    requires w.f < |program| && w.m.pc < |program[w.f].code| && program[w.f].code[w.m.pc] == Plain(Try(c, e))
    requires w' == World(w.f, w.m.(pc := w.m.pc + 1, tries := [TryRecord(c, e, w.m.scopes, |w.m.fors|)] + w.m.tries), w.callers)
    ensures Calls.Run(program, 1, w) == Going(w')
  {
    Calls.NoRounds(program, w);
    Calls.OneMore(program, 0, w);
  }

  /** What comes out of a call is what comes out at the call: an exception or an int goes on from there,
      in the caller's state, and a value goes to the destination. */
  lemma CameBack(c: Caller, g: nat, m: State, s: State, outer: seq<TryRecord>, callers: seq<Caller>, r: Signal)
    requires !r.OutOfFuel? && Proper(r) && s.(tries := outer) == Resume(c, m) && s.tries == []
    ensures r.Done? ==>
              (Delivered(g, m, [], [c] + callers, r) ==
               Going(World(c.f, if c.dest.Some? then Write(s.(tries := outer), c.dest.value, ValueOf(r.f)) else s.(tries := outer), callers)))
    ensures !r.Done? ==> Delivered(g, m, [], [c] + callers, r) == Delivered(c.f, s, outer, callers, r)
  {
    assert ([c] + callers)[1..] == callers;
    if r.Raised? { UnwoundAlike(callers, s, s.(tries := outer), r.t); }
  }

  /** Only what belongs to the whole machine matters once the routine is left. */
  lemma UnwoundAlike(callers: seq<Caller>, m: State, m': State, t: Thrown)
    requires m.fors == m'.fors && m.exn == m'.exn && m.store == m'.store
    ensures Unwound(callers, m, t) == Unwound(callers, m', t)
  {}

  /** Popping scopes: as many of the pending dotry calls go as there are try levels to leave. */
  lemma PopOuter(s: State, outer: seq<TryRecord>, ns: int, nt: int, nf: int)
    ensures var f := if nf < 0 then 0 else nf;
            var t := if nt < 0 then 0 else nt;
            Pop(s.(tries := outer), ns, nt, nf) ==
            if s.scopes - ns < 0 || nf > |s.fors| || nt > |outer| then Stuck
            else Running(s.(pc := s.pc + 1, scopes := s.scopes - ns, fors := s.fors[f..], tries := if t == 0 then outer else outer[t..]))
  {}

  /** Starting a foreach does not look at the pending dotry calls, except to raise an exception. */
  lemma ForeachOuter(s: State, outer: seq<TryRecord>, x: nat, v: Value, hi: Option<Value>, e: nat)
    ensures StartForeach(s.(tries := outer), x, v, hi, e) ==
            if v.Nothing? || (hi.Some? && hi.value.Nothing?) then Raise(s.(tries := outer), IllegalForeach)
            else (match StartForeach(s, x, v, hi, e) case Running(t) => Running(t.(tries := outer)) case o => o)
  {}
}

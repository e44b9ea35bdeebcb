/** The virtual machine as a flat transition system.  The interpreter runs a try body in a nested
    call of execute; here the pending nested calls are the explicit list "tries", innermost first.
    Module Calls adds routines that call each other, and InterpreterLoop relates both to the nested
    interpreter. */
module Machine {
  import opened Values

  /** Slots are registers in emitted code, and values of intermediate nodes before allocation. */
  datatype Operand = Slot(n: nat) | Variable(x: nat) | Immediate(v: Value)

  datatype Dest = ToSlot(n: nat) | ToVariable(x: nat)

  datatype Instruction =
    | Nop
    | Temp(n: nat)  // never emitted: marks the point where an intermediate TEMP node is created
    | Mov(dest: Dest, a: Operand)
    | Unary(uop: UnOp, dest: Dest, a: Operand)
    | Binary(bop: BinOp, dest: Dest, a: Operand, b: Operand)
    | Branch(target: nat)
    | BranchTrue(a: Operand, target: nat)
    | BranchFalse(a: Operand, target: nat)
    | PushScope
    | PopScope(scopes: int, tries: int, fors: int)
    | Try(catchAddr: nat, endAddr: nat)
    | Catch(x: nat)
    | Throw(a: Operand)
    | Foreach(x: nat, a: Operand, hi: Option<Operand>, endAddr: nat)
    | Next
    | Ret
    | RetVal(a: Operand)
    | End

  /** The integral case of the interpreter's Foreach record. */
  datatype ForRecord = ForRecord(x: nat, kind: Kind, cur: int, end: int, dir: int, endAddr: nat, bodyAddr: nat)

  /** What dotry keeps while its nested execute runs. */
  datatype TryRecord = TryRecord(catchAddr: nat, endAddr: nat, scopes: int, fors: nat)

  datatype State = State(
    pc: nat,
    slots: map<nat, Value>,
    store: Store,
    scopes: int,              // scopeSP
    fors: seq<ForRecord>,     // forStack, top first
    tries: seq<TryRecord>,    // pending dotry calls, innermost first
    exn: Thrown               // the exception kept for CATCH
  )

  datatype Final = Ended | Returned(v: Option<Value>) | Uncaught(t: Thrown)

  datatype Outcome = Running(s: State) | Halted(f: Final, store: Store) | Stuck

  function Read(s: State, a: Operand): Option<Value> {
    match a
    case Slot(n) => if n in s.slots then Some(s.slots[n]) else None
    case Variable(x) => Some(s.store.Get(x))
    case Immediate(v) => Some(v)
  }

  function Write(s: State, d: Dest, v: Value): State {
    match d
    case ToSlot(n) => s.(slots := s.slots[n := v])
    case ToVariable(x) => s.(store := s.store.Set(x, v))
  }

  /** Deliver an exception to the innermost pending dotry: scope and foreach stacks go back to what
      they were at its TRY, and execution continues at the handler. */
  function Raise(s: State, t: Thrown): Outcome {
    if s.tries == [] then Halted(Uncaught(t), s.store)
    else
      var r := s.tries[0];
      Running(s.(pc := r.catchAddr, scopes := r.scopes, fors := Truncate(s.fors, r.fors), tries := s.tries[1..], exn := t))
  }

  /** Pop records while the stack is deeper than n. */
  function Truncate(fors: seq<ForRecord>, n: nat): seq<ForRecord> {
    if |fors| > n then fors[|fors| - n..] else fors
  }

  /** END, RET and RETVAL return from execute: a pending dotry then jumps to its end address. */
  function Finish(s: State, f: Final): Outcome {
    if s.tries == [] then Halted(f, s.store)
    else Running(s.(pc := s.tries[0].endAddr, tries := s.tries[1..]))
  }

  function StoreResult(s: State, d: Dest, r: Result): Outcome {
    match r
    case Ok(v) => Running(Write(s, d, v).(pc := s.pc + 1))
    case Err(t) => Raise(s, t)
  }

  /** The constructor of Foreach for one value: 0 up to n, or 0 down to n when n is negative. */
  function NewFor(x: nat, v: Value, endAddr: nat, bodyAddr: nat): ForRecord
    requires v.Num?
  {
    var n := Wrap32(v.n);
    ForRecord(x, v.kind, 0, n, if n < 0 then -1 else 1, endAddr, bodyAddr)
  }

  /** The constructor of Foreach for a range lo .. hi, both ends included. */
  function NewForRange(x: nat, lo: Value, hi: Value, endAddr: nat, bodyAddr: nat): ForRecord
    requires lo.Num? && hi.Num?
  {
    var a, b := Wrap32(lo.n), Wrap32(hi.n);
    var d := if a > b then -1 else 1;
    ForRecord(x, lo.kind, a, Wrap32(b + d), d, endAddr, bodyAddr)
  }

  /** The value a foreach stores: an integer, or for char and boolean ranges a char. */
  function ControlValue(kind: Kind, n: int): Value {
    if kind == KInt then Num(KInt, n) else Num(KChar, Wrap8(n))
  }

  /** VirtualMachine::next: advance the top record, or leave the loop and pop it. */
  function Advance(s: State): Outcome {
    if s.fors == [] then Stuck
    else
      var r := s.fors[0];
      if r.cur == r.end then Running(s.(pc := r.endAddr, fors := s.fors[1..]))
      else
        Running(s.(pc := r.bodyAddr, store := s.store.Set(r.x, ControlValue(r.kind, r.cur)),
                   fors := [r.(cur := Wrap32(r.cur + r.dir))] + s.fors[1..]))
  }

  function NewRecord(x: nat, v: Value, hi: Option<Value>, endAddr: nat, bodyAddr: nat): ForRecord
    requires v.Num? && (hi.Some? ==> hi.value.Num?)
  {
    if hi.None? then NewFor(x, v, endAddr, bodyAddr) else NewForRange(x, v, hi.value, endAddr, bodyAddr)
  }

  function StartForeach(s: State, x: nat, v: Value, hi: Option<Value>, endAddr: nat): Outcome {
    if v.Nothing? || (hi.Some? && hi.value.Nothing?) then Raise(s, IllegalForeach)
    else Advance(s.(fors := [NewRecord(x, v, hi, endAddr, s.pc + 1)] + s.fors))
  }

  function Pop(s: State, ns: int, nt: int, nf: int): Outcome {
    var f := if nf < 0 then 0 else nf;
    var t := if nt < 0 then 0 else nt;
    if s.scopes - ns < 0 || f > |s.fors| || t > |s.tries| then Stuck
    else Running(s.(pc := s.pc + 1, scopes := s.scopes - ns, fors := s.fors[f..], tries := s.tries[t..]))
  }

  function Jump(s: State, taken: bool, target: nat): Outcome {
    Running(s.(pc := if taken then target else s.pc + 1))
  }

  /** One round of the fetch loop. */
  function Step(code: seq<Instruction>, s: State): Outcome {
    if s.pc >= |code| then Stuck else Execute(code[s.pc], s)
  }

  /** The effect of one instruction.  An operand that was never written makes the machine stuck. */
  function Execute(i: Instruction, s: State): Outcome {
    match i
    case Nop => Running(s.(pc := s.pc + 1))
    case Temp(n) => Running(s.(pc := s.pc + 1, slots := s.slots - {n}))
    case Mov(d, a) =>
      (match Read(s, a) case None => Stuck case Some(v) => StoreResult(s, d, Ok(v)))
    case Unary(op, d, a) =>
      (match Read(s, a) case None => Stuck case Some(v) => StoreResult(s, d, ApplyUn(op, v)))
    case Binary(op, d, a, b) =>
      (match (Read(s, a), Read(s, b))
       case (Some(v), Some(w)) => StoreResult(s, d, ApplyBin(op, v, w))
       case _ => Stuck)
    case Branch(t) => Jump(s, true, t)
    case BranchTrue(a, t) =>
      (match Read(s, a) case None => Stuck case Some(v) => Jump(s, ToBool(v), t))
    case BranchFalse(a, t) =>
      (match Read(s, a) case None => Stuck case Some(v) => Jump(s, !ToBool(v), t))
    case PushScope => Running(s.(pc := s.pc + 1, scopes := s.scopes + 1))
    case PopScope(ns, nt, nf) => Pop(s, ns, nt, nf)
    case Try(c, e) => Running(s.(pc := s.pc + 1, tries := [TryRecord(c, e, s.scopes, |s.fors|)] + s.tries))
    case Catch(x) =>
      Running(s.(pc := s.pc + 1, store := Store(s.store.vars, s.store.caught[x := s.exn])))
    case Throw(a) =>
      (match Read(s, a) case None => Stuck case Some(v) => Raise(s, User(v)))
    case Foreach(x, a, hi, e) =>
      (match (Read(s, a), if hi.None? then Some(Nothing) else Read(s, hi.value))
       case (Some(v), Some(w)) => StartForeach(s, x, v, if hi.None? then None else Some(w), e)
       case _ => Stuck)
    case Next => Advance(s)
    case Ret => Finish(s, Returned(None))
    case RetVal(a) =>
      (match Read(s, a) case None => Stuck case Some(v) => Finish(s, Returned(Some(v))))
    case End => Finish(s, Ended)
  }

  /** At most k rounds; a halted machine stays halted. */
  function Run(code: seq<Instruction>, k: nat, s: State): Outcome
    decreases k
  {
    if k == 0 then Running(s)
    else match Step(code, s)
      case Running(s') => Run(code, k - 1, s')
      case o => o
  }

  /** Nodes that emission drops. */
  predicate IsPseudo(i: Instruction) {
    i.Nop? || i.Temp?
  }

  /** How many of the first k rounds execute an instruction that emission keeps. */
  function Work(code: seq<Instruction>, k: nat, s: State): nat
    decreases k
  {
    if k == 0 then 0
    else match Step(code, s)
      case Running(s') => (if IsPseudo(code[s.pc]) then 0 else 1) + Work(code, k - 1, s')
      case _ => 0
  }

  lemma {:induction false} RunAdd(code: seq<Instruction>, j: nat, k: nat, s: State)
    requires Run(code, j, s).Running?
    ensures Run(code, j + k, s) == Run(code, k, Run(code, j, s).s)
    ensures Work(code, j + k, s) == Work(code, j, s) + Work(code, k, Run(code, j, s).s)
    decreases j
  {
    hide Step, IsPseudo;
    if j > 0 {
      RunAdd(code, j - 1, k, Step(code, s).s);
    }
  }

  lemma NoRounds(code: seq<Instruction>, s: State)
    ensures Run(code, 0, s) == Running(s)
  {}

  lemma OneMore(code: seq<Instruction>, k: nat, s: State)
    requires Run(code, k, s).Running?
    ensures Run(code, k + 1, s) == Step(code, Run(code, k, s).s)
  {
    RunAdd(code, k, 1, s);
    assert Run(code, 1, Run(code, k, s).s) == Step(code, Run(code, k, s).s);
  }

  /** Once halted or stuck, further rounds change nothing. */
  lemma {:induction false} RunHalted(code: seq<Instruction>, j: nat, k: nat, s: State)
    requires !Run(code, j, s).Running? && j <= k
    ensures Run(code, k, s) == Run(code, j, s)
    decreases j
  {
    if Step(code, s).Running? {
      RunHalted(code, j - 1, k - 1, Step(code, s).s);
    }
  }
}

/** The flat machine with routines that call each other.  A suspended routine waits with its own
    state; scopes, foreach records and the exception belong to the whole machine. */
module Calls {
  import opened Values
  import opened Machine

  datatype Op = Plain(i: Machine.Instruction) | Call(dest: Option<Dest>, f: nat, args: seq<Operand>)

  /** A code sequence with the number of its registers and its static level. */
  datatype Routine = Routine(code: seq<Op>, nregs: nat, level: nat)

  type Program = seq<Routine>

  /** A routine that waits for the result of a call; m is at the instruction after the call. */
  datatype Caller = Caller(f: nat, m: State, dest: Option<Dest>)

  datatype World = World(f: nat, m: State, callers: seq<Caller>)

  datatype Course = Going(w: World) | Over(final: Final, store: Store) | Wrong

  /** The caller again, when the routine that it called has left m behind. */
  function Resume(c: Caller, m: State): State {
    c.m.(fors := m.fors, exn := m.exn)
  }

  /** An exception that no handler of the running routine takes: it goes to the innermost pending handler
      of the innermost caller that has one. */
  function Unwound(callers: seq<Caller>, m: State, t: Thrown): Course
    decreases |callers|
  {
    if callers == [] then Over(Uncaught(t), m.store)
    else
      var m' := Resume(callers[0], m);
      if m'.tries == [] then Unwound(callers[1..], m', t)
      else Going(World(callers[0].f, Raise(m', t).s, callers[1..]))
  }

  /** The value a routine leaves for its caller. */
  function ValueOf(final: Final): Value {
    if final.Returned? && final.v.Some? then final.v.value else Nothing
  }

  function Returning(callers: seq<Caller>, m: State, final: Final): Course {
    if callers == [] then Over(final, m.store)
    else
      var c := callers[0];
      var m' := Resume(c, m);
      Going(World(c.f, if c.dest.Some? then Write(m', c.dest.value, ValueOf(final)) else m', callers[1..]))
  }

  /** An int that has left all try blocks of the running routine, with n more to leave. */
  function Escaped(callers: seq<Caller>, m: State, n: nat): Course
    decreases |callers|
  {
    if callers == [] then Wrong
    else
      var c := callers[0];
      var m' := Resume(c, m);
      if n <= |m'.tries| then Going(World(c.f, m'.(tries := m'.tries[n..]), callers[1..]))
      else Escaped(callers[1..], m'.(tries := []), n - |m'.tries|)
  }

  /** What an outcome of the running routine means for the whole; m is the routine before it. */
  function Onward(f: nat, m: State, callers: seq<Caller>, o: Outcome): Course {
    match o
    case Running(m') => Going(World(f, m', callers))
    case Halted(Uncaught(t), _) => Unwound(callers, m, t)
    case Halted(final, _) => Returning(callers, m, final)
    case Stuck => Wrong
  }

  /** POPSCOPE may leave more try blocks than the routine has entered. */
  function PopAcross(f: nat, m: State, callers: seq<Caller>, ns: int, nt: int, nf: int): Course {
    if m.scopes - ns < 0 || nf > |m.fors| || nt <= |m.tries| then Onward(f, m, callers, Pop(m, ns, nt, nf))
    else
      Escaped(callers, m.(pc := m.pc + 1, scopes := m.scopes - ns, fors := m.fors[if nf < 0 then 0 else nf..], tries := []), nt - |m.tries|)
  }

  function ReadAll(m: State, args: seq<Operand>): Option<seq<Value>> {
    if args == [] then Some([])
    else match (Read(m, args[0]), ReadAll(m, args[1..]))
      case (Some(v), Some(vs)) => Some([v] + vs)
      case _ => None
  }

  /** The variables of a new stack frame: the parameters come first. */
  function Parameters(vs: seq<Value>): Store {
    Store(map x: nat | x < |vs| :: vs[x], map[])
  }

  /** A routine at its start: its own frame and registers, one more scope. */
  function Entry(m: State, vs: seq<Value>): State {
    State(0, map[], Parameters(vs), m.scopes + 1, m.fors, [], m.exn)
  }

  function Step(program: Program, w: World): Course {
    if w.f >= |program| || w.m.pc >= |program[w.f].code| then Wrong
    else match program[w.f].code[w.m.pc]
      case Call(d, g, args) =>
        var vs := ReadAll(w.m, args);
        if g >= |program| || vs.None? then Wrong
        else Going(World(g, Entry(w.m, vs.value), [Caller(w.f, w.m.(pc := w.m.pc + 1), d)] + w.callers))
      case Plain(PopScope(ns, nt, nf)) => PopAcross(w.f, w.m, w.callers, ns, nt, nf)
      case Plain(i) => Onward(w.f, w.m, w.callers, Execute(i, w.m))
  }

  function Run(program: Program, k: nat, w: World): Course
    decreases k
  {
    if k == 0 then Going(w)
    else match Step(program, w)
      case Going(w') => Run(program, k - 1, w')
      case o => o
  }

  lemma {:induction false} RunAdd(program: Program, j: nat, k: nat, w: World)
    requires Run(program, j, w).Going?
    ensures Run(program, j + k, w) == Run(program, k, Run(program, j, w).w)
    decreases j
  {
    hide Step;
    if j > 0 { RunAdd(program, j - 1, k, Step(program, w).w); }
  }

  lemma NoRounds(program: Program, w: World)
    ensures Run(program, 0, w) == Going(w)
  {}

  lemma OneMore(program: Program, k: nat, w: World)
    requires Run(program, k, w).Going?
    ensures Run(program, k + 1, w) == Step(program, Run(program, k, w).w)
  {
    hide Step;
    RunAdd(program, k, 1, w);
    var u := Run(program, k, w).w;
    NoRounds(program, u);
    assert Run(program, 1, u) == Step(program, u);
  }

  // ----- what a call passes and what it gets -----

  /** A frame with the arguments in its first variables and nothing else. */
  ghost predicate Passed(m: State, args: seq<Operand>, st: Store) {
    && st.caught == map[] && (forall k: nat :: k in st.vars <==> k < |args|)
    && forall k: nat :: k < |args| ==> Read(m, args[k]) == Some(st.vars[k])
  }

  lemma {:induction false} AllRead(m: State, args: seq<Operand>)
    ensures ReadAll(m, args).Some? <==> forall k: nat :: k < |args| ==> Read(m, args[k]).Some?
    ensures ReadAll(m, args).Some? ==>
              |ReadAll(m, args).value| == |args| && forall k: nat :: k < |args| ==> Read(m, args[k]) == Some(ReadAll(m, args).value[k])
  {
    hide Read;
    if args != [] {
      AllRead(m, args[1..]);
      forall k: nat | k < |args| ensures Read(m, args[k]) == if k == 0 then Read(m, args[0]) else Read(m, args[1..][k - 1]) {}
      if ReadAll(m, args).None? && Read(m, args[0]).Some? {
        var k: nat :| k < |args[1..]| && Read(m, args[1..][k]).None?;
        assert Read(m, args[k + 1]).None?;
      }
    }
  }

  /** A call of routine g starts it at its first instruction with no registers, in a frame whose k-th
      variable is the k-th argument, as the caller reads it; the caller waits at the instruction after. */
  lemma CallPasses(program: Program, w: World, d: Option<Dest>, g: nat, args: seq<Operand>)
    requires w.f < |program| && w.m.pc < |program[w.f].code| && program[w.f].code[w.m.pc] == Call(d, g, args)
    ensures Run(program, 1, w).Going? <==> g < |program| && forall k: nat :: k < |args| ==> Read(w.m, args[k]).Some?
    ensures Run(program, 1, w).Going? ==>
              var u := Run(program, 1, w).w;
              && u.f == g && u.m.pc == 0 && u.m.slots == map[] && Passed(w.m, args, u.m.store)
              && u.m.scopes == w.m.scopes + 1 && u.m.fors == w.m.fors && u.m.tries == [] && u.m.exn == w.m.exn
              && u.callers == [Caller(w.f, w.m.(pc := w.m.pc + 1), d)] + w.callers
  {
    hide Read, ReadAll;
    AllRead(w.m, args);
    NoRounds(program, w);
    OneMore(program, 0, w);
  }

  /** The value that RETVAL reads in the called routine goes to the destination of the call, and the caller
      goes on with everything else of its own as it was; after RET and END the value is none. */
  lemma ReturnDelivers(program: Program, w: World, c: Caller, rest: seq<Caller>, a: Operand)
    requires w.f < |program| && w.m.pc < |program[w.f].code| && w.callers == [c] + rest && w.m.tries == []
    requires program[w.f].code[w.m.pc] in {Plain(RetVal(a)), Plain(Ret), Plain(End)}
    requires program[w.f].code[w.m.pc].i.RetVal? ==> Read(w.m, a).Some?
    ensures var v := if program[w.f].code[w.m.pc].i.RetVal? then Read(w.m, a).value else Nothing;
            var back := c.m.(fors := w.m.fors, exn := w.m.exn);
            Run(program, 1, w) == Going(World(c.f,
              (match c.dest
               case None => back
               case Some(ToSlot(n)) => back.(slots := back.slots[n := v])
               case Some(ToVariable(x)) => back.(store := Store(back.store.vars[x := v], back.store.caught))),
              rest))
  {
    hide Execute, Read, Run;
    assert w.callers[0] == c && w.callers[1..] == rest;
    NoRounds(program, w);
    OneMore(program, 0, w);
    Halts(program[w.f].code[w.m.pc].i, w.m);
  }

  /** RETVAL, RET and END outside of a try block. */
  lemma Halts(i: Machine.Instruction, m: State)
    requires (i.RetVal? || i.Ret? || i.End?) && m.tries == [] && (i.RetVal? ==> Read(m, i.a).Some?)
    ensures var o := Execute(i, m);
            o.Halted? && !o.f.Uncaught? && o.store == m.store && ValueOf(o.f) == if i.RetVal? then Read(m, i.a).value else Nothing
  {}

  // ----- programs without calls -----

  /** A single routine without calls. */
  function Alone(code: seq<Machine.Instruction>, nregs: nat): Program {
    [Routine(seq(|code|, i requires 0 <= i < |code| => Plain(code[i])), nregs, 0)]
  }

  function Embedded(o: Outcome): Course {
    match o
    case Running(m) => Going(World(0, m, []))
    case Halted(final, st) => Over(final, st)
    case Stuck => Wrong
  }

  lemma StepAlone(code: seq<Machine.Instruction>, nregs: nat, m: State)
    ensures Step(Alone(code, nregs), World(0, m, [])) == Embedded(Machine.Step(code, m))
  {
    if m.pc < |code| {
      HaltedStore(code[m.pc], m);
      PopTries(m, 0, 0, 0);
      if code[m.pc].PopScope? { PopTries(m, code[m.pc].scopes, code[m.pc].tries, code[m.pc].fors); }
    }
  }

  lemma PopTries(m: State, ns: int, nt: int, nf: int)
    ensures nt > |m.tries| ==> Pop(m, ns, nt, nf) == Stuck
  {}

  /** Halting leaves the store as it is. */
  lemma HaltedStore(i: Machine.Instruction, m: State)
    ensures Execute(i, m).Halted? ==> Execute(i, m).store == m.store && (Execute(i, m).f.Uncaught? ==> m.tries == [])
  {}

  /** Such a program runs as on the machine without calls. */
  lemma {:induction false} RunAlone(code: seq<Machine.Instruction>, nregs: nat, k: nat, m: State)
    ensures Run(Alone(code, nregs), k, World(0, m, [])) == Embedded(Machine.Run(code, k, m))
    decreases k
  {
    hide Step, Machine.Step, Alone;
    if k > 0 {
      StepAlone(code, nregs, m);
      if Machine.Step(code, m).Running? { RunAlone(code, nregs, k - 1, Machine.Step(code, m).s); }
    }
  }
}

/** Code whose loops and try blocks are properly nested, like a bytecode verifier would check it, and
    what that gives at run time: an exception finds as many foreach records at its handler as there were
    at TRY. */
module Nesting {
  import opened Values
  import opened Machine
  import opened Calls
  import InterpreterLoop

  /** A foreach loop that is running, and a try block that is pending inside so many loops. */
  datatype Loop = Loop(endAddr: nat, bodyAddr: nat)

  datatype Mark = Mark(catchAddr: nat, endAddr: nat, loops: nat)

  /** What a routine has entered when it comes to an instruction, innermost first. */
  datatype Depth = Depth(marks: seq<Mark>, loops: seq<Loop>)

  /** The depth at each instruction of each routine. */
  type Plan = seq<seq<Depth>>

  predicate Ordered(d: Depth) {
    && (forall i :: 0 <= i < |d.marks| ==> d.marks[i].loops <= |d.loops|)
    && (forall i, j :: 0 <= i < j < |d.marks| ==> d.marks[j].loops <= d.marks[i].loops)
  }

  /** The depth at the handler of the innermost try block. */
  function AtHandler(d: Depth): Depth
    requires d.marks != [] && Ordered(d)
  {
    Depth(d.marks[1..], d.loops[|d.loops| - d.marks[0].loops..])
  }

  predicate At(plan: Plan, f: nat, pc: nat, d: Depth) {
    f < |plan| && pc < |plan[f]| && plan[f][pc] == d
  }

  /** The depths after the instruction at pc are those the plan gives for where it leads. */
  predicate Keeps(plan: Plan, f: nat, pc: nat, op: Op)
    requires f < |plan| && pc < |plan[f]|
  {
    var d := plan[f][pc];
    && Ordered(d) && (d.marks != [] ==> At(plan, f, d.marks[0].catchAddr, AtHandler(d)))
    && match op
       case Call(_, _, _) => At(plan, f, pc + 1, d)
       case Plain(i) => Follows(plan, f, pc, d, i)
  }

  predicate Follows(plan: Plan, f: nat, pc: nat, d: Depth, i: Machine.Instruction) {
    match i
    case Branch(t) => At(plan, f, t, d)
    case BranchTrue(_, t) => At(plan, f, t, d) && At(plan, f, pc + 1, d)
    case BranchFalse(_, t) => At(plan, f, t, d) && At(plan, f, pc + 1, d)
    case PopScope(_, nt, nf) => 0 <= nt <= |d.marks| && 0 <= nf <= |d.loops| && At(plan, f, pc + 1, Depth(d.marks[nt..], d.loops[nf..]))
    case Try(c, e) => At(plan, f, pc + 1, Depth([Mark(c, e, |d.loops|)] + d.marks, d.loops))
    case Throw(_) => true
    case Foreach(_, _, _, e) => At(plan, f, e, d) && At(plan, f, pc + 1, Depth(d.marks, [Loop(e, pc + 1)] + d.loops))
    case Next => d.loops != [] && At(plan, f, d.loops[0].bodyAddr, d) && At(plan, f, d.loops[0].endAddr, Depth(d.marks, d.loops[1..]))
    case Ret => Leaves(plan, f, d)
    case RetVal(_) => Leaves(plan, f, d)
    case End => Leaves(plan, f, d)
    case _ => At(plan, f, pc + 1, d)
  }

  /** END and RET end the innermost try block, or the routine when no loop is running. */
  predicate Leaves(plan: Plan, f: nat, d: Depth) {
    if d.marks == [] then d.loops == [] else At(plan, f, d.marks[0].endAddr, Depth(d.marks[1..], d.loops))
  }

  /** A program with depths that fit: routines start with nothing entered. */
  predicate WellNested(plan: Plan, program: Program) {
    |plan| == |program| && forall f :: 0 <= f < |program| ==> Planned(plan, program, f)
  }

  predicate Planned(plan: Plan, program: Program, f: nat)
    requires f < |plan| && f < |program|
  {
    && |plan[f]| == |program[f].code| && At(plan, f, 0, Depth([], []))
    && forall pc :: 0 <= pc < |program[f].code| ==> Keeps(plan, f, pc, program[f].code[pc])
  }

  // ----- at run time -----

  predicate SameLoop(l: Loop, r: ForRecord) {
    r.endAddr == l.endAddr && r.bodyAddr == l.bodyAddr
  }

  /** A pending dotry for the mark, when so many records belong to the callers. */
  predicate SameMark(m: Mark, r: TryRecord, below: nat) {
    r.catchAddr == m.catchAddr && r.endAddr == m.endAddr && r.fors == m.loops + below
  }

  /** A routine has entered d. */
  predicate Matches(d: Depth, m: State) {
    && |d.loops| <= |m.fors| && (forall i :: 0 <= i < |d.loops| ==> SameLoop(d.loops[i], m.fors[i]))
    && |m.tries| == |d.marks| && (forall i :: 0 <= i < |d.marks| ==> SameMark(d.marks[i], m.tries[i], |m.fors| - |d.loops|))
  }

  /** The routine is where the plan says. */
  predicate Fitting(plan: Plan, f: nat, m: State) {
    f < |plan| && m.pc < |plan[f]| && Matches(plan[f][m.pc], m)
  }

  /** The records of the callers. */
  function Rest(plan: Plan, f: nat, m: State): seq<ForRecord>
    requires Fitting(plan, f, m)
  {
    m.fors[|plan[f][m.pc].loops|..]
  }

  /** The running routine and all its callers are where the plan says. */
  predicate Nested(plan: Plan, f: nat, m: State, callers: seq<Caller>)
    decreases |callers|
  {
    && Fitting(plan, f, m)
    && if callers == [] then Rest(plan, f, m) == []
       else Nested(plan, callers[0].f, callers[0].m.(fors := Rest(plan, f, m)), callers[1..])
  }

  // ----- one instruction -----

  /** From m to m' within a routine. */
  predicate Local(plan: Plan, f: nat, m: State, m': State) {
    Fitting(plan, f, m) && Fitting(plan, f, m') && Rest(plan, f, m') == Rest(plan, f, m)
  }

  lemma LocalNested(plan: Plan, f: nat, m: State, m': State, callers: seq<Caller>)
    requires Nested(plan, f, m, callers) && Local(plan, f, m, m')
    ensures Nested(plan, f, m', callers)
  {}

  /** The exception finds its handler in the routine; the loops entered since TRY are gone. */
  lemma RaiseFits(plan: Plan, f: nat, m: State, fors: seq<ForRecord>, t: Thrown)
    requires Fitting(plan, f, m) && m.tries != [] && Ordered(plan[f][m.pc])
    requires At(plan, f, plan[f][m.pc].marks[0].catchAddr, AtHandler(plan[f][m.pc]))
    requires |m.fors| <= |fors| && fors[|fors| - |m.fors|..] == m.fors
    ensures Raise(m.(fors := fors), t).Running? && Local(plan, f, m, Raise(m.(fors := fors), t).s)
  {
    var d := plan[f][m.pc];
    var r := m.tries[0];
    assert SameMark(d.marks[0], r, |m.fors| - |d.loops|);
    var cut := Truncate(fors, r.fors);
    var n := |m.fors| - r.fors;
    assert cut == m.fors[n..];
    var d' := AtHandler(d);
    forall i | 0 <= i < |d'.loops| ensures SameLoop(d'.loops[i], cut[i]) {
      assert SameLoop(d.loops[i + n], m.fors[i + n]);
    }
    forall i | 0 <= i < |d'.marks| ensures SameMark(d'.marks[i], m.tries[1..][i], |cut| - |d'.loops|) {
      assert SameMark(d.marks[i + 1], m.tries[i + 1], |m.fors| - |d.loops|);
    }
  }

  lemma FinishFits(plan: Plan, f: nat, m: State, final: Final)
    requires Fitting(plan, f, m) && m.tries != [] && Leaves(plan, f, plan[f][m.pc])
    ensures Finish(m, final).Running? && Local(plan, f, m, Finish(m, final).s)
  {
    var d := plan[f][m.pc];
    assert SameMark(d.marks[0], m.tries[0], |m.fors| - |d.loops|);
    forall i | 0 <= i < |d.marks| - 1 ensures SameMark(d.marks[1..][i], m.tries[1..][i], |m.fors| - |d.loops|) {
      assert SameMark(d.marks[i + 1], m.tries[i + 1], |m.fors| - |d.loops|);
    }
  }

  lemma PopFits(plan: Plan, f: nat, m: State, ns: int, nt: int, nf: int)
    requires Fitting(plan, f, m) && Follows(plan, f, m.pc, plan[f][m.pc], PopScope(ns, nt, nf)) && Pop(m, ns, nt, nf).Running?
    ensures Local(plan, f, m, Pop(m, ns, nt, nf).s)
  {
    var d := plan[f][m.pc];
    forall i | 0 <= i < |d.loops| - nf ensures SameLoop(d.loops[nf..][i], m.fors[nf..][i]) {
      assert SameLoop(d.loops[i + nf], m.fors[i + nf]);
    }
    forall i | 0 <= i < |d.marks| - nt ensures SameMark(d.marks[nt..][i], m.tries[nt..][i], |m.fors| - |d.loops|) {
      assert SameMark(d.marks[i + nt], m.tries[i + nt], |m.fors| - |d.loops|);
    }
  }

  lemma AdvanceFits(plan: Plan, f: nat, m: State, d: Depth)
    requires f < |plan| && Matches(d, m) && d.loops != [] && Advance(m).Running?
    requires At(plan, f, d.loops[0].bodyAddr, d) && At(plan, f, d.loops[0].endAddr, Depth(d.marks, d.loops[1..]))
    ensures var m' := Advance(m).s; Fitting(plan, f, m') && Rest(plan, f, m') == m.fors[|d.loops|..]
  {
    assert SameLoop(d.loops[0], m.fors[0]);
    var m' := Advance(m).s;
    if m.fors[0].cur == m.fors[0].end {
      forall i | 0 <= i < |d.loops| - 1 ensures SameLoop(d.loops[1..][i], m'.fors[i]) {
        assert SameLoop(d.loops[i + 1], m.fors[i + 1]);
      }
    } else {
      forall i | 0 <= i < |d.loops| ensures SameLoop(d.loops[i], m'.fors[i]) {
        assert SameLoop(d.loops[i], m.fors[i]);
      }
    }
  }

  lemma ForeachFits(plan: Plan, f: nat, m: State, i: Machine.Instruction)
    requires i.Foreach? && Fitting(plan, f, m) && Keeps(plan, f, m.pc, Plain(i)) && Execute(i, m).Running?
    ensures Local(plan, f, m, Execute(i, m).s)
  {
    hide Advance, Raise;
    var d := plan[f][m.pc];
    var v := Read(m, i.a).value;
    var w := if i.hi.None? then None else Read(m, i.hi.value);
    if v.Nothing? || (w.Some? && w.value.Nothing?) {
      RaiseHere(plan, f, m, IllegalForeach);
    } else {
      var r := NewRecord(i.x, v, w, i.endAddr, m.pc + 1);
      var m1 := m.(fors := [r] + m.fors);
      var d1 := Depth(d.marks, [Loop(i.endAddr, m.pc + 1)] + d.loops);
      Entered(d, d1, m, m1, r);
      assert d1.loops[1..] == d.loops;
      AdvanceFits(plan, f, m1, d1);
    }
  }

  lemma Entered(d: Depth, d1: Depth, m: State, m1: State, r: ForRecord)
    requires Matches(d, m) && m1 == m.(fors := [r] + m.fors) && d1.marks == d.marks && |d1.loops| == |d.loops| + 1 && d1.loops[1..] == d.loops
    requires SameLoop(d1.loops[0], r)
    ensures Matches(d1, m1) && m1.fors[|d1.loops|..] == m.fors[|d.loops|..]
  {
    forall i | 0 <= i < |d1.loops| ensures SameLoop(d1.loops[i], m1.fors[i]) {
      if i > 0 { assert SameLoop(d.loops[i - 1], m.fors[i - 1]); }
    }
    forall i | 0 <= i < |d1.marks| ensures SameMark(d1.marks[i], m1.tries[i], |m1.fors| - |d1.loops|) {
      assert SameMark(d.marks[i], m.tries[i], |m.fors| - |d.loops|);
    }
  }

  lemma RaiseHere(plan: Plan, f: nat, m: State, t: Thrown)
    requires Fitting(plan, f, m) && Ordered(plan[f][m.pc]) && Raise(m, t).Running?
    requires plan[f][m.pc].marks != [] ==> At(plan, f, plan[f][m.pc].marks[0].catchAddr, AtHandler(plan[f][m.pc]))
    ensures Local(plan, f, m, Raise(m, t).s)
  {
    assert m.fors[0..] == m.fors;
    RaiseFits(plan, f, m, m.fors, t);
  }

  lemma TryFits(plan: Plan, f: nat, m: State, c: nat, e: nat)
    requires Fitting(plan, f, m) && Follows(plan, f, m.pc, plan[f][m.pc], Try(c, e))
    ensures Local(plan, f, m, Execute(Try(c, e), m).s)
  {
    var d := plan[f][m.pc];
    var m' := Execute(Try(c, e), m).s;
    var d' := Depth([Mark(c, e, |d.loops|)] + d.marks, d.loops);
    forall i | 0 <= i < |d'.marks| ensures SameMark(d'.marks[i], m'.tries[i], |m.fors| - |d.loops|) {
      if i > 0 { assert SameMark(d.marks[i - 1], m.tries[i - 1], |m.fors| - |d.loops|); }
    }
  }

  /** Instructions that enter and leave nothing. */
  lemma SameDepthFits(plan: Plan, f: nat, m: State, m': State)
    requires Fitting(plan, f, m) && At(plan, f, m'.pc, plan[f][m.pc]) && m'.fors == m.fors && m'.tries == m.tries
    ensures Local(plan, f, m, m')
  {}

  lemma StoreFits(plan: Plan, f: nat, m: State, d: Dest, r: Result)
    requires Fitting(plan, f, m) && Ordered(plan[f][m.pc]) && At(plan, f, m.pc + 1, plan[f][m.pc]) && StoreResult(m, d, r).Running?
    requires plan[f][m.pc].marks != [] ==> At(plan, f, plan[f][m.pc].marks[0].catchAddr, AtHandler(plan[f][m.pc]))
    ensures Local(plan, f, m, StoreResult(m, d, r).s)
  {
    hide Raise, Matches;
    if r.Ok? {
      SameDepthFits(plan, f, m, StoreResult(m, d, r).s);
    } else {
      RaiseHere(plan, f, m, r.t);
    }
  }

  lemma PlainFits(plan: Plan, f: nat, m: State, i: Machine.Instruction)
    requires Fitting(plan, f, m) && Keeps(plan, f, m.pc, Plain(i)) && Execute(i, m).Running?
    ensures Local(plan, f, m, Execute(i, m).s)
  {
    hide Local, Fitting, Raise, Finish, Advance, Pop, StartForeach, Ordered, StoreResult, ApplyUn, ApplyBin;
    match i
    case Foreach(_, _, _, _) => ForeachFits(plan, f, m, i);
    case Mov(d, a) => StoreFits(plan, f, m, d, Ok(Read(m, a).value));
    case Unary(op, d, a) => StoreFits(plan, f, m, d, ApplyUn(op, Read(m, a).value));
    case Binary(op, d, a, b) => StoreFits(plan, f, m, d, ApplyBin(op, Read(m, a).value, Read(m, b).value));
    case PopScope(ns, nt, nf) => PopFits(plan, f, m, ns, nt, nf);
    case Try(c, e) => TryFits(plan, f, m, c, e);
    case Throw(a) => RaiseHere(plan, f, m, User(Read(m, a).value));
    case Next => NextFits(plan, f, m);
    case Ret => LeaveFits(plan, f, m, Returned(None));
    case RetVal(a) => LeaveFits(plan, f, m, Returned(Some(Read(m, a).value)));
    case End => LeaveFits(plan, f, m, Ended);
    case _ => SameDepthFits(plan, f, m, Execute(i, m).s);
  }

  lemma NextFits(plan: Plan, f: nat, m: State)
    requires Fitting(plan, f, m) && Follows(plan, f, m.pc, plan[f][m.pc], Next) && Advance(m).Running?
    ensures Local(plan, f, m, Advance(m).s)
  {
    hide Advance;
    AdvanceFits(plan, f, m, plan[f][m.pc]);
  }

  lemma LeaveFits(plan: Plan, f: nat, m: State, final: Final)
    requires Fitting(plan, f, m) && Leaves(plan, f, plan[f][m.pc]) && Finish(m, final).Running?
    ensures Local(plan, f, m, Finish(m, final).s)
  {
    FinishFits(plan, f, m, final);
  }

  // ----- between routines -----

  /** An exception on its way through the callers: whatever records it brings along, below are theirs. */
  lemma {:induction false} UnwoundFits(plan: Plan, program: Program, callers: seq<Caller>, m: State, below: seq<ForRecord>, t: Thrown)
    requires WellNested(plan, program) && |below| <= |m.fors| && m.fors[|m.fors| - |below|..] == below
    requires callers != [] ==> Nested(plan, callers[0].f, callers[0].m.(fors := below), callers[1..])
    ensures var o := Unwound(callers, m, t); o.Going? ==> Nested(plan, o.w.f, o.w.m, o.w.callers)
    decreases |callers|
  {
    hide Matches, WellNested, Raise, Local;
    if callers != [] {
      var c := callers[0];
      var m0, m' := c.m.(fors := below), Resume(c, m);
      var d := plan[c.f][m0.pc];
      DepthOk(plan, program, c.f, m0);
      if m'.tries == [] {
        NoTries(d, m0);
        var rest := Rest(plan, c.f, m0);
        assert m'.fors[|m'.fors| - |rest|..] == rest by { Suffixes(m.fors, below, |d.loops|); }
        UnwoundFits(plan, program, callers[1..], m', rest, t);
      } else {
        HasTries(d, m0);
        var m1 := m0.(exn := m.exn);
        assert Fitting(plan, c.f, m1) by { ExnFits(d, m0, m1); }
        RaiseFits(plan, c.f, m1, m.fors, t);
        assert m1.(fors := m.fors) == m';
        ThroughExn(plan, c.f, m0, m1, callers[1..]);
        LocalNested(plan, c.f, m1, Raise(m', t).s, callers[1..]);
      }
    }
  }

  lemma Suffixes(s: seq<ForRecord>, below: seq<ForRecord>, n: nat)
    requires |below| <= |s| && s[|s| - |below|..] == below && n <= |below|
    ensures s[|s| - |below[n..]|..] == below[n..]
  {}

  lemma NoTries(d: Depth, m: State)
    requires Matches(d, m)
    ensures |d.loops| <= |m.fors|
  {}

  lemma HasTries(d: Depth, m: State)
    requires Matches(d, m)
    ensures |m.tries| == |d.marks|
  {}

  lemma ExnFits(d: Depth, m: State, m': State)
    requires Matches(d, m) && m' == m.(exn := m'.exn)
    ensures Matches(d, m')
  {}

  lemma ThroughExn(plan: Plan, f: nat, m: State, m': State, callers: seq<Caller>)
    requires Nested(plan, f, m, callers) && m' == m.(slots := m'.slots, store := m'.store, exn := m'.exn)
    ensures Nested(plan, f, m', callers)
  {}

  lemma DepthOk(plan: Plan, program: Program, f: nat, m: State)
    requires WellNested(plan, program) && Fitting(plan, f, m)
    ensures f < |program| && |plan[f]| == |program[f].code| && Keeps(plan, f, m.pc, program[f].code[m.pc])
    ensures Ordered(plan[f][m.pc]) && (plan[f][m.pc].marks != [] ==> At(plan, f, plan[f][m.pc].marks[0].catchAddr, AtHandler(plan[f][m.pc])))
  {
    hide Matches, Follows, Ordered;
    assert Planned(plan, program, f);
  }

  lemma CallFits(plan: Plan, program: Program, f: nat, m: State, callers: seq<Caller>, d: Option<Dest>, g: nat, vs: seq<Value>)
    requires WellNested(plan, program) && g < |program| && Nested(plan, f, m, callers) && At(plan, f, m.pc + 1, plan[f][m.pc])
    ensures Nested(plan, g, Entry(m, vs), [Caller(f, m.(pc := m.pc + 1), d)] + callers)
  {
    hide WellNested;
    StartsEmpty(plan, program, g);
    var m' := m.(pc := m.pc + 1);
    SameDepthFits(plan, f, m, m');
    LocalNested(plan, f, m, m', callers);
    var all := [Caller(f, m', d)] + callers;
    assert all[1..] == callers;
    assert m'.(fors := m.fors) == m';
  }

  lemma StartsEmpty(plan: Plan, program: Program, g: nat)
    requires WellNested(plan, program) && g < |program|
    ensures At(plan, g, 0, Depth([], []))
  {
    hide Keeps;
    assert Planned(plan, program, g);
  }

  lemma ReturnFits(plan: Plan, f: nat, m: State, callers: seq<Caller>, final: Final)
    requires Nested(plan, f, m, callers) && plan[f][m.pc].loops == []
    ensures var o := Returning(callers, m, final); o.Going? ==> Nested(plan, o.w.f, o.w.m, o.w.callers)
  {
    hide Matches;
    if callers != [] {
      var c := callers[0];
      assert Rest(plan, f, m) == m.fors;
      ThroughExn(plan, c.f, c.m.(fors := m.fors), Returning(callers, m, final).w.m, callers[1..]);
    }
  }

  /** Every instruction keeps the nesting. */
  lemma StepFits(plan: Plan, program: Program, w: World)
    requires WellNested(plan, program) && Nested(plan, w.f, w.m, w.callers) && Calls.Step(program, w).Going?
    ensures var w' := Calls.Step(program, w).w; Nested(plan, w'.f, w'.m, w'.callers)
  {
    hide WellNested, Matches, Execute, Unwound, Returning, ReadAll, Ordered, Local, Follows;
    DepthOk(plan, program, w.f, w.m);
    match program[w.f].code[w.m.pc]
    case Call(d, g, args) => CallFits(plan, program, w.f, w.m, w.callers, d, g, ReadAll(w.m, args).value);
    case Plain(i) =>
      if Execute(i, w.m).Running? {
        PlainFits(plan, w.f, w.m, i);
        LocalNested(plan, w.f, w.m, Execute(i, w.m).s, w.callers);
        PopIsExecute(w, i);
      } else {
        LeavesRoutine(plan, program, w, i);
      }
  }

  lemma PopIsExecute(w: World, i: Machine.Instruction)
    requires Execute(i, w.m).Running?
    ensures i.PopScope? ==> PopAcross(w.f, w.m, w.callers, i.scopes, i.tries, i.fors) == Going(World(w.f, Execute(i, w.m).s, w.callers))
  {}

  lemma LeavesRoutine(plan: Plan, program: Program, w: World, i: Machine.Instruction)
    requires WellNested(plan, program) && Nested(plan, w.f, w.m, w.callers) && Keeps(plan, w.f, w.m.pc, Plain(i)) && !Execute(i, w.m).Running?
    requires w.f < |program| && w.m.pc < |program[w.f].code| && program[w.f].code[w.m.pc] == Plain(i) && Calls.Step(program, w).Going?
    ensures var w' := Calls.Step(program, w).w; Nested(plan, w'.f, w'.m, w'.callers)
  {
    hide WellNested, Unwound, Returning, Ordered, Local, Nested, Matches, Keeps, Execute, Calls.Step;
    StepLeft(program, w, i);
    RestIs(plan, w);
    HowLeft(plan, w.f, w.m, w.callers, i);
    if Execute(i, w.m).Halted? {
      if Execute(i, w.m).f.Uncaught? {
        UnwoundFits(plan, program, w.callers, w.m, Rest(plan, w.f, w.m), Execute(i, w.m).f.t);
      } else {
        ReturnFits(plan, w.f, w.m, w.callers, Execute(i, w.m).f);
      }
    }
  }

  lemma StepLeft(program: Program, w: World, i: Machine.Instruction)
    requires w.f < |program| && w.m.pc < |program[w.f].code| && program[w.f].code[w.m.pc] == Plain(i) && !Execute(i, w.m).Running?
    ensures Calls.Step(program, w) ==
            if i.PopScope? then PopAcross(w.f, w.m, w.callers, i.scopes, i.tries, i.fors)
            else if Execute(i, w.m).Stuck? then Wrong
            else if Execute(i, w.m).f.Uncaught? then Unwound(w.callers, w.m, Execute(i, w.m).f.t)
            else Returning(w.callers, w.m, Execute(i, w.m).f)
    ensures i.PopScope? ==> Execute(i, w.m).Stuck?
  {
    hide Unwound, Returning, PopAcross;
  }

  lemma RestIs(plan: Plan, w: World)
    requires Nested(plan, w.f, w.m, w.callers)
    ensures Fitting(plan, w.f, w.m)
    ensures var rest := Rest(plan, w.f, w.m);
            && |rest| <= |w.m.fors| && w.m.fors[|w.m.fors| - |rest|..] == rest
            && (w.callers != [] ==> Nested(plan, w.callers[0].f, w.callers[0].m.(fors := rest), w.callers[1..]))
  {}

  /** A routine is left by an exception, or when it has left all its loops. */
  lemma HowLeft(plan: Plan, f: nat, m: State, callers: seq<Caller>, i: Machine.Instruction)
    requires Fitting(plan, f, m) && Keeps(plan, f, m.pc, Plain(i)) && !Execute(i, m).Running?
    ensures Execute(i, m).Halted? && !Execute(i, m).f.Uncaught? ==> plan[f][m.pc].loops == []
    ensures i.PopScope? ==> PopAcross(f, m, callers, i.scopes, i.tries, i.fors).Wrong?
  {
    hide Ordered, ApplyUn, ApplyBin;
  }

  // ----- whole runs -----

  lemma {:induction false} RunFits(plan: Plan, program: Program, k: nat, w: World)
    requires WellNested(plan, program) && Nested(plan, w.f, w.m, w.callers) && Calls.Run(program, k, w).Going?
    ensures var w' := Calls.Run(program, k, w).w; Nested(plan, w'.f, w'.m, w'.callers)
    decreases k
  {
    hide WellNested, Nested, Calls.Step;
    if k > 0 {
      StepFits(plan, program, w);
      RunFits(plan, program, k - 1, Calls.Step(program, w).w);
    }
  }

  /** With the same callers waiting, equal depths mean equally many records. */
  lemma {:induction false} SameRecords(plan: Plan, f: nat, m: State, m': State, callers: seq<Caller>)
    requires Nested(plan, f, m, callers) && Nested(plan, f, m', callers) && plan[f][m.pc].loops == plan[f][m'.pc].loops
    ensures |m.fors| == |m'.fors|
    decreases |callers|
  {
    hide Matches;
    LoopsThere(plan[f][m.pc], m);
    LoopsThere(plan[f][m'.pc], m');
    if callers != [] {
      var c := callers[0];
      SameRecords(plan, c.f, c.m.(fors := Rest(plan, f, m)), c.m.(fors := Rest(plan, f, m')), callers[1..]);
    }
  }

  lemma LoopsThere(d: Depth, m: State)
    requires Matches(d, m)
    ensures |d.loops| <= |m.fors|
  {}

  /** The plan has the same loops at TRY and at its handler. */
  lemma HandlerDepth(plan: Plan, program: Program, f: nat, pc: nat, c: nat, e: nat)
    requires WellNested(plan, program) && f < |program| && pc < |program[f].code| && program[f].code[pc] == Plain(Try(c, e))
    ensures pc < |plan[f]| && At(plan, f, c, plan[f][pc])
  {
    assert Planned(plan, program, f);
    var d := plan[f][pc];
    assert Keeps(plan, f, pc, program[f].code[pc]);
    var d' := Depth([Mark(c, e, |d.loops|)] + d.marks, d.loops);
    assert Keeps(plan, f, pc + 1, program[f].code[pc + 1]);
    assert d'.marks[1..] == d.marks && d'.loops[0..] == d.loops;
  }

  // ----- an example -----

  /** A try block around a call, and a routine that throws inside a foreach. */
  function Thrower(): Program {
    [Routine([Plain(Try(3, 4)), Call(None, 1, []), Plain(End), Plain(Catch(0)), Plain(End)], 0, 0),
     Routine([Plain(Machine.Foreach(0, Immediate(Num(KInt, 1)), None, 3)), Plain(Machine.Throw(Immediate(Num(KInt, 7)))), Plain(Next), Plain(End)], 0, 0)]
  }

  function ThrowerPlan(): Plan {
    var none, try_, loop := Depth([], []), Depth([Mark(3, 4, 0)], []), Depth([], [Loop(3, 1)]);
    [[none, try_, try_, none, none], [none, loop, loop, none]]
  }

  /** The exception leaves the loop and the call, and nothing of them is left at the handler. */
  lemma ThrownAcrossCall(st: Store, exn: Thrown)
    ensures WellNested(ThrowerPlan(), Thrower())
    ensures Calls.Run(Thrower(), 4, World(0, State(0, map[], st, 0, [], [], exn), []))
         == Going(World(0, State(3, map[], st, 0, [], [], User(Num(KInt, 7))), []))
  {
    hide WellNested, Wrap32, Parameters, NewFor, ControlValue, ThrowerPlan, Thrower, Calls.Step, Calls.Run;
    ThrowerNests();
    Calls.NoRounds(Thrower(), World(0, State(0, map[], st, 0, [], [], exn), []));
    var program := Thrower();
    var w0 := World(0, State(0, map[], st, 0, [], [], exn), []);
    var w1 := World(0, w0.m.(pc := 1, tries := [TryRecord(3, 4, 0, 0)]), []);
    var c := Caller(0, w1.m.(pc := 2), None);
    var w2 := World(1, Entry(w1.m, []), [c]);
    EntersTry(w0);
    assert [TryRecord(3, 4, 0, 0)] + w0.m.tries == w1.m.tries && [c] + w1.callers == [c];
    EntersRoutine(w1);
    var r := NewFor(0, Num(KInt, 1), 3, 1);
    var w3 := World(1, State(1, map[], w2.m.store.Set(0, ControlValue(r.kind, r.cur)), 1, [r.(cur := Wrap32(r.cur + r.dir))], [], exn), [c]);
    EntersLoop(w2);
    ThrownOn(w3, c);
    Calls.OneMore(program, 0, w0);
    Calls.OneMore(program, 1, w0);
    Calls.OneMore(program, 2, w0);
    Calls.OneMore(program, 3, w0);
  }

  lemma EntersTry(w: World)
    requires w.f == 0 && w.m.pc == 0
    ensures Calls.Step(Thrower(), w) == Going(World(0, w.m.(pc := 1, tries := [TryRecord(3, 4, w.m.scopes, |w.m.fors|)] + w.m.tries), w.callers))
  {}

  lemma EntersRoutine(w: World)
    requires w.f == 0 && w.m.pc == 1
    ensures Calls.Step(Thrower(), w) == Going(World(1, Entry(w.m, []), [Caller(0, w.m.(pc := 2), None)] + w.callers))
  {}

  lemma EntersLoop(w: World)
    requires w.f == 1 && w.m.pc == 0 && w.m.fors == []
    ensures var r := NewFor(0, Num(KInt, 1), 3, 1);
            Calls.Step(Thrower(), w) ==
            Going(World(1, w.m.(pc := 1, store := w.m.store.Set(0, ControlValue(r.kind, r.cur)), fors := [r.(cur := Wrap32(r.cur + r.dir))]), w.callers))
  {}

  lemma ThrownOn(w: World, c: Caller)
    requires w.f == 1 && w.m.pc == 1 && w.callers == [c] && w.m.tries == []
    requires c.f == 0 && c.m.tries == [TryRecord(3, 4, 0, 0)]
    ensures Calls.Step(Thrower(), w) == Going(World(0, c.m.(pc := 3, scopes := 0, fors := [], tries := [], exn := User(Num(KInt, 7))), []))
  {
    assert w.callers[1..] == [];
    var m := Resume(c, w.m);
    assert Truncate(m.fors, 0) == [];
  }

  lemma ThrowerNests()
    ensures WellNested(ThrowerPlan(), Thrower())
  {
    hide Planned, Thrower, ThrowerPlan;
    MainNests(ThrowerPlan(), Thrower());
    CalleeNests(ThrowerPlan(), Thrower());
    assert |Thrower()| == 2 && |ThrowerPlan()| == 2 by { ThrowerSize(); }
  }

  lemma ThrowerSize()
    ensures |Thrower()| == 2 && |ThrowerPlan()| == 2
  {}

  lemma MainNests(plan: Plan, program: Program)
    requires plan == ThrowerPlan() && program == Thrower()
    ensures |plan| == 2 && |program| == 2 && Planned(plan, program, 0)
  {
    var none, try_ := Depth([], []), Depth([Mark(3, 4, 0)], []);
    assert plan[0] == [none, try_, try_, none, none] && |program[0].code| == 5;
    hide Thrower, ThrowerPlan, Keeps;
    forall pc | 0 <= pc < 5 ensures Keeps(plan, 0, pc, program[0].code[pc]) {
      MainKeeps(plan, program, pc);
    }
  }

  lemma MainKeeps(plan: Plan, program: Program, pc: nat)
    requires plan == ThrowerPlan() && program == Thrower() && pc < 5
    ensures |plan| == 2 && |program| == 2 && |program[0].code| == 5 && |plan[0]| == 5 && Keeps(plan, 0, pc, program[0].code[pc])
  {
    hide AtHandler, Ordered;
    var none, try_ := Depth([], []), Depth([Mark(3, 4, 0)], []);
    HandlerIs(none, try_);
    var d := plan[0][pc];
    var code := program[0].code;
    if pc == 0 {
      assert code[0] == Plain(Try(3, 4)) && d == none && plan[0][1] == try_;
      assert Depth([Mark(3, 4, |none.loops|)] + none.marks, none.loops) == try_;
    } else if pc == 1 {
      assert code[1] == Call(None, 1, []) && d == try_ && plan[0][2] == try_ && plan[0][3] == none;
    } else if pc == 2 {
      assert code[2] == Plain(End) && d == try_ && plan[0][3] == none && plan[0][4] == none;
      assert Depth(try_.marks[1..], try_.loops) == none;
    } else if pc == 3 {
      assert code[3] == Plain(Catch(0)) && d == none && plan[0][4] == none;
    } else {
      assert code[4] == Plain(End) && d == none;
    }
  }

  lemma HandlerIs(none: Depth, try_: Depth)
    requires none == Depth([], []) && try_ == Depth([Mark(3, 4, 0)], [])
    ensures Ordered(none) && Ordered(try_) && AtHandler(try_) == none
  {}

  lemma CalleeNests(plan: Plan, program: Program)
    requires plan == ThrowerPlan() && program == Thrower()
    ensures |plan| == 2 && |program| == 2 && Planned(plan, program, 1)
  {
    var none, loop := Depth([], []), Depth([], [Loop(3, 1)]);
    assert plan[1] == [none, loop, loop, none];
    assert [Loop(3, 1)] + none.loops == loop.loops && loop.loops[1..] == none.loops;
    assert At(plan, 1, 0, none) && At(plan, 1, 1, loop) && At(plan, 1, 2, loop) && At(plan, 1, 3, none);
    var code := program[1].code;
    assert Keeps(plan, 1, 0, code[0]) && Keeps(plan, 1, 1, code[1]) && Keeps(plan, 1, 2, code[2]) && Keeps(plan, 1, 3, code[3]);
  }

  /** A foreach loop around a try block that takes the record of the loop off before it throws. */
  function Popper(): seq<Machine.Instruction> {
    [Machine.Foreach(0, Immediate(Num(KInt, 2)), None, 5), Try(4, 5), PopScope(0, 0, 1), Machine.Throw(Immediate(Num(KInt, 7))), Catch(0), End]
  }

  /** At TRY there is a record, at its handler there is none: cutting the stack back does not bring a
      record back.  The code nests in no way. */
  lemma RecordLost(plan: Plan, st: Store, exn: Thrown)
    ensures !WellNested(plan, Calls.Alone(Popper(), 0))
    ensures var program := Calls.Alone(Popper(), 0);
            var w := World(0, State(0, map[], st, 0, [], [], exn), []);
            var atTry, atHandler := Calls.Run(program, 1, w), Calls.Run(program, 4, w);
            && atTry.Going? && atTry.w.m.pc == 1 && Popper()[1] == Try(4, 5) && |atTry.w.m.fors| == 1
            && atHandler.Going? && atHandler.w.m.pc == 4 && atHandler.w.m.exn == User(Num(KInt, 7)) && |atHandler.w.m.fors| == 0
  {
    hide WellNested, Calls.Alone, Calls.Run, Machine.Run, Machine.Step, Popper, Wrap32, NewFor;
    PopperPlan(plan);
    var m0 := State(0, map[], st, 0, [], [], exn);
    Calls.RunAlone(Popper(), 0, 1, m0);
    Calls.RunAlone(Popper(), 0, 4, m0);
    var r, c := PopsOne(m0);
    Machine.NoRounds(Popper(), m0);
    Machine.OneMore(Popper(), 0, m0);
    Machine.OneMore(Popper(), 1, m0);
    Machine.OneMore(Popper(), 2, m0);
    Machine.OneMore(Popper(), 3, m0);
    assert Popper()[1] == Try(4, 5) by { PopperAt(); }
  }

  lemma PopperAt()
    ensures |Popper()| == 6 && Popper()[1] == Try(4, 5)
  {}

  lemma PopsOne(m: State) returns (r: ForRecord, c: Store)
    requires m.pc == 0 && m.fors == [] && m.tries == [] && m.scopes >= 0
    ensures var m1 := m.(pc := 1, store := c, fors := [r]);
            var m2 := m1.(pc := 2, tries := [TryRecord(4, 5, m.scopes, 1)]);
            var m3 := m2.(pc := 3, fors := []);
            && Machine.Step(Popper(), m) == Running(m1) && Machine.Step(Popper(), m1) == Running(m2) && Machine.Step(Popper(), m2) == Running(m3)
            && Machine.Step(Popper(), m3) == Running(m3.(pc := 4, tries := [], exn := User(Num(KInt, 7))))
  {
    r, c := StartsLoop(m);
    var m1 := m.(pc := 1, store := c, fors := [r]);
    var m2 := m1.(pc := 2, tries := [TryRecord(4, 5, m.scopes, 1)]);
    var m3 := m2.(pc := 3, fors := []);
    assert [TryRecord(4, 5, m.scopes, 1)] + m1.tries == m2.tries;
    assert m2.fors[1..] == m3.fors && m2.tries[0..] == m3.tries;
    assert Machine.Step(Popper(), m2) == Running(m3);
    assert Truncate(m3.fors, 1) == [] && m3.tries[1..] == [];
  }

  lemma StartsLoop(m: State) returns (r: ForRecord, c: Store)
    requires m.pc == 0 && m.fors == []
    ensures Machine.Step(Popper(), m) == Running(m.(pc := 1, store := c, fors := [r]))
  {
    var r0 := NewFor(0, Num(KInt, 2), 5, 1);
    r, c := r0.(cur := Wrap32(r0.cur + r0.dir)), m.store.Set(0, ControlValue(r0.kind, r0.cur));
    assert [r0] + m.fors == [r0] && [r] + [r0][1..] == [r];
  }

  lemma PopperPlan(plan: Plan)
    ensures !WellNested(plan, Calls.Alone(Popper(), 0))
  {
    hide Planned;
    if |plan| == 1 { PopperUnplanned(plan, Calls.Alone(Popper(), 0)); }
  }

  lemma PopperUnplanned(plan: Plan, program: Program)
    requires |plan| == 1 && program == Calls.Alone(Popper(), 0)
    ensures |program| == 1 && !Planned(plan, program, 0)
  {
    hide Keeps;
    if |plan[0]| == 6 && At(plan, 0, 0, Depth([], [])) && Keeps(plan, 0, 0, program[0].code[0]) && Keeps(plan, 0, 1, program[0].code[1]) && Keeps(plan, 0, 2, program[0].code[2]) {
      PopperUnordered(plan);
      assert !Keeps(plan, 0, 3, program[0].code[3]);
    }
  }

  /** After POPSCOPE the try block would be pending in a loop that has ended. */
  lemma PopperUnordered(plan: Plan)
    requires |plan| == 1 && |plan[0]| == 6 && At(plan, 0, 0, Depth([], []))
    requires Keeps(plan, 0, 0, Plain(Popper()[0])) && Keeps(plan, 0, 1, Plain(Popper()[1])) && Keeps(plan, 0, 2, Plain(Popper()[2]))
    ensures !Keeps(plan, 0, 3, Plain(Popper()[3]))
  {
    hide AtHandler;
    assert plan[0][1] == Depth([], [Loop(5, 1)]);
    assert plan[0][2] == Depth([Mark(4, 5, 1)], [Loop(5, 1)]);
    assert plan[0][3] == Depth([Mark(4, 5, 1)], []);
  }

  /** An exception that comes out of a try block of well-nested code, from any depth of calls, scopes and
      loops, arrives at the handler with frame, registers, static link, scopes and the number of foreach
      records as they were at TRY. */
  method Protected(vm: InterpreterLoop.VirtualMachine, catchop: nat, endop: nat, ghost plan: Plan, ghost outer: seq<TryRecord>, ghost callers: seq<Caller>)
    returns (o: InterpreterLoop.Next, ghost how: InterpreterLoop.Signal)
    requires vm.Valid() && WellNested(plan, vm.program) && Nested(plan, vm.currentCode, vm.Flat(outer), callers)
    requires vm.pc < |vm.program[vm.currentCode].code| && vm.program[vm.currentCode].code[vm.pc] == Plain(Try(catchop, endop))
    modifies vm
    ensures vm.Valid() && (o.Continue? ==> Nested(plan, vm.currentCode, vm.Flat(outer), callers))
    ensures how.Raised? ==>
              && o.Continue? && vm.pc == catchop && vm.exception == how.t
              && vm.currentCode == old(vm.currentCode) && vm.frame == old(vm.frame) && vm.staticLink == old(vm.staticLink)
              && vm.regfile == old(vm.regfile) && vm.regs == old(vm.regs) && vm.scopeSP == old(vm.scopeSP)
              && |vm.forStack| == |old(vm.forStack)|
  {
    hide WellNested, Nested, Calls.Run, InterpreterLoop.Fits, InterpreterLoop.Window;
    ghost var w := World(vm.currentCode, vm.Flat(outer), callers);
    HandlerDepth(plan, vm.program, vm.currentCode, vm.pc, catchop, endop);
    ghost var f, depth := vm.fuel, 0;
    o, how, depth := vm.DoTry(catchop, endop, outer, callers);
    if o.Continue? {
      RunFits(plan, vm.program, 1 + f - vm.fuel, w);
      if how.Raised? { SameRecords(plan, vm.currentCode, w.m, vm.Flat(outer), callers); }
    }
  }
}

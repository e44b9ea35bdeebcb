/** What moving code and appending to it mean: instruction lists as values, and their runs. */
module Relocation {
  import opened Values
  import opened Machine

  // ----- the lists -----

  /** relocate's switch: the address operands of an instruction moved by d. */
  function Bump(i: Instruction, d: nat): Instruction {
    match i
    case Branch(t) => Branch(t + d)
    case BranchTrue(a, t) => BranchTrue(a, t + d)
    case BranchFalse(a, t) => BranchFalse(a, t + d)
    case Try(c, e) => Try(c + d, e + d)
    case Foreach(x, a, hi, e) => Foreach(x, a, hi, e + d)
    case _ => i
  }

  function Shifted(c: seq<Instruction>, d: nat): (r: seq<Instruction>)
    ensures |r| == |c| && forall i :: 0 <= i < |c| ==> r[i] == Bump(c[i], d)
  {
    seq(|c|, i requires 0 <= i < |c| => Bump(c[i], d))
  }

  function Hole(n: nat): (r: seq<Instruction>)
    ensures |r| == n && forall i :: 0 <= i < n ==> r[i] == Nop
  {
    seq(n, _ => Nop)
  }

  /** The code from start on moved forward by d. */
  function Relocated(c: seq<Instruction>, start: nat, d: nat): seq<Instruction>
    requires start <= |c|
  {
    c[..start] + Hole(d) + Shifted(c[start..], d)
  }

  /** The address operands of i lie between lo and hi. */
  predicate TargetsWithin(i: Instruction, lo: nat, hi: nat) {
    match i
    case Branch(t) => lo <= t <= hi
    case BranchTrue(_, t) => lo <= t <= hi
    case BranchFalse(_, t) => lo <= t <= hi
    case Try(c, e) => lo <= c <= hi && lo <= e <= hi
    case Foreach(_, _, _, e) => lo <= e <= hi
    case _ => true
  }

  /** Code before start branches to start at most, code from start on to start at least. */
  predicate Movable(c: seq<Instruction>, start: nat)
    requires start <= |c|
  {
    && (forall i :: 0 <= i < start ==> TargetsWithin(c[i], 0, start))
    && (forall i :: start <= i < |c| ==> TargetsWithin(c[i], start, |c|))
  }

  // ----- related states -----

  /** Code from start on moves forward by d.  With hole, the code before start is there as well and the
      gap is filled with NOPs, so that all of it stands for its end. */
  datatype Move = Move(start: nat, d: nat, hole: bool)

  /** Address q of the old code and q' of the new one. */
  predicate Moved(m: Move, q: nat, q': nat) {
    (q >= m.start && q' == q + m.d) || (m.hole && q <= m.start && q' == q) || (m.hole && q == m.start <= q' <= m.start + m.d)
  }

  predicate SameFor(m: Move, r: ForRecord, r': ForRecord) {
    && r' == r.(endAddr := r'.endAddr, bodyAddr := r'.bodyAddr)
    && Moved(m, r.endAddr, r'.endAddr) && Moved(m, r.bodyAddr, r'.bodyAddr)
  }

  predicate SameTry(m: Move, r: TryRecord, r': TryRecord) {
    && r' == r.(catchAddr := r'.catchAddr, endAddr := r'.endAddr)
    && Moved(m, r.catchAddr, r'.catchAddr) && Moved(m, r.endAddr, r'.endAddr)
  }

  /** The same up to addresses, except for pc. */
  predicate SameRest(m: Move, s: State, t: State) {
    && t.slots == s.slots && t.store == s.store && t.scopes == s.scopes && t.exn == s.exn
    && |t.fors| == |s.fors| && (forall i :: 0 <= i < |s.fors| ==> SameFor(m, s.fors[i], t.fors[i]))
    && |t.tries| == |s.tries| && (forall i :: 0 <= i < |s.tries| ==> SameTry(m, s.tries[i], t.tries[i]))
  }

  predicate Same(m: Move, s: State, t: State) {
    Moved(m, s.pc, t.pc) && SameRest(m, s, t)
  }

  predicate SameOutcome(m: Move, o: Outcome, o': Outcome) {
    match o
    case Running(s) => o'.Running? && Same(m, s, o'.s)
    case _ => o' == o
  }

  /** i' is i with moved addresses. */
  predicate SameInstruction(m: Move, i: Instruction, i': Instruction) {
    match i
    case Branch(t) => i'.Branch? && Moved(m, t, i'.target)
    case BranchTrue(a, t) => i'.BranchTrue? && i'.a == a && Moved(m, t, i'.target)
    case BranchFalse(a, t) => i'.BranchFalse? && i'.a == a && Moved(m, t, i'.target)
    case Try(c, e) => i'.Try? && Moved(m, c, i'.catchAddr) && Moved(m, e, i'.endAddr)
    case Foreach(x, a, hi, e) => i'.Foreach? && i'.x == x && i'.a == a && i'.hi == hi && Moved(m, e, i'.endAddr)
    case _ => i' == i
  }

  // ----- one step -----

  lemma RaiseSame(m: Move, s: State, t: State, x: Thrown)
    requires SameRest(m, s, t)
    ensures SameOutcome(m, Raise(s, x), Raise(t, x))
  {
    hide Moved;
    if s.tries != [] { assert SameTry(m, s.tries[0], t.tries[0]); }
  }

  lemma FinishSame(m: Move, s: State, t: State, f: Final)
    requires SameRest(m, s, t)
    ensures SameOutcome(m, Finish(s, f), Finish(t, f))
  {
    hide Moved;
    if s.tries != [] { assert SameTry(m, s.tries[0], t.tries[0]); }
  }

  lemma StoreSame(m: Move, s: State, t: State, dest: Dest, r: Result)
    requires SameRest(m, s, t) && Moved(m, s.pc + 1, t.pc + 1)
    ensures SameOutcome(m, StoreResult(s, dest, r), StoreResult(t, dest, r))
  {
    hide Moved;
    if r.Err? { RaiseSame(m, s, t, r.t); }
  }

  lemma AdvanceSame(m: Move, s: State, t: State)
    requires SameRest(m, s, t)
    ensures SameOutcome(m, Advance(s), Advance(t))
  {
    hide Moved, Wrap32, ControlValue;
    if s.fors != [] { assert SameFor(m, s.fors[0], t.fors[0]); }
  }

  lemma StartSame(m: Move, s: State, t: State, x: nat, v: Value, hi: Option<Value>, e: nat, e': nat)
    requires SameRest(m, s, t) && Moved(m, s.pc + 1, t.pc + 1) && Moved(m, e, e')
    ensures SameOutcome(m, StartForeach(s, x, v, hi, e), StartForeach(t, x, v, hi, e'))
  {
    hide Moved, Advance, SameOutcome;
    if v.Nothing? || (hi.Some? && hi.value.Nothing?) {
      RaiseSame(m, s, t, IllegalForeach);
    } else {
      var r := if hi.None? then NewFor(x, v, e, s.pc + 1) else NewForRange(x, v, hi.value, e, s.pc + 1);
      var r' := if hi.None? then NewFor(x, v, e', t.pc + 1) else NewForRange(x, v, hi.value, e', t.pc + 1);
      assert SameFor(m, r, r');
      PushSame(m, s, t, r, r');
      AdvanceSame(m, s.(fors := [r] + s.fors), t.(fors := [r'] + t.fors));
    }
  }

  lemma PushSame(m: Move, s: State, t: State, r: ForRecord, r': ForRecord)
    requires SameRest(m, s, t) && SameFor(m, r, r')
    ensures SameRest(m, s.(fors := [r] + s.fors), t.(fors := [r'] + t.fors))
  {
    hide SameFor, SameTry;
  }

  lemma PopSame(m: Move, s: State, t: State, ns: int, nt: int, nf: int)
    requires SameRest(m, s, t) && Moved(m, s.pc + 1, t.pc + 1)
    ensures SameOutcome(m, Pop(s, ns, nt, nf), Pop(t, ns, nt, nf))
  {
    hide Moved, SameFor, SameTry;
  }

  lemma TrySame(m: Move, s: State, t: State, i: Instruction, i': Instruction)
    requires SameRest(m, s, t) && Moved(m, s.pc + 1, t.pc + 1) && i.Try? && SameInstruction(m, i, i')
    ensures SameOutcome(m, Execute(i, s), Execute(i', t))
  {
    hide Moved, SameFor;
    assert SameTry(m, TryRecord(i.catchAddr, i.endAddr, s.scopes, |s.fors|), TryRecord(i'.catchAddr, i'.endAddr, t.scopes, |t.fors|));
  }

  lemma ComputeSame(m: Move, s: State, t: State, i: Instruction, i': Instruction)
    requires SameRest(m, s, t) && Moved(m, s.pc + 1, t.pc + 1) && SameInstruction(m, i, i')
    requires i.Mov? || i.Unary? || i.Binary? || i.Nop? || i.Temp?
    ensures SameOutcome(m, Execute(i, s), Execute(i', t))
  {
    hide Moved, SameFor, SameTry, Raise, ApplyUn, ApplyBin, StoreResult;
    match i
    case Mov(dest, a) =>
      if Read(s, a).Some? { StoreSame(m, s, t, dest, Ok(Read(s, a).value)); }
    case Unary(op, dest, a) =>
      if Read(s, a).Some? { StoreSame(m, s, t, dest, ApplyUn(op, Read(s, a).value)); }
    case Binary(op, dest, a, b) =>
      if Read(s, a).Some? && Read(s, b).Some? { StoreSame(m, s, t, dest, ApplyBin(op, Read(s, a).value, Read(s, b).value)); }
    case _ =>
  }

  lemma ControlSame(m: Move, s: State, t: State, i: Instruction, i': Instruction)
    requires SameRest(m, s, t) && Moved(m, s.pc + 1, t.pc + 1) && SameInstruction(m, i, i')
    requires i.PopScope? || i.PushScope? || i.Catch? || i.Throw? || i.Next? || i.Ret? || i.RetVal? || i.End?
    ensures SameOutcome(m, Execute(i, s), Execute(i', t))
  {
    hide Moved, SameFor, SameTry, Raise, Finish, Advance, Pop;
    match i
    case PopScope(ns, nt, nf) => PopSame(m, s, t, ns, nt, nf);
    case Throw(a) => if Read(s, a).Some? { RaiseSame(m, s, t, User(Read(s, a).value)); }
    case Next => AdvanceSame(m, s, t);
    case Ret => FinishSame(m, s, t, Returned(None));
    case RetVal(a) => if Read(s, a).Some? { FinishSame(m, s, t, Returned(Some(Read(s, a).value))); }
    case End => FinishSame(m, s, t, Ended);
    case _ =>
  }

  lemma BranchSame(m: Move, s: State, t: State, i: Instruction, i': Instruction)
    requires SameRest(m, s, t) && Moved(m, s.pc + 1, t.pc + 1) && SameInstruction(m, i, i')
    requires i.Branch? || i.BranchTrue? || i.BranchFalse? || i.Foreach?
    ensures SameOutcome(m, Execute(i, s), Execute(i', t))
  {
    hide Moved, SameFor, SameTry, StartForeach;
    if i.Foreach? && Read(s, i.a).Some? && (i.hi.Some? ==> Read(s, i.hi.value).Some?) {
      StartSame(m, s, t, i.x, Read(s, i.a).value, if i.hi.None? then None else Read(s, i.hi.value), i.endAddr, i'.endAddr);
    }
  }

  lemma ExecuteSame(m: Move, s: State, t: State, i: Instruction, i': Instruction)
    requires SameRest(m, s, t) && Moved(m, s.pc + 1, t.pc + 1) && SameInstruction(m, i, i')
    ensures SameOutcome(m, Execute(i, s), Execute(i', t))
  {
    hide SameRest, Moved, SameInstruction, Execute, SameOutcome;
    match i
    case Mov(_, _) => ComputeSame(m, s, t, i, i');
    case Unary(_, _, _) => ComputeSame(m, s, t, i, i');
    case Binary(_, _, _, _) => ComputeSame(m, s, t, i, i');
    case Nop => ComputeSame(m, s, t, i, i');
    case Temp(_) => ComputeSame(m, s, t, i, i');
    case Branch(_) => BranchSame(m, s, t, i, i');
    case BranchTrue(_, _) => BranchSame(m, s, t, i, i');
    case BranchFalse(_, _) => BranchSame(m, s, t, i, i');
    case Foreach(_, _, _, _) => BranchSame(m, s, t, i, i');
    case Try(_, _) => TrySame(m, s, t, i, i');
    case _ => ControlSame(m, s, t, i, i');
  }

  // ----- runs -----

  /** The instructions of c below limit are in c' where m puts them. */
  ghost predicate Follows(m: Move, c: seq<Instruction>, c': seq<Instruction>, limit: nat) {
    && limit <= |c|
    && (forall i: nat {:trigger c[i]} :: m.start <= i < limit ==> i + m.d < |c'| && SameInstruction(m, c[i], c'[i + m.d]))
    && (m.hole ==> m.start + m.d <= |c'|)
    && (m.hole ==> forall i: nat {:trigger c[i]} :: i < m.start && i < limit ==> i < |c'| && SameInstruction(m, c[i], c'[i]))
    && (m.hole ==> forall i: nat {:trigger c'[i]} :: m.start <= i < m.start + m.d ==> c'[i] == Nop)
  }

  /** The first k rounds from s execute instructions below limit. */
  predicate StaysBelow(c: seq<Instruction>, k: nat, s: State, limit: nat)
    decreases k
  {
    k == 0 || (s.pc < limit && (Step(c, s).Running? ==> StaysBelow(c, k - 1, Step(c, s).s, limit)))
  }

  lemma RunOne(c: seq<Instruction>, k: nat, s: State)
    ensures Run(c, k + 1, s) == if Step(c, s).Running? then Run(c, k, Step(c, s).s) else Step(c, s)
  {}

  /** Crossing the hole: at most d rounds lead to the copy of the instruction at s. */
  lemma {:induction false} Cross(m: Move, c: seq<Instruction>, c': seq<Instruction>, limit: nat, s: State, t: State) returns (j: nat, t': State)
    requires Follows(m, c, c', limit) && Same(m, s, t)
    ensures Run(c', j, t) == Running(t') && Same(m, s, t')
    ensures t'.pc == if s.pc < m.start then s.pc else s.pc + m.d
    ensures !m.hole ==> j == 0
    decreases m.start + m.d - t.pc
  {
    if m.hole && m.start <= t.pc < m.start + m.d && s.pc == m.start {
      hide SameRest;
      var t1 := t.(pc := t.pc + 1);
      NopStep(m, c', s, t);
      j, t' := Cross(m, c, c', limit, s, t1);
      RunOne(c', j, t);
      j := j + 1;
    } else {
      j, t' := 0, t;
    }
  }

  lemma NopStep(m: Move, c': seq<Instruction>, s: State, t: State)
    requires t.pc < |c'| && c'[t.pc] == Nop && SameRest(m, s, t)
    ensures Step(c', t) == Running(t.(pc := t.pc + 1)) && SameRest(m, s, t.(pc := t.pc + 1))
  {}

  /** A run of the old code is matched by a run of the new code. */
  lemma {:induction false} RunFollows(m: Move, c: seq<Instruction>, c': seq<Instruction>, limit: nat, k: nat, s: State, t: State) returns (k': nat)
    requires Follows(m, c, c', limit) && Same(m, s, t) && StaysBelow(c, k, s, limit)
    ensures SameOutcome(m, Run(c, k, s), Run(c', k', t)) && k' >= k && (!m.hole ==> k' == k)
    decreases k
  {
    hide Follows, Same, SameOutcome, Step, Run;
    if k == 0 {
      k' := 0;
      NoRounds(m, c, c', s, t);
    } else {
      var j, t' := Cross(m, c, c', limit, s, t);
      StepFollows(m, c, c', limit, s, t');
      RunOne(c, k - 1, s);
      if Step(c, s).Running? {
        k' := RunFollows(m, c, c', limit, k - 1, Step(c, s).s, Step(c', t').s);
      } else {
        k' := k - 1;
      }
      RunOne(c', k', t');
      RunAdd(c', j, k' + 1, t);
      k' := j + k' + 1;
    }
  }

  lemma NoRounds(m: Move, c: seq<Instruction>, c': seq<Instruction>, s: State, t: State)
    requires Same(m, s, t)
    ensures SameOutcome(m, Run(c, 0, s), Run(c', 0, t))
  {}

  lemma StepFollows(m: Move, c: seq<Instruction>, c': seq<Instruction>, limit: nat, s: State, t: State)
    requires Follows(m, c, c', limit) && Same(m, s, t) && s.pc < limit && t.pc == if s.pc < m.start then s.pc else s.pc + m.d
    ensures SameOutcome(m, Step(c, s), Step(c', t))
    ensures if Step(c, s).Running? then Step(c', t).Running? && Same(m, Step(c, s).s, Step(c', t).s) else Step(c', t) == Step(c, s)
  {
    hide SameRest, SameInstruction, Execute;
    ExecuteSame(m, s, t, c[s.pc], c'[t.pc]);
  }

  // ----- relocation -----

  lemma RelocatedAt(c: seq<Instruction>, start: nat, d: nat)
    requires start <= |c|
    ensures var c' := Relocated(c, start, d);
            && |c'| == |c| + d
            && (forall i :: 0 <= i < start ==> c'[i] == c[i])
            && (forall i :: start <= i < start + d ==> c'[i] == Nop)
            && (forall i: nat {:trigger c[i]} :: start <= i < |c| ==> c'[i + d] == Bump(c[i], d))
  {
    forall i: nat | start <= i < |c| ensures Relocated(c, start, d)[i + d] == Bump(c[i], d) {
      assert c[start..][i - start] == c[i];
    }
  }

  lemma BumpSame(m: Move, i: Instruction, hi: nat)
    ensures TargetsWithin(i, m.start, hi) ==> SameInstruction(m, i, Bump(i, m.d))
    ensures m.hole && TargetsWithin(i, 0, m.start) ==> SameInstruction(m, i, i)
    ensures TargetsWithin(i, 1, 0) ==> SameInstruction(m, i, i)
  {}

  lemma RelocatedFollows(c: seq<Instruction>, start: nat, d: nat)
    requires start <= |c| && Movable(c, start)
    ensures Follows(Move(start, d, true), c, Relocated(c, start, d), |c|)
  {
    hide SameInstruction, Bump, Relocated, TargetsWithin;
    RelocatedAt(c, start, d);
    forall i | 0 <= i < |c| {
      BumpSame(Move(start, d, true), c[i], |c|);
    }
  }

  /** A run either stays inside the code or gets stuck by leaving it. */
  lemma {:induction false} StaysOrLeaves(c: seq<Instruction>, k: nat, s: State) returns (j: nat)
    ensures j <= k && StaysBelow(c, j, s, |c|)
    ensures j < k ==> Run(c, j, s).Running? && Run(c, j, s).s.pc >= |c| && Run(c, k, s) == Stuck
    decreases k
  {
    j := 0;
    if k > 0 && s.pc < |c| {
      if Step(c, s).Running? {
        j := StaysOrLeaves(c, k - 1, Step(c, s).s);
      } else {
        j := k - 1;
      }
      j := j + 1;
    }
  }

  /** Every run of the old code has a counterpart in the relocated code. */
  lemma RelocatedRun(c: seq<Instruction>, start: nat, d: nat, k: nat, s: State, t: State) returns (k': nat)
    requires start <= |c| && Movable(c, start) && Same(Move(start, d, true), s, t)
    ensures SameOutcome(Move(start, d, true), Run(c, k, s), Run(Relocated(c, start, d), k', t)) && k' >= k
  {
    hide Follows, Same, Step, Run, Relocated, Movable, StaysBelow;
    var m := Move(start, d, true);
    var c' := Relocated(c, start, d);
    RelocatedFollows(c, start, d);
    var j := StaysOrLeaves(c, k, s);
    k' := RunFollows(m, c, c', |c|, j, s, t);
    if j < k {
      var u, u' := Run(c, j, s).s, Run(c', k', t).s;
      var i, v := Cross(m, c, c', |c|, u, u');
      OffTheEnd(c, start, d, v);
      RunAdd(c', k', i, t);
      RunAdd(c', k' + i, 1, t);
      if k' + i + 1 < k {
        RunHalted(c', k' + i + 1, k, t);
        k' := k;
      } else {
        k' := k' + i + 1;
      }
    }
  }

  lemma OffTheEnd(c: seq<Instruction>, start: nat, d: nat, v: State)
    requires start <= |c| && v.pc >= |c| + d
    ensures Run(Relocated(c, start, d), 1, v) == Stuck
  {}

  /** Relocation preserves meaning: when no branch crosses the gap the wrong way, the relocated code
      halts exactly when the old code does, in the same way and with the same store. */
  lemma RelocationPreserves(c: seq<Instruction>, start: nat, d: nat, s: State, t: State, f: Final, st: Store)
    requires start <= |c| && Movable(c, start) && Same(Move(start, d, true), s, t)
    ensures (exists k: nat :: Run(c, k, s) == Halted(f, st)) <==> (exists k: nat :: Run(Relocated(c, start, d), k, t) == Halted(f, st))
  {
    hide Same, Run, Relocated, Movable;
    var c' := Relocated(c, start, d);
    if k: nat :| Run(c, k, s) == Halted(f, st) {
      var k' := RelocatedRun(c, start, d, k, s, t);
    }
    if k: nat :| Run(c', k, t) == Halted(f, st) {
      var k' := RelocatedRun(c, start, d, k, s, t);
      RunHalted(c', k, k', t);
    }
  }

  // ----- append -----

  /** The extension moved behind the old code, over its last instruction. */
  function Extended(c: seq<Instruction>, ext: seq<Instruction>): seq<Instruction>
    requires |c| > 0
  {
    if ext == [] then c else c[..|c| - 1] + Shifted(ext, |c| - 1)
  }

  /** Parameter code inserted at cs. */
  function Inserted(c: seq<Instruction>, cs: nat, para: seq<Instruction>): seq<Instruction>
    requires cs <= |c|
  {
    if para == [] then c else c[..cs] + para + Shifted(c[cs..], |para|)
  }

  function Appended(c: seq<Instruction>, cs: nat, para: seq<Instruction>, ext: seq<Instruction>): seq<Instruction>
    requires cs < |c|
  {
    Extended(Inserted(c, cs, para), ext)
  }

  /** No instruction of c has an address operand. */
  predicate BranchFree(c: seq<Instruction>) {
    forall i :: 0 <= i < |c| ==> TargetsWithin(c[i], 1, 0)
  }

  lemma ExtendedAt(c: seq<Instruction>, ext: seq<Instruction>)
    requires |c| > 0 && ext != []
    ensures var c' := Extended(c, ext);
            && |c'| == |c| - 1 + |ext|
            && (forall i :: 0 <= i < |c| - 1 ==> c'[i] == c[i])
            && (forall i :: 0 <= i < |ext| ==> c'[|c| - 1 + i] == Bump(ext[i], |c| - 1))
  {}

  lemma InsertedAt(c: seq<Instruction>, cs: nat, para: seq<Instruction>)
    requires cs <= |c|
    ensures var c' := Inserted(c, cs, para);
            && |c'| == |c| + |para|
            && (forall i :: 0 <= i < cs ==> c'[i] == c[i])
            && (forall i :: 0 <= i < |para| ==> c'[cs + i] == para[i])
            && (forall i :: cs <= i < |c| ==> c'[i + |para|] == Bump(c[i], |para|))
  {
    if para == [] {
      forall i | 0 <= i < |c| ensures Bump(c[i], 0) == c[i] {}
    }
  }

  /** No loop or try block is pending. */
  predicate Flat(s: State) {
    s.fors == [] && s.tries == []
  }

  lemma FlatSame(m: Move, s: State, t: State)
    requires Same(m, s, t) && Flat(s) && !m.hole
    ensures t == s.(pc := s.pc + m.d)
  {}

  /** A stretch of c at position d of c': runs from a flat state to a flat state. */
  lemma Stretch(c: seq<Instruction>, c': seq<Instruction>, start: nat, d: nat, limit: nat, k: nat, s: State)
    requires Follows(Move(start, d, false), c, c', limit) && StaysBelow(c, k, s, limit) && Flat(s) && s.pc >= start
    ensures SameOutcome(Move(start, d, false), Run(c, k, s), Run(c', k, s.(pc := s.pc + d)))
    ensures Run(c, k, s).Running? && Flat(Run(c, k, s).s) ==> Run(c', k, s.(pc := s.pc + d)) == Running(Run(c, k, s).s.(pc := Run(c, k, s).s.pc + d))
  {
    var m := Move(start, d, false);
    hide Follows, Run, Step, StaysBelow;
    var k' := RunFollows(m, c, c', limit, k, s, s.(pc := s.pc + d));
    if Run(c, k, s).Running? && Flat(Run(c, k, s).s) {
      FlatSame(m, Run(c, k, s).s, Run(c', k, s.(pc := s.pc + d)).s);
    }
  }

  /** The parts of an appended sequence: old code before codestart, parameter code, the rest of the old
      code without its END, the extension. */
  lemma AppendedParts(c: seq<Instruction>, cs: nat, para: seq<Instruction>, ext: seq<Instruction>)
    requires cs < |c| && ext != [] && BranchFree(para)
    requires forall i :: 0 <= i < |ext| ==> TargetsWithin(ext[i], 0, |ext|)
    requires forall i :: cs <= i < |c| ==> TargetsWithin(c[i], cs, |c|)
    ensures var c' := Appended(c, cs, para, ext);
            && cs <= |c'| && (forall i :: 0 <= i < cs ==> c'[i] == c[i])
            && Follows(Move(0, cs, false), para, c', |para|)
            && Follows(Move(cs, |para|, false), c, c', |c| - 1)
            && Follows(Move(0, |c| - 1 + |para|, false), ext, c', |ext|)
  {
    hide SameInstruction, Bump, TargetsWithin, Extended, Inserted;
    InsertedAt(c, cs, para);
    ExtendedAt(Inserted(c, cs, para), ext);
    forall i | 0 <= i < |para| { BumpSame(Move(0, cs, false), para[i], 0); }
    forall i | cs <= i < |c| { BumpSame(Move(cs, |para|, false), c[i], |c|); }
    forall i | 0 <= i < |ext| { BumpSame(Move(0, |c| - 1 + |para|, false), ext[i], |ext|); }
  }

  /** Appending preserves meaning: the sequence runs the old code up to codestart, then the new
      parameter code, then the old code up to its final END, and from there the extension; every
      branch of the extension reaches the instruction it reached before. */
  lemma AppendedRuns(c: seq<Instruction>, cs: nat, para: seq<Instruction>, ext: seq<Instruction>,
      k1: nat, s: State, k2: nat, u: State, k3: nat, v: State, w: State, j: nat)
    requires cs < |c| && ext != [] && BranchFree(para)
    requires forall i :: 0 <= i < |ext| ==> TargetsWithin(ext[i], 0, |ext|)
    requires forall i :: cs <= i < |c| ==> TargetsWithin(c[i], cs, |c|)
    requires StaysBelow(c, k1, s, cs) && Run(c, k1, s) == Running(u) && u.pc == cs && Flat(u)
    requires StaysBelow(para, k2, u.(pc := 0), |para|) && Run(para, k2, u.(pc := 0)) == Running(v) && v.pc == |para| && Flat(v)
    requires StaysBelow(c, k3, v.(pc := cs), |c| - 1) && Run(c, k3, v.(pc := cs)) == Running(w) && w.pc == |c| - 1 && Flat(w)
    requires StaysBelow(ext, j, w.(pc := 0), |ext|)
    ensures SameOutcome(Move(0, |c| - 1 + |para|, false), Run(ext, j, w.(pc := 0)), Run(Appended(c, cs, para, ext), k1 + k2 + k3 + j, s))
  {
    hide Follows, Run, Step, StaysBelow, Appended, SameOutcome;
    var c' := Appended(c, cs, para, ext);
    AppendedParts(c, cs, para, ext);
    SamePrefix(c, c', cs, k1, s);
    Stretch(para, c', 0, cs, |para|, k2, u.(pc := 0));
    Stretch(c, c', cs, |para|, |c| - 1, k3, v.(pc := cs));
    Stretch(ext, c', 0, |c| - 1 + |para|, |ext|, j, w.(pc := 0));
    RunAdd(c', k1, k2, s);
    RunAdd(c', k1 + k2, k3, s);
    RunAdd(c', k1 + k2 + k3, j, s);
  }

  /** The first k rounds from s do not come to the last instruction. */
  predicate BeforeEnd(c: seq<Instruction>, k: nat, s: State)
    requires c != []
  {
    StaysBelow(c, k, s, |c| - 1)
  }

  /** Old code that never comes to its final END does not notice the extension: from codestart on, when
      the parameter code has run, the appended sequence halts exactly when the old code does, in the
      same way, and otherwise goes on for ever as the old code does. */
  lemma EndNeverReached(c: seq<Instruction>, cs: nat, para: seq<Instruction>, ext: seq<Instruction>,
      k1: nat, s: State, k2: nat, u: State, v: State, f: Final, st: Store)
    requires cs < |c| && ext != [] && BranchFree(para)
    requires forall i :: 0 <= i < |ext| ==> TargetsWithin(ext[i], 0, |ext|)
    requires forall i :: cs <= i < |c| ==> TargetsWithin(c[i], cs, |c|)
    requires StaysBelow(c, k1, s, cs) && Run(c, k1, s) == Running(u) && u.pc == cs && Flat(u)
    requires StaysBelow(para, k2, u.(pc := 0), |para|) && Run(para, k2, u.(pc := 0)) == Running(v) && v.pc == |para| && Flat(v)
    requires forall k: nat :: BeforeEnd(c, k, v.(pc := cs))
    ensures (exists k: nat :: HaltsAt(c, v.(pc := cs), k, f, st)) <==> (exists k: nat :: HaltsAt(Appended(c, cs, para, ext), s, k, f, st))
    ensures (exists k: nat :: Ends(c, v.(pc := cs), k)) <==> (exists k: nat :: Ends(Appended(c, cs, para, ext), s, k))
  {
    hide Follows, Step, Appended, SameOutcome, Same, Flat;
    var c' := Appended(c, cs, para, ext);
    var j := k1 + k2;
    forall k: nat ensures AlikeAt(c, v.(pc := cs), c', s, j, k) {
      assert BeforeEnd(c, k, v.(pc := cs));
      OldPart(c, cs, para, ext, k1, s, k2, u, v, k);
    }
    SameEnds(c, v.(pc := cs), c', s, j, f, st);
  }

  predicate AlikeAt(c: seq<Instruction>, s: State, c': seq<Instruction>, t: State, j: nat, k: nat) {
    Alike(Run(c, k, s), Run(c', j + k, t))
  }

  predicate Ends(c: seq<Instruction>, s: State, k: nat) {
    !Run(c, k, s).Running?
  }

  predicate HaltsAt(c: seq<Instruction>, s: State, k: nat, f: Final, st: Store) {
    Run(c, k, s) == Halted(f, st)
  }

  lemma SameEnds(c: seq<Instruction>, s: State, c': seq<Instruction>, t: State, j: nat, f: Final, st: Store)
    requires forall k: nat :: AlikeAt(c, s, c', t, j, k)
    ensures (exists k: nat :: HaltsAt(c, s, k, f, st)) <==> (exists k: nat :: HaltsAt(c', t, k, f, st))
    ensures (exists k: nat :: Ends(c, s, k)) <==> (exists k: nat :: Ends(c', t, k))
  {
    hide Run;
    if k: nat :| HaltsAt(c, s, k, f, st) {
      assert AlikeAt(c, s, c', t, j, k);
      assert HaltsAt(c', t, j + k, f, st);
    }
    if k: nat :| HaltsAt(c', t, k, f, st) {
      RunHalted(c', k, j + k, t);
      assert AlikeAt(c, s, c', t, j, k);
      assert HaltsAt(c, s, k, f, st);
    }
    if k: nat :| Ends(c, s, k) {
      assert AlikeAt(c, s, c', t, j, k);
      assert Ends(c', t, j + k);
    }
    if k: nat :| Ends(c', t, k) {
      RunHalted(c', k, j + k, t);
      assert AlikeAt(c, s, c', t, j, k);
      assert Ends(c, s, k);
    }
  }

  /** Both still running, or the same end. */
  predicate Alike(o: Outcome, o': Outcome) {
    if o.Running? then o'.Running? else o' == o
  }

  lemma OldPart(c: seq<Instruction>, cs: nat, para: seq<Instruction>, ext: seq<Instruction>,
      k1: nat, s: State, k2: nat, u: State, v: State, k: nat)
    requires cs < |c| && ext != [] && BranchFree(para)
    requires forall i :: 0 <= i < |ext| ==> TargetsWithin(ext[i], 0, |ext|)
    requires forall i :: cs <= i < |c| ==> TargetsWithin(c[i], cs, |c|)
    requires StaysBelow(c, k1, s, cs) && Run(c, k1, s) == Running(u) && u.pc == cs && Flat(u)
    requires StaysBelow(para, k2, u.(pc := 0), |para|) && Run(para, k2, u.(pc := 0)) == Running(v) && v.pc == |para| && Flat(v)
    requires StaysBelow(c, k, v.(pc := cs), |c| - 1)
    ensures Alike(Run(c, k, v.(pc := cs)), Run(Appended(c, cs, para, ext), k1 + k2 + k, s))
  {
    hide Follows, Run, Step, StaysBelow, Appended, Same;
    var c' := Appended(c, cs, para, ext);
    AppendedParts(c, cs, para, ext);
    SamePrefix(c, c', cs, k1, s);
    Stretch(para, c', 0, cs, |para|, k2, u.(pc := 0));
    Stretch(c, c', cs, |para|, |c| - 1, k, v.(pc := cs));
    RunAdd(c', k1, k2, s);
    RunAdd(c', k1 + k2, k, s);
  }

  /** Nor does old code that never comes to codestart. */
  lemma StartNeverReached(c: seq<Instruction>, cs: nat, para: seq<Instruction>, ext: seq<Instruction>, k: nat, s: State)
    requires cs < |c| && ext != [] && BranchFree(para)
    requires forall i :: 0 <= i < |ext| ==> TargetsWithin(ext[i], 0, |ext|)
    requires forall i :: cs <= i < |c| ==> TargetsWithin(c[i], cs, |c|)
    requires StaysBelow(c, k, s, cs)
    ensures Run(Appended(c, cs, para, ext), k, s) == Run(c, k, s)
  {
    hide Follows, Run, Step, StaysBelow, Appended;
    AppendedParts(c, cs, para, ext);
    SamePrefix(c, Appended(c, cs, para, ext), cs, k, s);
  }

  lemma {:induction false} SamePrefix(c: seq<Instruction>, c': seq<Instruction>, limit: nat, k: nat, s: State)
    requires limit <= |c| && limit <= |c'| && forall i :: 0 <= i < limit ==> c'[i] == c[i]
    requires StaysBelow(c, k, s, limit)
    ensures Run(c', k, s) == Run(c, k, s)
    decreases k
  {
    if k > 0 && Step(c, s).Running? {
      SamePrefix(c, c', limit, k - 1, Step(c, s).s);
    }
  }
}

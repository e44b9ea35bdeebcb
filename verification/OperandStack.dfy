/** The operand stack: literals and calls push their operands right to left, and the instruction that
    takes them leaves the stack as it was. */
module OperandStack {
  import opened Values

  datatype Val = Number(n: int) | Text(s: string) | Vector(elems: seq<Val>) | Map(entries: seq<Entry>)

  datatype Entry = Entry(key: Val, val: Val)

  datatype Kind = Function | Native | Builtin | Constructor

  /** What a function, native function, builtin method or constructor receives. */
  datatype Request = Request(f: nat, this_: Val, types: seq<Val>, names: seq<Val>, args: seq<Val>)

  /** The functions of the program: what a call returns may depend on all calls made before it.  "same" says
      which map keys count as equal: 1 and "1" do, and so do vectors of one size. */
  datatype Env = Env(call: (seq<Request>, Request) -> Val, same: (Val, Val) -> bool)

  /** "receiver" is what stands before the dot, or the object the function belongs to. */
  datatype Expr =
    | Leaf(v: Val)
    | VectorLit(elems: seq<Expr>)
    | MapLit(pairs: seq<Pair>)
    | Call(kind: Kind, f: nat, receiver: Expr, types: seq<Expr>, names: seq<string>, args: seq<Expr>)

  datatype Pair = Pair(key: Expr, val: Expr)

  /** What the parser delivers for a call: either every argument is named or none, and only constructors
      have type arguments. */
  predicate Parsed(kind: Kind, types: nat, names: nat, args: nat) {
    (names == 0 || names == args) && (types > 0 ==> kind == Constructor)
  }

  /** The calls that do not put the stack back: native functions and builtin methods called by name. */
  predicate Unbalanced(kind: Kind, names: nat) {
    names > 0 && (kind == Native || kind == Builtin)
  }

  predicate Proper(e: Expr) {
    match e
    case Leaf(_) => true
    case VectorLit(es) => ProperAll(es)
    case MapLit(ps) => ProperPairs(ps)
    case Call(kind, _, _, ts, names, es) =>
      Parsed(kind, |ts|, |names|, |es|) && !Unbalanced(kind, |names|) && ProperOperands(e)
  }

  predicate ProperOperands(e: Expr)
    requires e.Call?
    decreases e, 0
  {
    Proper(e.receiver) && ProperAll(e.types) && ProperAll(e.args)
  }

  predicate ProperAll(es: seq<Expr>) {
    es == [] || (Proper(es[0]) && ProperAll(es[1..]))
  }

  predicate ProperPairs(ps: seq<Pair>) {
    ps == [] || (assert ps decreases to ps[0]; Proper(ps[0].key) && Proper(ps[0].val) && ProperPairs(ps[1..]))
  }

  // ----- what expressions mean -----

  /** A value and all calls made so far. */
  datatype Outcome<T> = Outcome(v: T, log: seq<Request>)

  /** map::insert: the first of equal keys wins. */
  function Insert(env: Env, es: seq<Entry>, e: Entry): seq<Entry> {
    if exists i :: 0 <= i < |es| && env.same(es[i].key, e.key) then es else es + [e]
  }

  function InsertAll(env: Env, es: seq<Entry>, more: seq<Entry>): seq<Entry>
    decreases |more|
  {
    if more == [] then es else InsertAll(env, Insert(env, es, more[0]), more[1..])
  }

  function Names(names: seq<string>): (vs: seq<Val>)
    ensures |vs| == |names|
  {
    if names == [] then [] else [Text(names[0])] + Names(names[1..])
  }

  function Eval(env: Env, e: Expr, log: seq<Request>): Outcome<Val>
    decreases e, 1
  {
    match e
    case Leaf(v) => Outcome(v, log)
    case VectorLit(es) => var r := EvalAll(env, es, log); Outcome(Vector(r.v), r.log)
    case MapLit(ps) => var r := EvalPairs(env, ps, log); Outcome(Map(InsertAll(env, [], r.v)), r.log)
    case Call(kind, f, receiver, ts, names, es) =>
      var args := EvalAll(env, es, log);
      var types := EvalAll(env, ts, args.log);
      var this_ := Eval(env, receiver, types.log);
      Answer(env, RequestFor(kind, f, this_.v, types.v, Names(names), args.v), this_.log)
  }

  function Answer(env: Env, r: Request, log: seq<Request>): Outcome<Val> {
    Outcome(env.call(log, r), log + [r])
  }

  /** A builtin method gets its object a second time, as an argument. */
  function RequestFor(kind: Kind, f: nat, this_: Val, types: seq<Val>, names: seq<Val>, args: seq<Val>): Request {
    Request(f, this_, types, names, if kind == Builtin then [this_] + args else args)
  }

  /** Evaluated from the last to the first, delivered in source order. */
  function EvalAll(env: Env, es: seq<Expr>, log: seq<Request>): (r: Outcome<seq<Val>>)
    ensures |r.v| == |es|
    decreases es, 0
  {
    if es == [] then Outcome([], log)
    else
      var rest := EvalAll(env, es[1..], log);
      var first := Eval(env, es[0], rest.log);
      Outcome([first.v] + rest.v, first.log)
  }

  function EvalPairs(env: Env, ps: seq<Pair>, log: seq<Request>): (r: Outcome<seq<Entry>>)
    ensures |r.v| == |ps|
    decreases ps, 0
  {
    if ps == [] then Outcome([], log)
    else
      assert ps decreases to ps[0];
      var rest := EvalPairs(env, ps[1..], log);
      var v := Eval(env, ps[0].val, rest.log);
      var k := Eval(env, ps[0].key, v.log);
      Outcome([Entry(k.v, v.v)] + rest.v, k.log)
  }

  // ----- the code -----

  datatype Source = Imm(v: Val) | Slot(n: nat)

  /** "nargs" of a call counts the object. */
  datatype Op =
    | Push(a: Source)
    | MakeVector(n: nat, dest: nat)
    | MakeMap(n: nat, dest: nat)
    | CallOp(kind: Kind, f: nat, nargs: nat, ntypes: nat, byName: bool, dest: nat)

  datatype Gen = Gen(code: seq<Op>, res: Source)

  /** The code for e at position b; the value of an instruction has the number of its position. */
  function Code(e: Expr, b: nat): Gen
    decreases e, 2
  {
    match e
    case Leaf(v) => Gen([], Imm(v))
    case VectorLit(es) => var c := PushAll(es, b); Gen(c + [MakeVector(|es|, b + |c|)], Slot(b + |c|))
    case MapLit(ps) => var c := PushPairs(ps, b); Gen(c + [MakeMap(|ps|, b + |c|)], Slot(b + |c|))
    case Call(kind, f, receiver, ts, names, es) =>
      var c := PushOperands(e, b);
      Gen(c + [CallOp(kind, f, |es| + 1, |ts|, names != [], b + |c|)], Slot(b + |c|))
  }

  /** Arguments, names, type arguments and the object, in this order. */
  function PushOperands(e: Expr, b: nat): seq<Op>
    requires e.Call?
    decreases e, 1
  {
    var c := PushAll(e.args, b) + PushNames(e.names);
    var c' := c + PushAll(e.types, b + |c|);
    c' + PushOne(e.receiver, b + |c'|)
  }

  function PushOne(e: Expr, b: nat): seq<Op>
    decreases e, 3
  {
    var g := Code(e, b);
    g.code + [Push(g.res)]
  }

  /** The last element first. */
  function PushAll(es: seq<Expr>, b: nat): seq<Op>
    decreases es, 1
  {
    if es == [] then []
    else
      var rest := PushAll(es[1..], b);
      rest + PushOne(es[0], b + |rest|)
  }

  /** The last pair first, of each pair the value first. */
  function PushPairs(ps: seq<Pair>, b: nat): seq<Op>
    decreases ps, 1
  {
    if ps == [] then []
    else
      assert ps decreases to ps[0];
      var rest := PushPairs(ps[1..], b);
      var c := rest + PushOne(ps[0].val, b + |rest|);
      c + PushOne(ps[0].key, b + |c|)
  }

  function PushNames(names: seq<string>): seq<Op> {
    if names == [] then [] else PushNames(names[1..]) + [Push(Imm(Text(names[0])))]
  }

  // ----- the machine -----

  datatype State = State(stack: seq<Val>, slots: map<nat, Val>, log: seq<Request>)

  /** The top n values, from the top down. */
  function Top(stack: seq<Val>, n: nat): (vs: seq<Val>)
    requires n <= |stack|
    ensures |vs| == n
  {
    if n == 0 then [] else [stack[|stack| - 1]] + Top(stack[..|stack| - 1], n - 1)
  }

  function TopPairs(stack: seq<Val>, n: nat): (es: seq<Entry>)
    requires 2 * n <= |stack|
    ensures |es| == n
  {
    if n == 0 then [] else [Entry(stack[|stack| - 1], stack[|stack| - 2])] + TopPairs(stack[..|stack| - 2], n - 1)
  }

  function Below(stack: seq<Val>, n: nat): (rest: seq<Val>)
    requires n <= |stack|
    ensures |rest| == |stack| - n
  {
    stack[..|stack| - n]
  }

  /** How many values a call takes off the stack; n arguments. Only constructors have type arguments, and
      native functions know nothing of names. */
  function Taken(kind: Kind, n: nat, ntypes: nat, byName: bool): nat {
    (if kind == Constructor then ntypes else 0) + (if byName && kind != Native then n * 2 + 1 else n + 1)
  }

  /** What is called, from what is on the stack. */
  function Requested(kind: Kind, f: nat, n: nat, ntypes: nat, byName: bool, stack: seq<Val>): Request
    requires Taken(kind, n, ntypes, byName) <= |stack|
  {
    var s0 := Below(stack, 1);
    var types := if kind == Constructor then Top(s0, ntypes) else [];
    var s1 := Below(s0, |types|);
    var names := if byName && kind != Native then Top(s1, n) else [];
    Request(f, stack[|stack| - 1], types, names, Top(Below(s1, |names|), n))
  }

  /** A call; for a builtin method the object on top is doubled first. */
  function Called(env: Env, kind: Kind, f: nat, n: nat, ntypes: nat, byName: bool, d: nat, s: State): Option<State> {
    if kind == Builtin && s.stack == [] then None
    else
      var stack := if kind == Builtin then s.stack + [s.stack[|s.stack| - 1]] else s.stack;
      var m := if kind == Builtin then n + 1 else n;
      var popped := Taken(kind, m, ntypes, byName);
      if popped > |stack| then None
      else
        var r := Answer(env, Requested(kind, f, m, ntypes, byName, stack), s.log);
        Some(State(Below(stack, popped), s.slots[d := r.v], r.log))
  }

  /** One instruction; None when an operand is missing. */
  function Step(env: Env, op: Op, s: State): Option<State> {
    match op
    case Push(Imm(v)) => Some(s.(stack := s.stack + [v]))
    case Push(Slot(n)) => if n in s.slots then Some(s.(stack := s.stack + [s.slots[n]])) else None
    case MakeVector(n, d) =>
      if n > |s.stack| then None else Some(State(Below(s.stack, n), s.slots[d := Vector(Top(s.stack, n))], s.log))
    case MakeMap(n, d) =>
      if 2 * n > |s.stack| then None
      else Some(State(Below(s.stack, 2 * n), s.slots[d := Map(InsertAll(env, [], TopPairs(s.stack, n)))], s.log))
    case CallOp(kind, f, nargs, ntypes, byName, d) =>
      if nargs == 0 then None else Called(env, kind, f, nargs - 1, ntypes, byName, d, s)
  }

  function Run(env: Env, code: seq<Op>, s: State): Option<State> {
    if code == [] then Some(s)
    else match Step(env, code[0], s)
      case None => None
      case Some(s') => Run(env, code[1..], s')
  }

  lemma {:induction false} RunAppend(env: Env, c: seq<Op>, c': seq<Op>, s: State)
    ensures Run(env, c + c', s) == match Run(env, c, s) { case None => None case Some(s') => Run(env, c', s') }
    decreases |c|
  {
    hide Step;
    if c == [] {
      assert c + c' == c';
    } else {
      assert (c + c')[0] == c[0] && (c + c')[1..] == c[1..] + c';
      if Step(env, c[0], s).Some? { RunAppend(env, c[1..], c', Step(env, c[0], s).value); }
    }
  }

  lemma Then(env: Env, c: seq<Op>, c': seq<Op>, s: State, t: State)
    requires Run(env, c, s) == Some(t)
    ensures Run(env, c + c', s) == Run(env, c', t)
  {
    RunAppend(env, c, c', s);
  }

  lemma ThenStep(env: Env, c: seq<Op>, op: Op, s: State, t: State)
    requires Run(env, c, s) == Some(t)
    ensures Run(env, c + [op], s) == Step(env, op, t)
  {
    hide Step;
    RunAppend(env, c, [op], s);
    assert [op][1..] == [];
  }

  // ----- what the code does -----

  /** vs pushed last first. */
  function Reversed(vs: seq<Val>): (r: seq<Val>)
    ensures |r| == |vs|
  {
    if vs == [] then [] else Reversed(vs[1..]) + [vs[0]]
  }

  function ReversedPairs(es: seq<Entry>): (r: seq<Val>)
    ensures |r| == 2 * |es|
  {
    if es == [] then [] else ReversedPairs(es[1..]) + [es[0].val, es[0].key]
  }

  lemma {:induction false} TopOfReversed(stack: seq<Val>, vs: seq<Val>)
    ensures Top(stack + Reversed(vs), |vs|) == vs && Below(stack + Reversed(vs), |vs|) == stack
  {
    if vs != [] {
      var st := stack + Reversed(vs);
      assert st == stack + Reversed(vs[1..]) + [vs[0]];
      assert st[..|st| - 1] == stack + Reversed(vs[1..]);
      TopOfReversed(stack, vs[1..]);
    } else {
      assert stack + [] == stack;
    }
  }

  lemma {:induction false} TopOfPairs(stack: seq<Val>, es: seq<Entry>)
    ensures TopPairs(stack + ReversedPairs(es), |es|) == es && Below(stack + ReversedPairs(es), 2 * |es|) == stack
  {
    if es != [] {
      var st := stack + ReversedPairs(es);
      assert st == stack + ReversedPairs(es[1..]) + [es[0].val, es[0].key];
      assert st[..|st| - 2] == stack + ReversedPairs(es[1..]);
      TopOfPairs(stack, es[1..]);
    } else {
      assert stack + [] == stack;
    }
  }

  /** The value a source stands for. */
  predicate Holds(s: State, a: Source, v: Val) {
    match a
    case Imm(w) => w == v
    case Slot(n) => n in s.slots && s.slots[n] == v
  }

  /** From s the code runs to its end, at t, with vs pushed and the calls of "log" made. */
  predicate Pushes(env: Env, code: seq<Op>, s: State, t: State, vs: seq<Val>, log: seq<Request>) {
    Run(env, code, s) == Some(t) && t.stack == s.stack + vs && t.log == log
  }

  /** From s the code of e runs to its end, at t, with the stack as it was and the value of e in its result. */
  predicate Balances(env: Env, e: Expr, b: nat, s: State, t: State) {
    var r := Eval(env, e, s.log);
    Run(env, Code(e, b).code, s) == Some(t) && t.stack == s.stack && t.log == r.log && Holds(t, Code(e, b).res, r.v)
  }

  lemma PushesThen(env: Env, c: seq<Op>, c': seq<Op>, s: State, t: State, u: State, vs: seq<Val>, ws: seq<Val>, log: seq<Request>)
    requires Pushes(env, c, s, t, vs, t.log) && Pushes(env, c', t, u, ws, log)
    ensures Pushes(env, c + c', s, u, vs + ws, log)
  {
    hide Run;
    Then(env, c, c', s, t);
    assert s.stack + vs + ws == s.stack + (vs + ws);
  }

  lemma PushesNothing(env: Env, s: State)
    ensures Pushes(env, [], s, s, [], s.log)
  {
  }

  /** Balance: the code of an expression runs to its end and leaves the operand stack exactly as it was;
      its result is the value of the expression, with vector elements, map entries, type arguments,
      argument names and arguments in source order. */
  lemma {:induction false} Balanced(env: Env, e: Expr, b: nat, s: State) returns (t: State)
    requires Proper(e)
    ensures Balances(env, e, b, s, t)
    decreases e, 2
  {
    hide *;
    match e
    case Leaf(v) => t := s; LeafRuns(env, e, b, s);
    case VectorLit(es) =>
      ProperParts(e);
      var u := PushAllRuns(env, es, b, s);
      t := VectorRuns(env, e, b, s, u);
    case MapLit(ps) =>
      ProperParts(e);
      var u := PushPairsRuns(env, ps, b, s);
      t := MapRuns(env, e, b, s, u);
    case Call(_, _, _, _, _, _) =>
      ProperParts(e);
      var u := OperandsRun(env, e, b, s);
      t := CallRuns(env, e, b, s, u);
  }

  lemma ProperParts(e: Expr)
    requires Proper(e)
    ensures e.VectorLit? ==> ProperAll(e.elems)
    ensures e.MapLit? ==> ProperPairs(e.pairs)
    ensures e.Call? ==> ProperOperands(e) && Parsed(e.kind, |e.types|, |e.names|, |e.args|) && !Unbalanced(e.kind, |e.names|)
  {
    hide ProperAll, ProperPairs, ProperOperands;
  }

  lemma LeafRuns(env: Env, e: Expr, b: nat, s: State)
    requires e.Leaf?
    ensures Balances(env, e, b, s, s)
  {
  }

  lemma VectorRuns(env: Env, e: Expr, b: nat, s: State, u: State) returns (t: State)
    requires e.VectorLit?
    requires var r := EvalAll(env, e.elems, s.log); Pushes(env, PushAll(e.elems, b), s, u, Reversed(r.v), r.log)
    ensures Balances(env, e, b, s, t)
  {
    hide Run, EvalAll, PushAll, Top, Reversed;
    var c := PushAll(e.elems, b);
    var op := MakeVector(|e.elems|, b + |c|);
    ThenStep(env, c, op, s, u);
    TopOfReversed(s.stack, EvalAll(env, e.elems, s.log).v);
    t := Step(env, op, u).value;
  }

  lemma MapRuns(env: Env, e: Expr, b: nat, s: State, u: State) returns (t: State)
    requires e.MapLit?
    requires var r := EvalPairs(env, e.pairs, s.log); Pushes(env, PushPairs(e.pairs, b), s, u, ReversedPairs(r.v), r.log)
    ensures Balances(env, e, b, s, t)
  {
    hide Run, EvalPairs, PushPairs, TopPairs, ReversedPairs, InsertAll;
    var c := PushPairs(e.pairs, b);
    var op := MakeMap(|e.pairs|, b + |c|);
    ThenStep(env, c, op, s, u);
    TopOfPairs(s.stack, EvalPairs(env, e.pairs, s.log).v);
    t := Step(env, op, u).value;
  }

  lemma {:induction false} PushOneRuns(env: Env, e: Expr, b: nat, s: State) returns (t: State)
    requires Proper(e)
    ensures var r := Eval(env, e, s.log); Pushes(env, PushOne(e, b), s, t, [r.v], r.log)
    decreases e, 3
  {
    hide Run, Code, Eval, Proper;
    var g := Code(e, b);
    var u := Balanced(env, e, b, s);
    ThenStep(env, g.code, Push(g.res), s, u);
    t := Step(env, Push(g.res), u).value;
  }

  lemma {:induction false} PushAllRuns(env: Env, es: seq<Expr>, b: nat, s: State) returns (t: State)
    requires ProperAll(es)
    ensures var r := EvalAll(env, es, s.log); Pushes(env, PushAll(es, b), s, t, Reversed(r.v), r.log)
    decreases es, 1
  {
    hide Run, Code, Eval, Proper, Pushes, PushOne;
    if es == [] {
      t := s;
      PushesNothing(env, s);
    } else {
      var rest := PushAll(es[1..], b);
      var u := PushAllRuns(env, es[1..], b, s);
      t := PushOneRuns(env, es[0], b + |rest|, u);
      AllCons(env, es, b, s, u, t);
    }
  }

  lemma AllCons(env: Env, es: seq<Expr>, b: nat, s: State, u: State, t: State)
    requires es != []
    requires var r := EvalAll(env, es[1..], s.log); Pushes(env, PushAll(es[1..], b), s, u, Reversed(r.v), r.log)
    requires var r := Eval(env, es[0], u.log); Pushes(env, PushOne(es[0], b + |PushAll(es[1..], b)|), u, t, [r.v], r.log)
    ensures var r := EvalAll(env, es, s.log); Pushes(env, PushAll(es, b), s, t, Reversed(r.v), r.log)
  {
    hide Run, Code, Eval, PushOne;
    var rest := PushAll(es[1..], b);
    var r, h := EvalAll(env, es[1..], s.log), Eval(env, es[0], u.log);
    PushesThen(env, rest, PushOne(es[0], b + |rest|), s, u, t, Reversed(r.v), [h.v], h.log);
    assert ([h.v] + r.v)[1..] == r.v;
    assert Reversed([h.v] + r.v) == Reversed(r.v) + [h.v];
  }

  lemma {:induction false} PushPairsRuns(env: Env, ps: seq<Pair>, b: nat, s: State) returns (t: State)
    requires ProperPairs(ps)
    ensures var r := EvalPairs(env, ps, s.log); Pushes(env, PushPairs(ps, b), s, t, ReversedPairs(r.v), r.log)
    decreases ps, 1
  {
    hide Run, Code, Eval, Proper, Pushes, PushOne;
    if ps == [] {
      t := s;
      PushesNothing(env, s);
    } else {
      assert ps decreases to ps[0];
      var rest := PushPairs(ps[1..], b);
      var u := PushPairsRuns(env, ps[1..], b, s);
      var w := PushOneRuns(env, ps[0].val, b + |rest|, u);
      t := PushOneRuns(env, ps[0].key, b + |rest + PushOne(ps[0].val, b + |rest|)|, w);
      PairsCons(env, ps, b, s, u, w, t);
    }
  }

  lemma PairsCons(env: Env, ps: seq<Pair>, b: nat, s: State, u: State, w: State, t: State)
    requires ps != []
    requires var r := EvalPairs(env, ps[1..], s.log); Pushes(env, PushPairs(ps[1..], b), s, u, ReversedPairs(r.v), r.log)
    requires var r := Eval(env, ps[0].val, u.log); Pushes(env, PushOne(ps[0].val, b + |PushPairs(ps[1..], b)|), u, w, [r.v], r.log)
    requires var rest := PushPairs(ps[1..], b);
             var r := Eval(env, ps[0].key, w.log);
             Pushes(env, PushOne(ps[0].key, b + |rest + PushOne(ps[0].val, b + |rest|)|), w, t, [r.v], r.log)
    ensures var r := EvalPairs(env, ps, s.log); Pushes(env, PushPairs(ps, b), s, t, ReversedPairs(r.v), r.log)
  {
    hide Run, Code, Eval, PushOne, ReversedPairs;
    var rest := PushPairs(ps[1..], b);
    var c := rest + PushOne(ps[0].val, b + |rest|);
    var r, v, k := EvalPairs(env, ps[1..], s.log), Eval(env, ps[0].val, u.log), Eval(env, ps[0].key, w.log);
    PushesThen(env, rest, PushOne(ps[0].val, b + |rest|), s, u, w, ReversedPairs(r.v), [v.v], v.log);
    PushesThen(env, c, PushOne(ps[0].key, b + |c|), s, w, t, ReversedPairs(r.v) + [v.v], [k.v], k.log);
    PairOnTop(Entry(k.v, v.v), r.v);
  }

  lemma PairOnTop(e: Entry, es: seq<Entry>)
    ensures ReversedPairs([e] + es) == ReversedPairs(es) + [e.val] + [e.key]
  {
    assert ([e] + es)[1..] == es;
  }

  lemma {:induction false} PushNamesRuns(env: Env, names: seq<string>, s: State) returns (t: State)
    ensures Pushes(env, PushNames(names), s, t, Reversed(Names(names)), s.log)
  {
    hide Run;
    if names == [] {
      t := s;
      PushesNothing(env, s);
    } else {
      var u := PushNamesRuns(env, names[1..], s);
      var op := Push(Imm(Text(names[0])));
      ThenStep(env, PushNames(names[1..]), op, s, u);
      t := Step(env, op, u).value;
      assert Names(names)[1..] == Names(names[1..]);
    }
  }

  /** The values a call finds on the stack above what was there before. */
  function Operands(args: seq<Val>, names: seq<Val>, types: seq<Val>, this_: Val): seq<Val> {
    Reversed(args) + Reversed(names) + Reversed(types) + [this_]
  }

  /** With its operands pushed the call is ready. */
  predicate Ready(env: Env, e: Expr, b: nat, s: State, t: State)
    requires e.Call?
  {
    var args := EvalAll(env, e.args, s.log);
    var types := EvalAll(env, e.types, args.log);
    var this_ := Eval(env, e.receiver, types.log);
    Pushes(env, PushOperands(e, b), s, t, Operands(args.v, Names(e.names), types.v, this_.v), this_.log)
  }

  lemma {:induction false} OperandsRun(env: Env, e: Expr, b: nat, s: State) returns (t: State)
    requires e.Call? && ProperOperands(e)
    ensures Ready(env, e, b, s, t)
    decreases e, 1
  {
    hide Run, Code, Eval, EvalAll, Proper, ProperAll, Pushes, PushOne, PushAll, PushNames, Names, Reversed;
    var c := PushAll(e.args, b) + PushNames(e.names);
    var c' := c + PushAll(e.types, b + |c|);
    var u := PushAllRuns(env, e.args, b, s);
    var v := PushNamesRuns(env, e.names, u);
    var w := PushAllRuns(env, e.types, b + |c|, v);
    t := PushOneRuns(env, e.receiver, b + |c'|, w);
    OperandsMeet(env, e, b, s, u, v, w, t);
  }

  lemma OperandsMeet(env: Env, e: Expr, b: nat, s: State, u: State, v: State, w: State, t: State)
    requires e.Call?
    requires var r := EvalAll(env, e.args, s.log); Pushes(env, PushAll(e.args, b), s, u, Reversed(r.v), r.log)
    requires Pushes(env, PushNames(e.names), u, v, Reversed(Names(e.names)), u.log)
    requires var c := PushAll(e.args, b) + PushNames(e.names);
             var r := EvalAll(env, e.types, v.log);
             Pushes(env, PushAll(e.types, b + |c|), v, w, Reversed(r.v), r.log)
    requires var c := PushAll(e.args, b) + PushNames(e.names);
             var c' := c + PushAll(e.types, b + |c|);
             var r := Eval(env, e.receiver, w.log);
             Pushes(env, PushOne(e.receiver, b + |c'|), w, t, [r.v], r.log)
    ensures Ready(env, e, b, s, t)
  {
    hide Run, Code, Eval, EvalAll, PushOne, PushAll, PushNames, Names, Reversed;
    var c := PushAll(e.args, b) + PushNames(e.names);
    var ts := PushAll(e.types, b + |c|);
    var c' := c + ts;
    var args, types := EvalAll(env, e.args, s.log), EvalAll(env, e.types, v.log);
    var this_ := Eval(env, e.receiver, w.log);
    var names := Names(e.names);
    PushesThen(env, PushAll(e.args, b), PushNames(e.names), s, u, v, Reversed(args.v), Reversed(names), v.log);
    PushesThen(env, c, ts, s, v, w, Reversed(args.v) + Reversed(names), Reversed(types.v), types.log);
    PushesThen(env, c', PushOne(e.receiver, b + |c'|), s, w, t, Reversed(args.v) + Reversed(names) + Reversed(types.v), [this_.v], this_.log);
  }

  /** The call takes exactly what was pushed for it. */
  lemma CallRuns(env: Env, e: Expr, b: nat, s: State, u: State) returns (t: State)
    requires e.Call? && Parsed(e.kind, |e.types|, |e.names|, |e.args|) && !Unbalanced(e.kind, |e.names|)
    requires Ready(env, e, b, s, u)
    ensures Balances(env, e, b, s, t)
  {
    hide Run, EvalAll, PushAll, PushOne, PushNames, PushOperands, Names, Reversed, Operands, Called;
    var args := EvalAll(env, e.args, s.log);
    var types := EvalAll(env, e.types, args.log);
    var this_ := Eval(env, e.receiver, types.log);
    var c := PushOperands(e, b);
    var op := CallOp(e.kind, e.f, |e.args| + 1, |e.types|, e.names != [], b + |c|);
    ThenStep(env, c, op, s, u);
    CallTakes(env, e.kind, e.f, args.v, Names(e.names), types.v, this_.v, op.dest, s.stack, u);
    t := Step(env, op, u).value;
  }

  lemma CallTakes(env: Env, kind: Kind, f: nat, args: seq<Val>, names: seq<Val>, types: seq<Val>, this_: Val, d: nat, stack: seq<Val>, u: State)
    requires Parsed(kind, |types|, |names|, |args|) && !Unbalanced(kind, |names|)
    requires u.stack == stack + Operands(args, names, types, this_)
    ensures var r := Answer(env, RequestFor(kind, f, this_, types, names, args), u.log);
            Called(env, kind, f, |args|, |types|, names != [], d, u) == Some(State(stack, u.slots[d := r.v], r.log))
  {
    hide Top, Reversed, Requested, Operands, Below;
    if kind == Builtin {
      Doubled(stack, args, this_, u.stack);
      RequestMade(kind, f, [this_] + args, names, types, this_, stack);
    } else {
      RequestMade(kind, f, args, names, types, this_, stack);
    }
  }

  lemma Doubled(stack: seq<Val>, args: seq<Val>, this_: Val, now: seq<Val>)
    requires now == stack + Operands(args, [], [], this_)
    ensures now != [] && now + [now[|now| - 1]] == stack + Operands([this_] + args, [], [], this_)
  {
    assert ([this_] + args)[1..] == args;
  }

  lemma RequestMade(kind: Kind, f: nat, args: seq<Val>, names: seq<Val>, types: seq<Val>, this_: Val, stack: seq<Val>)
    requires Parsed(kind, |types|, 0, 0) && (names == [] || (|names| == |args| && kind != Native))
    ensures var st := stack + Operands(args, names, types, this_);
            var n := Taken(kind, |args|, |types|, names != []);
            n <= |st| && Below(st, n) == stack
            && Requested(kind, f, |args|, |types|, names != [], st) == Request(f, this_, types, names, args)
  {
    hide Top, Reversed;
    var s3 := stack + Reversed(args);
    var s2 := s3 + Reversed(names);
    var s1 := s2 + Reversed(types);
    TopOfReversed(s2, types);
    TopOfReversed(s3, names);
    TopOfReversed(stack, args);
    var st := stack + Operands(args, names, types, this_);
    assert st == s1 + [this_];
    assert Below(st, 1) == s1;
    assert names == [] ==> Reversed(names) == [] && s2 == s3;
    assert types == [] ==> Reversed(types) == [] && s1 == s2;
    assert st[..|stack|] == stack;
  }

  // ----- the calls that do not balance -----

  /** A native function called by name leaves its arguments on the stack: it pops the object and as many
      values as there are arguments, and those are the names. */
  lemma NativeByName(env: Env, e: Expr, b: nat, s: State) returns (t: State)
    requires e.Call? && e.kind == Native && Parsed(Native, |e.types|, |e.names|, |e.args|) && e.names != [] && ProperOperands(e)
    ensures Run(env, Code(e, b).code, s) == Some(t)
    ensures t.stack == s.stack + Reversed(EvalAll(env, e.args, s.log).v)
  {
    hide Run, Code, Eval, EvalAll, PushOperands, PushAll, PushOne, PushNames, Names, Reversed, Requested, ProperAll, Proper;
    var u := OperandsRun(env, e, b, s);
    var args, names := EvalAll(env, e.args, s.log).v, Names(e.names);
    CallCode(env, e, b, s, u);
    assert e.types == [];
    var left := s.stack + Reversed(args);
    var types := EvalAll(env, e.types, EvalAll(env, e.args, s.log).log).v;
    assert Reversed(types) == [];
    assert u.stack[..|left|] == left;
    t := Run(env, Code(e, b).code, s).value;
  }

  /** A builtin method called by name takes one value more than was pushed: the doubled object is counted
      as an argument with a name. On an empty stack there is no such value. */
  lemma BuiltinByName(env: Env, e: Expr, b: nat, s: State)
    requires e.Call? && e.kind == Builtin && Parsed(Builtin, |e.types|, |e.names|, |e.args|) && e.names != [] && ProperOperands(e)
    ensures s.stack == [] ==> Run(env, Code(e, b).code, s) == None
    ensures s.stack != [] ==> Run(env, Code(e, b).code, s).Some? && Run(env, Code(e, b).code, s).value.stack == s.stack[..|s.stack| - 1]
  {
    hide Run, Code, Eval, EvalAll, PushOperands, PushAll, PushOne, PushNames, Names, Reversed, Requested, ProperAll, Proper;
    var u := OperandsRun(env, e, b, s);
    CallCode(env, e, b, s, u);
    assert e.types == [];
    var types := EvalAll(env, e.types, EvalAll(env, e.args, s.log).log).v;
    assert Reversed(types) == [];
    if s.stack != [] {
      var left := s.stack[..|s.stack| - 1];
      assert (u.stack + [u.stack[|u.stack| - 1]])[..|left|] == left;
    }
  }

  /** The code of a call is the code of its operands and then the call. */
  lemma CallCode(env: Env, e: Expr, b: nat, s: State, u: State)
    requires e.Call? && Run(env, PushOperands(e, b), s) == Some(u)
    ensures var d := b + |PushOperands(e, b)|;
            Run(env, Code(e, b).code, s) == Called(env, e.kind, e.f, |e.args|, |e.types|, e.names != [], d, u)
  {
    hide Run, PushOperands, Called;
    var c := PushOperands(e, b);
    ThenStep(env, c, CallOp(e.kind, e.f, |e.args| + 1, |e.types|, e.names != [], b + |c|), s, u);
  }

  /** A call whose operands balance puts the stack back if and only if it is not a call by name of a native
      function or a builtin method. */
  lemma CallBalancesExactly(env: Env, e: Expr, b: nat, s: State)
    requires e.Call? && Parsed(e.kind, |e.types|, |e.names|, |e.args|) && ProperOperands(e)
    ensures (Run(env, Code(e, b).code, s).Some? && Run(env, Code(e, b).code, s).value.stack == s.stack) <==> !Unbalanced(e.kind, |e.names|)
  {
    hide Run, Code, Eval, EvalAll, ProperAll, Reversed, Names;
    if !Unbalanced(e.kind, |e.names|) {
      var t := Balanced(env, e, b, s);
    } else if e.kind == Native {
      var t := NativeByName(env, e, b, s);
    } else {
      BuiltinByName(env, e, b, s);
    }
  }

  // ----- maps -----

  /** The value of the first entry with key k. */
  function FirstWith(env: Env, es: seq<Entry>, k: Val): Option<Val> {
    if es == [] then None else if env.same(es[0].key, k) then Some(es[0].val) else FirstWith(env, es[1..], k)
  }

  predicate DistinctKeys(env: Env, es: seq<Entry>) {
    forall i, j :: 0 <= i < j < |es| ==> !env.same(es[i].key, es[j].key)
  }

  /** What a C++ map asks of keys that count as equal. */
  ghost predicate Transitive(env: Env) {
    forall a, b, c :: env.same(a, b) && env.same(b, c) ==> env.same(a, c)
  }

  /** Of equal keys the first in source order wins, and no key is there twice. */
  lemma {:induction false} FirstKeyWins(env: Env, built: seq<Entry>, more: seq<Entry>, k: Val)
    requires DistinctKeys(env, built) && Transitive(env)
    ensures DistinctKeys(env, InsertAll(env, built, more)) && FirstWith(env, InsertAll(env, built, more), k) == FirstWith(env, built + more, k)
    decreases |more|
  {
    hide FirstWith, Insert, Transitive;
    if more == [] {
      assert built + more == built;
    } else {
      InsertKeeps(env, built, more[0], more[1..], k);
      FirstKeyWins(env, Insert(env, built, more[0]), more[1..], k);
      assert built + more == built + [more[0]] + more[1..];
    }
  }

  lemma InsertKeeps(env: Env, built: seq<Entry>, e: Entry, more: seq<Entry>, k: Val)
    requires DistinctKeys(env, built) && Transitive(env)
    ensures DistinctKeys(env, Insert(env, built, e)) && FirstWith(env, Insert(env, built, e) + more, k) == FirstWith(env, built + [e] + more, k)
  {
    hide FirstWith, Transitive;
    if exists i :: 0 <= i < |built| && env.same(built[i].key, e.key) {
      FirstSkips(env, built, e, more, k);
    }
  }

  lemma {:induction false} FirstSkips(env: Env, es: seq<Entry>, e: Entry, more: seq<Entry>, k: Val)
    requires Transitive(env) && exists i :: 0 <= i < |es| && env.same(es[i].key, e.key)
    ensures FirstWith(env, es + [e] + more, k) == FirstWith(env, es + more, k)
  {
    var l, r := es + [e] + more, es + more;
    assert l[1..] == es[1..] + [e] + more && r[1..] == es[1..] + more;
    if !env.same(es[0].key, k) {
      if env.same(es[0].key, e.key) {
        assert !env.same(e.key, k);
        FirstOther(env, es[1..], e, more, k);
      } else {
        var i :| 0 <= i < |es| && env.same(es[i].key, e.key);
        assert env.same(es[1..][i - 1].key, e.key);
        FirstSkips(env, es[1..], e, more, k);
      }
    }
  }

  lemma {:induction false} FirstOther(env: Env, es: seq<Entry>, e: Entry, more: seq<Entry>, k: Val)
    requires !env.same(e.key, k)
    ensures FirstWith(env, es + [e] + more, k) == FirstWith(env, es + more, k)
  {
    var l, r := es + [e] + more, es + more;
    if es == [] {
      assert l[1..] == more && r == more;
    } else {
      assert l[1..] == es[1..] + [e] + more && r[1..] == es[1..] + more;
      FirstOther(env, es[1..], e, more, k);
    }
  }

  // ----- the interpreter -----

  /** The stack of the virtual machine: an array of which one place always stays free, doubled when the
      last but one is taken. */
  class StackMachine {
    var stack: array<Val>
    var sp: nat
    var slots: map<nat, Val>
    var log: seq<Request>

    predicate Valid() reads this, stack { sp < stack.Length }

    function Contents(): seq<Val>
      requires Valid()
      reads this, stack
    {
      stack[..sp]
    }

    function Now(): State
      requires Valid()
      reads this, stack
    {
      State(Contents(), slots, log)
    }

    constructor ()
      ensures Valid() && fresh(stack) && Now() == State([], map[], [])
    {
      stack := new Val[16](_ => Number(0));
      sp, slots, log := 0, map[], [];
    }

    method Grow()
      requires Valid()
      modifies this`stack
      ensures fresh(stack) && stack.Length == 2 * old(stack.Length)
      ensures stack[..old(stack.Length)] == old(stack[..])
    {
      var bigger := new Val[2 * stack.Length](_ => Number(0));
      var i := 0;
      while i < stack.Length
        invariant i <= stack.Length && stack == old(stack) && bigger.Length == 2 * stack.Length
        invariant bigger[..i] == stack[..i] && stack[..] == old(stack[..])
      {
        bigger[i] := stack[i];
        i := i + 1;
      }
      stack := bigger;
    }

    method Push(v: Val)
      requires Valid()
      modifies this`stack, this`sp, stack
      ensures Valid() && (stack == old(stack) || fresh(stack))
      ensures Contents() == old(Contents()) + [v]
    {
      if sp == stack.Length - 1 {
        Grow();
        assert stack[..sp] == old(stack[..])[..sp];
      }
      stack[sp] := v;
      sp := sp + 1;
    }

    /** The n values below position "from", from there down. */
    method Collect(from: nat, n: nat) returns (vs: seq<Val>)
      requires n <= from <= stack.Length
      ensures vs == Top(stack[..from], n)
    {
      vs := [];
      var i := 0;
      while i < n
        invariant i <= n && |vs| == i
        invariant vs == Top(stack[..from], i)
      {
        TopExtends(stack[..from], i);
        assert stack[..from][from - 1 - i] == stack[from - 1 - i];
        vs := vs + [stack[from - 1 - i]];
        i := i + 1;
      }
    }

    method MakeVector(ghost env: Env, n: nat, d: nat)
      requires Valid() && n <= sp
      modifies this`sp, this`slots
      ensures Valid() && Step(env, Op.MakeVector(n, d), old(Now())) == Some(Now())
    {
      var vs := Collect(sp, n);
      sp := sp - n;
      slots := slots[d := Vector(vs)];
      assert stack[..sp] == Below(old(stack[..sp]), n);
    }

    method MakeMap(env: Env, n: nat, d: nat)
      requires Valid() && 2 * n <= sp
      modifies this`sp, this`slots
      ensures Valid() && Step(env, Op.MakeMap(n, d), old(Now())) == Some(Now())
    {
      hide Insert, InsertAll, TopPairs;
      var top := sp;
      ghost var before := stack[..sp];
      sp := sp - n * 2;
      var entries: seq<Entry> := [];
      var i := 0;
      assert before[..top] == before;
      while i < n
        invariant i <= n && slots == old(slots) && |before| == top && sp == top - 2 * n && top <= stack.Length && stack[..top] == before
        invariant 2 * i <= top && InsertAll(env, [], TopPairs(before, n)) == InsertAll(env, entries, TopPairs(before[..top - 2 * i], n - i))
      {
        NextPair(env, entries, before, i, n);
        assert before[top - 1 - 2 * i] == stack[top - 1 - 2 * i] && before[top - 2 - 2 * i] == stack[top - 2 - 2 * i];
        var e := Entry(stack[top - 1 - 2 * i], stack[top - 2 - 2 * i]);
        entries := Insert(env, entries, e);
        i := i + 1;
      }
      LastPair(env, entries, before[..top - 2 * n]);
      slots := slots[d := Map(entries)];
      assert stack[..sp] == Below(before, 2 * n);
    }

    method Call(env: Env, kind: Kind, f: nat, nargs: nat, ntypes: nat, byName: bool, d: nat)
      requires Valid() && nargs > 0 && Called(env, kind, f, nargs - 1, ntypes, byName, d, Now()).Some?
      modifies this, stack
      ensures Valid() && (stack == old(stack) || fresh(stack))
      ensures Called(env, kind, f, nargs - 1, ntypes, byName, d, old(Now())) == Some(Now())
    {
      hide Requested;
      ghost var before := stack[..sp];
      var top := sp;
      var n := nargs - 1;
      if kind == Builtin {
        stack[sp] := stack[sp - 1];
        top, n := sp + 1, nargs;
        before := before + [before[|before| - 1]];
      }
      assert stack[..top] == before;
      var popped := Taken(kind, n, ntypes, byName);
      var r := Receive(kind, f, n, ntypes, byName, top);
      sp := top - popped;
      slots := slots[d := env.call(log, r)];
      log := log + [r];
      assert stack[..sp] == Below(before, popped);
    }

    /** What the called function finds below "top". */
    method Receive(kind: Kind, f: nat, n: nat, ntypes: nat, byName: bool, top: nat) returns (r: Request)
      requires top <= stack.Length && Taken(kind, n, ntypes, byName) <= top
      ensures r == Requested(kind, f, n, ntypes, byName, stack[..top])
    {
      var at := top - 1;
      ghost var s := stack[..top];
      var types: seq<Val>, names: seq<Val> := [], [];
      assert Below(s, 1) == stack[..at];
      if kind == Constructor {
        types := Collect(at, ntypes);
        at := at - ntypes;
      }
      assert Below(Below(s, 1), |types|) == stack[..at];
      if byName && kind != Native {
        names := Collect(at, n);
        at := at - n;
      }
      assert Below(Below(Below(s, 1), |types|), |names|) == stack[..at];
      var args := Collect(at, n);
      r := Request(f, stack[top - 1], types, names, args);
    }

    method Execute(env: Env, code: seq<Op>)
      requires Valid() && Run(env, code, Now()).Some?
      modifies this, stack
      ensures Valid() && Run(env, code, old(Now())) == Some(Now())
    {
      hide Called, InsertAll, Top, TopPairs, Below;
      var pc := 0;
      while pc < |code|
        invariant Valid() && pc <= |code| && (stack == old(stack) || fresh(stack))
        invariant Run(env, code[pc..], Now()) == Run(env, code, old(Now()))
      {
        ghost var s := Now();
        assert code[pc..][0] == code[pc] && code[pc..][1..] == code[pc + 1..];
        match code[pc] {
          case Push(Imm(v)) => Push(v);
          case Push(Slot(n)) => Push(slots[n]);
          case MakeVector(n, d) => MakeVector(env, n, d);
          case MakeMap(n, d) => MakeMap(env, n, d);
          case CallOp(kind, f, nargs, ntypes, byName, d) => Call(env, kind, f, nargs, ntypes, byName, d);
        }
        assert Step(env, code[pc], s) == Some(Now());
        pc := pc + 1;
      }
    }
  }

  lemma NextPair(env: Env, entries: seq<Entry>, st: seq<Val>, i: nat, n: nat)
    requires i < n && 2 * n <= |st|
    ensures InsertAll(env, entries, TopPairs(st[..|st| - 2 * i], n - i))
         == InsertAll(env, Insert(env, entries, Entry(st[|st| - 1 - 2 * i], st[|st| - 2 - 2 * i])), TopPairs(st[..|st| - 2 * (i + 1)], n - (i + 1)))
  {
    var rest := st[..|st| - 2 * i];
    assert rest[..|rest| - 2] == st[..|st| - 2 * (i + 1)];
    assert TopPairs(rest, n - i)[1..] == TopPairs(rest[..|rest| - 2], n - i - 1);
  }

  lemma LastPair(env: Env, entries: seq<Entry>, rest: seq<Val>)
    ensures InsertAll(env, entries, TopPairs(rest, 0)) == entries
  {
  }

  lemma {:induction false} TopExtends(stack: seq<Val>, n: nat)
    requires n < |stack|
    ensures Top(stack, n + 1) == Top(stack, n) + [stack[|stack| - 1 - n]]
  {
    if n > 0 {
      TopExtends(stack[..|stack| - 1], n - 1);
    }
  }
}

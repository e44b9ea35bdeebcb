/** Reading back what was written. */
module BinaryRoundTrip {
  import opened Values
  import opened Leb128
  import opened BinaryForm

  const LIMIT := 0x8000_0000

  // ----- what can be written -----

  /** Map keys: scalars and strings. */
  predicate KeyOk(k: Val) {
    match k
    case Int(n) => Int64(n)
    case Boolean(_) => true
    case Character(n) => -128 <= n < 128
    case Octet(n) => 0 <= n < 256
    case Real(bits) => Int64(bits)
    case Text(s) => |s| < LIMIT
    case _ => false
  }

  /** The objects a value refers to. */
  function RefsOf(v: Val): set<Id> {
    match v
    case Vector(es) => set i, x | 0 <= i < |es| && x in RefsOf(es[i]) :: x
    case Map(es) => set i, x | 0 <= i < |es| && x in RefsOf(es[i].val) :: x
    case Ref(id) => {id}
    case _ => {}
  }

  predicate Edge(g: Graph, a: Id, b: Id) {
    a in g && exists i :: 0 <= i < |g[a].members| && b in RefsOf(g[a].members[i].val)
  }

  predicate Path(g: Graph, p: seq<Id>) {
    forall i :: 0 <= i < |p| - 1 ==> Edge(g, p[i], p[i + 1])
  }

  ghost predicate Leads(g: Graph, a: Id, b: Id) {
    exists p: seq<Id> :: |p| > 0 && p[0] == a && p[|p| - 1] == b && Path(g, p)
  }

  /** The objects that lead to object b, b included. */
  ghost function Ancestors(g: Graph, b: Id): set<Id> {
    set a | a in g.Keys && Leads(g, a, b)
  }

  /** A value of the supported kinds whose objects belong to part and come after all those in lost. */
  ghost predicate Fit(g: Graph, part: set<Id>, lost: set<Id>, v: Val) {
    match v
    case Vector(es) => |es| < LIMIT && forall i :: 0 <= i < |es| ==> Fit(g, part, lost, es[i])
    case Bytes(b) => |b| < LIMIT
    case Map(es) =>
      |es| < LIMIT && (forall i :: 0 <= i < |es| ==> KeyOk(es[i].key) && Fit(g, part, lost, es[i].val))
      && forall i, j :: 0 <= i < j < |es| ==> es[i].key != es[j].key
    case Ref(id) => id in g && id in part && lost <= Ancestors(g, id)
    case Null => true
    case Empty => false
    case Callable => false
    case _ => KeyOk(v)
  }

  /** The scalars, strings and sequences that can be written. */
  lemma Supported(g: Graph, part: set<Id>, lost: set<Id>, n: int, s: Str, b: bool)
    ensures Fit(g, part, lost, Int(n)) <==> Int64(n)
    ensures Fit(g, part, lost, Boolean(b)) && Fit(g, part, lost, Val.Null) && !Fit(g, part, lost, Empty)
    ensures Fit(g, part, lost, Character(n)) <==> -128 <= n < 128
    ensures Fit(g, part, lost, Octet(n)) <==> 0 <= n < 256
    ensures Fit(g, part, lost, Text(s)) <==> |s| < 0x8000_0000
    ensures Fit(g, part, lost, Bytes(s)) <==> |s| < 0x8000_0000
    ensures |s| < 0x8000_0000 && 0 <= n < 0x8000_0000 ==> Fit(g, part, lost, Vector(seq(n, _ => Text(s))))
  {}

  ghost predicate MemberOk(g: Graph, part: set<Id>, lost: set<Id>, m: Member) {
    m.val.Callable? || (|m.name| < LIMIT && Fit(g, part, lost, m.val) && !(m.val.Text? && Contains(m.val.s, MARK)))
  }

  ghost predicate MembersOk(g: Graph, part: set<Id>, lost: set<Id>, ms: seq<Member>) {
    && (forall i :: 0 <= i < |ms| ==> MemberOk(g, part, lost, ms[i]))
    && (forall i, j :: 0 <= i < j < |ms| ==> ms[i].name != ms[j].name)
  }

  ghost predicate GraphOk(g: Graph, part: set<Id>, classes: set<Str>) {
    |g| < LIMIT && forall id :: id in part ==> id in g && g[id].cls in classes && |g[id].cls| < LIMIT && MembersOk(g, part, {}, g[id].members)
  }

  // ----- what comes back -----

  /** r is v read back: equal, except that objects are the new ones and null has become none.  A
      reference to an object in lost may have become null. */
  predicate Same(v: Val, r: Val, names: Names, h: Heap, lost: set<Id>) {
    match v
    case Vector(es) => r.Vector? && |r.elems| == |es| && forall i :: 0 <= i < |es| ==> Same(es[i], r.elems[i], names, h, lost)
    case Map(es) =>
      r.Map? && |r.entries| == |es|
      && forall i :: 0 <= i < |es| ==> r.entries[i].key == es[i].key && Same(es[i].val, r.entries[i].val, names, h, lost)
    case Ref(id) => id in names && ((names[id] in h.names && r == Ref(h.names[names[id]])) || (id in lost && r == Val.Null))
    case Null => r == Empty
    case _ => r == v
  }

  /** The members read back: those that do not hold something callable. */
  predicate SameMembers(ms: seq<Member>, ms': seq<Member>, names: Names, h: Heap, lost: set<Id>) {
    if ms == [] then ms' == []
    else if ms[0].val.Callable? then SameMembers(ms[1..], ms', names, h, lost)
    else ms' != [] && ms'[0].name == ms[0].name && Same(ms[0].val, ms'[0].val, names, h, lost) && SameMembers(ms[1..], ms'[1..], names, h, lost)
  }

  /** Object id has been rebuilt, but for references to objects that lead back to it. */
  ghost predicate Rebuilt(g: Graph, id: Id, names: Names, h: Heap) {
    && id in g && id in names && names[id] in h.names && h.names[names[id]] in h.objs
    && var o := h.objs[h.names[names[id]]];
       o.monitor == g[id].monitor && o.cls == g[id].cls && SameMembers(g[id].members, o.members, names, h, Ancestors(g, id))
  }

  // ----- writer and reader in step -----

  predicate Generated(s: Str, n: nat) {
    |s| > 7 && 0 <= Number(s[7..]) < n && s == Name(Number(s[7..]))
  }

  /** Members refer to objects below n only. */
  predicate Below(ms: seq<Member>, n: nat) {
    forall i, x :: 0 <= i < |ms| && x in RefsOf(ms[i].val) ==> x < n
  }

  /** Names are generated in order, one for each object; the reader knows only names that were given out,
      and one new object for each. */
  ghost predicate Tidy(g: Graph, names: Names, h: Heap) {
    && names.Keys <= g.Keys && (forall id :: id in names ==> Generated(names[id], |names|))
    && (forall i, j :: i in names && j in names && i != j ==> names[i] != names[j])
    && (forall s :: s in h.names ==> Generated(s, |names|) && h.names[s] < h.next)
    && (forall s, t :: s in h.names && t in h.names && s != t ==> h.names[s] != h.names[t])
    && (forall i :: i in h.objs ==> i < h.next && Below(h.objs[i].members, i))
  }

  /** The reader knows every named object that is not still being read. */
  predicate Known(lost: set<Id>, names: Names, h: Heap) {
    forall id :: id in names && id !in lost ==> names[id] in h.names
  }

  predicate Grown(names: Names, h: Heap, names': Names, h': Heap) {
    && (forall id :: id in names ==> id in names' && names'[id] == names[id])
    && (forall s :: s in h.names ==> s in h'.names && h'.names[s] == h.names[s])
    && (forall i :: i in h.objs ==> i in h'.objs && h'.objs[i] == h.objs[i])
    && h'.classes == h.classes
  }

  ghost predicate Fresh(g: Graph, part: set<Id>, names: Names, names': Names, h': Heap) {
    forall id :: id in names' && id !in names ==> id in part && Rebuilt(g, id, names', h')
  }

  /** From one state of writer and reader to a later one. */
  ghost predicate Onward(g: Graph, part: set<Id>, lost: set<Id>, names: Names, h: Heap, names': Names, h': Heap) {
    && Grown(names, h, names', h') && Tidy(g, names', h') && Known(lost, names', h') && Fresh(g, part, names, names', h')
    && (forall s :: s in h'.names && s !in h.names ==> !Generated(s, |names|))
  }

  lemma {:induction false} SameGrows(v: Val, r: Val, names: Names, h: Heap, names': Names, h': Heap, lost: set<Id>)
    requires Same(v, r, names, h, lost) && Grown(names, h, names', h')
    ensures Same(v, r, names', h', lost)
    decreases v
  {
    match v
    case Vector(es) =>
      forall i | 0 <= i < |es| ensures Same(es[i], r.elems[i], names', h', lost) { SameGrows(es[i], r.elems[i], names, h, names', h', lost); }
    case Map(es) =>
      forall i | 0 <= i < |es| ensures Same(es[i].val, r.entries[i].val, names', h', lost) {
        SameGrows(es[i].val, r.entries[i].val, names, h, names', h', lost);
      }
    case _ =>
  }

  lemma {:induction false} SameMembersGrow(ms: seq<Member>, ms': seq<Member>, names: Names, h: Heap, names': Names, h': Heap, lost: set<Id>)
    requires SameMembers(ms, ms', names, h, lost) && Grown(names, h, names', h')
    ensures SameMembers(ms, ms', names', h', lost)
    decreases |ms|
  {
    if ms != [] {
      if ms[0].val.Callable? {
        SameMembersGrow(ms[1..], ms', names, h, names', h', lost);
      } else {
        SameGrows(ms[0].val, ms'[0].val, names, h, names', h', lost);
        SameMembersGrow(ms[1..], ms'[1..], names, h, names', h', lost);
      }
    }
  }

  lemma MoreNames(names: Names, h: Heap, names': Names, h': Heap)
    requires Grown(names, h, names', h')
    ensures |names| <= |names'| && ((exists id :: id in names' && id !in names) ==> |names| < |names'|)
  {
    NoMore(names.Keys, names'.Keys);
    if id :| id in names' && id !in names { Fewer(names.Keys, names'.Keys); }
  }

  lemma RebuiltGrows(g: Graph, id: Id, names: Names, h: Heap, names': Names, h': Heap)
    requires Rebuilt(g, id, names, h) && Grown(names, h, names', h')
    ensures Rebuilt(g, id, names', h')
  {
    hide SameMembers;
    SameMembersGrow(g[id].members, h.objs[h.names[names[id]]].members, names, h, names', h', Ancestors(g, id));
  }

  lemma FreshFresh(g: Graph, part: set<Id>, names: Names, names': Names, h': Heap, names'': Names, h'': Heap)
    requires Fresh(g, part, names, names', h') && Fresh(g, part, names', names'', h'') && Grown(names', h', names'', h'')
    ensures Fresh(g, part, names, names'', h'')
  {
    hide Grown, Rebuilt;
    forall id | id in names'' && id !in names ensures id in part && Rebuilt(g, id, names'', h'') {
      if id in names' {
        RebuiltGrows(g, id, names', h', names'', h'');
      }
    }
  }

  lemma GrownGrown(names: Names, h: Heap, names': Names, h': Heap, names'': Names, h'': Heap)
    requires Grown(names, h, names', h') && Grown(names', h', names'', h'')
    ensures Grown(names, h, names'', h'')
  {}

  lemma StillUnused(s: Str, m: nat, n: nat)
    requires !Generated(s, n) && m <= n
    ensures !Generated(s, m)
  {}

  lemma OnwardOnward(g: Graph, part: set<Id>, lost: set<Id>, names: Names, h: Heap, names': Names, h': Heap, names'': Names, h'': Heap)
    requires Onward(g, part, lost, names, h, names', h') && Onward(g, part, lost, names', h', names'', h'')
    ensures Onward(g, part, lost, names, h, names'', h'')
  {
    hide Grown, Tidy, Known, Fresh, Generated;
    MoreNames(names, h, names', h');
    FreshFresh(g, part, names, names', h', names'', h'');
    GrownGrown(names, h, names', h', names'', h'');
    forall s | s in h''.names && s !in h.names ensures !Generated(s, |names|) {
      if s !in h'.names { StillUnused(s, |names|, |names'|); }
    }
  }

  // ----- numbers and strings -----

  lemma IntBack(v: int, suffix: Str)
    requires Int64(v)
    ensures ReadInt(Encode(v) + suffix) == Some((v, suffix))
  {
    hide Encode, Decode;
    RoundTrip(v, suffix);
    AtMostTen(v);
    assert |Encode(v) + suffix| - |suffix| == |Encode(v)|;
  }

  lemma StringBack(s: Str, suffix: Str)
    requires |s| < LIMIT
    ensures ReadString(WriteString(s) + suffix) == Some((s, suffix))
  {
    assert WriteString(s) + suffix == Encode(|s|) + (s + suffix);
    IntBack(|s|, s + suffix);
  }

  lemma Stay(g: Graph, part: set<Id>, lost: set<Id>, names: Names, h: Heap)
    requires Tidy(g, names, h) && Known(lost, names, h)
    ensures Onward(g, part, lost, names, h, names, h)
  {}

  // ----- one value -----

  /** The number that stands for a scalar. */
  function Payload(v: Val): int {
    match v
    case Int(n) => n
    case Boolean(b) => if b then 1 else 0
    case Character(n) => n
    case Octet(n) => n
    case Real(bits) => bits
    case _ => 0
  }

  /** Scalars and strings. */
  lemma ScalarBack(g: Graph, v: Val, names: Names, h: Heap, suffix: Str)
    requires KeyOk(v)
    ensures Write(g, v, names).names == names && Read(Write(g, v, names).bytes + suffix, h) == Some(ReadVal(v, suffix, h))
  {
    hide Encode, Decode, ReadInt, ReadString, WriteString;
    var s := Write(g, v, names).bytes + suffix;
    if v.Text? {
      assert s[1..] == WriteString(v.s) + suffix;
      StringBack(v.s, suffix);
    } else {
      var n := Payload(v);
      assert s[1..] == Encode(n) + suffix;
      IntBack(n, suffix);
    }
  }

  lemma NullBack(g: Graph, names: Names, h: Heap, suffix: Str)
    ensures Write(g, Null, names).names == names && Read(Write(g, Null, names).bytes + suffix, h) == Some(ReadVal(Empty, suffix, h))
  {
    assert Encode(0) == [0];
    assert ([0] + suffix)[1..] == suffix;
  }

  lemma BytesBack(g: Graph, b: Str, names: Names, h: Heap, suffix: Str)
    requires |b| < LIMIT
    ensures Write(g, Bytes(b), names).names == names && Read(Write(g, Bytes(b), names).bytes + suffix, h) == Some(ReadVal(Bytes(b), suffix, h))
  {
    hide Encode, Decode, ReadInt, ReadString, WriteString;
    var s := Write(g, Bytes(b), names).bytes + suffix;
    assert s[1..] == Encode(|b|) + (b + suffix);
    IntBack(|b|, b + suffix);
    assert (b + suffix)[..|b|] == b && (b + suffix)[|b|..] == suffix;
  }

  /** A reference to an object that is complete already. */
  lemma ReferenceBack(g: Graph, id: Id, names: Names, h: Heap, suffix: Str)
    requires id in names && |names[id]| < LIMIT && names[id] in h.names
    ensures Write(g, Ref(id), names).names == names
    ensures Read(Write(g, Ref(id), names).bytes + suffix, h) == Some(ReadVal(Ref(h.names[names[id]]), suffix, h))
  {
    hide Encode, Decode, ReadInt, ReadString, WriteString;
    var s := Write(g, Ref(id), names).bytes + suffix;
    assert s[1..] == WriteString(names[id]) + suffix;
    StringBack(names[id], suffix);
  }

  lemma VectorRead(n: nat, body: Str, h: Heap, suffix: Str, rs: seq<Val>, h': Heap)
    requires n < LIMIT && ReadAll(n, body + suffix, h) == Some((rs, suffix, h'))
    ensures Read(Tagged(T_VECTOR, n) + body + suffix, h) == Some(ReadVal(Vector(rs), suffix, h'))
  {
    hide Encode, Decode, ReadInt, ReadString, ReadAll, ReadEntries;
    var s := Tagged(T_VECTOR, n) + body + suffix;
    assert s[1..] == Encode(n) + (body + suffix);
    IntBack(n, body + suffix);
  }

  lemma MapRead(n: nat, body: Str, h: Heap, suffix: Str, es: seq<Entry>, h': Heap)
    requires n < LIMIT && ReadEntries(n, body + suffix, h, []) == Some((es, suffix, h'))
    ensures Read(Tagged(T_MAP, n) + body + suffix, h) == Some(ReadVal(Map(es), suffix, h'))
  {
    hide Encode, Decode, ReadInt, ReadString, ReadAll, ReadEntries;
    var s := Tagged(T_MAP, n) + body + suffix;
    assert s[1..] == Encode(n) + (body + suffix);
    IntBack(n, body + suffix);
  }

  lemma {:induction false} Back(g: Graph, part: set<Id>, lost: set<Id>, v: Val, names: Names, h: Heap, suffix: Str) returns (r: Val, h': Heap)
    requires GraphOk(g, part, h.classes) && Fit(g, part, lost, v) && Tidy(g, names, h) && Known(lost, names, h)
    ensures var w := Write(g, v, names);
            && Read(w.bytes + suffix, h) == Some(ReadVal(r, suffix, h'))
            && Same(v, r, w.names, h', lost) && Onward(g, part, lost, names, h, w.names, h')
    decreases |g.Keys - names.Keys|, v, 1
  {
    hide GraphOk, Tidy, Known, Write, Read, Onward;
    Stay(g, part, lost, names, h);
    match v
    case Vector(es) =>
      var rs;
      rs, h' := AllBack(g, part, lost, es, names, h, suffix);
      VectorRead(|es|, WriteAll(g, es, names).bytes, h, suffix, rs, h');
      WriteVector(g, es, names);
      r := Vector(rs);
    case Map(es) =>
      var rs;
      rs, h' := EntriesBack(g, part, lost, es, names, h, suffix, []);
      assert [] + rs == rs;
      MapRead(|es|, WriteEntries(g, es, names).bytes, h, suffix, rs, h');
      WriteMap(g, es, names);
      r := Map(rs);
    case Ref(id) =>
      if id in names {
        KnownName(g, part, lost, names, h, id);
        if names[id] in h.names {
          ReferenceBack(g, id, names, h, suffix);
          r, h' := Ref(h.names[names[id]]), h;
        } else {
          DanglingReference(g, id, names, h, suffix);
          assert [] + suffix == suffix;
          r, h' := Val.Null, h;
        }
      } else {
        r, h' := ObjectBack(g, part, lost, id, names, h, suffix);
      }
    case Null =>
      NullBack(g, names, h, suffix);
      r, h' := Empty, h;
    case Bytes(b) =>
      BytesBack(g, b, names, h, suffix);
      r, h' := v, h;
    case _ =>
      ScalarBack(g, v, names, h, suffix);
      r, h' := v, h;
  }

  lemma WriteVector(g: Graph, es: seq<Val>, names: Names)
    ensures var w := WriteAll(g, es, names); Write(g, Vector(es), names) == Written(Tagged(T_VECTOR, |es|) + w.bytes, w.names)
  {}

  lemma WriteMap(g: Graph, es: seq<Entry>, names: Names)
    ensures var w := WriteEntries(g, es, names); Write(g, Map(es), names) == Written(Tagged(T_MAP, |es|) + w.bytes, w.names)
  {}

  lemma KnownName(g: Graph, part: set<Id>, lost: set<Id>, names: Names, h: Heap, id: Id)
    requires GraphOk(g, part, h.classes) && Tidy(g, names, h) && Known(lost, names, h) && id in names
    ensures |names[id]| < LIMIT && (id !in lost ==> names[id] in h.names)
  {
    hide MembersOk;
    NoMore(names.Keys, g.Keys);
    NumberOfDigits(Number(names[id][7..]));
  }

  lemma OnwardParts(g: Graph, part: set<Id>, lost: set<Id>, names: Names, h: Heap, names': Names, h': Heap)
    requires Onward(g, part, lost, names, h, names', h')
    ensures Tidy(g, names', h') && Known(lost, names', h') && Grown(names, h, names', h') && h'.classes == h.classes
    ensures names.Keys <= names'.Keys && |g.Keys - names'.Keys| <= |g.Keys - names.Keys|
  {
    NoMore(g.Keys - names'.Keys, g.Keys - names.Keys);
  }

  lemma {:induction false} AllBack(g: Graph, part: set<Id>, lost: set<Id>, es: seq<Val>, names: Names, h: Heap, suffix: Str) returns (rs: seq<Val>, h': Heap)
    requires GraphOk(g, part, h.classes) && (forall i :: 0 <= i < |es| ==> Fit(g, part, lost, es[i])) && Tidy(g, names, h) && Known(lost, names, h)
    ensures var w := WriteAll(g, es, names);
            && ReadAll(|es|, w.bytes + suffix, h) == Some((rs, suffix, h'))
            && AllSame(es, rs, w.names, h', lost) && Onward(g, part, lost, names, h, w.names, h')
    decreases |g.Keys - names.Keys|, es, 0
  {
    hide GraphOk, Tidy, Known, Write, Read, Onward, Fit, Grown, Same, WriteAll, ReadAll, AllSame;
    if es == [] {
      Stay(g, part, lost, names, h);
      rs, h' := [], h;
      NoElements(g, names, h, suffix, lost);
    } else {
      var w := Write(g, es[0], names);
      var w' := WriteAll(g, es[1..], w.names);
      var r, h1 := Back(g, part, lost, es[0], names, h, w'.bytes + suffix);
      OnwardParts(g, part, lost, names, h, w.names, h1);
      rs, h' := AllBack(g, part, lost, es[1..], w.names, h1, suffix);
      ElementBack(g, es, names, h, suffix, r, h1, rs, h');
      OnwardParts(g, part, lost, w.names, h1, w'.names, h');
      OnwardOnward(g, part, lost, names, h, w.names, h1, w'.names, h');
      SameGrows(es[0], r, w.names, h1, w'.names, h', lost);
      AllSameFirst(es, r, rs, w'.names, h', lost);
      rs := [r] + rs;
    }
  }

  predicate AllSame(es: seq<Val>, rs: seq<Val>, names: Names, h: Heap, lost: set<Id>) {
    |rs| == |es| && forall i :: 0 <= i < |es| ==> Same(es[i], rs[i], names, h, lost)
  }

  lemma AllSameFirst(es: seq<Val>, r: Val, rs: seq<Val>, names: Names, h: Heap, lost: set<Id>)
    requires es != [] && Same(es[0], r, names, h, lost) && AllSame(es[1..], rs, names, h, lost)
    ensures AllSame(es, [r] + rs, names, h, lost)
  {
    hide Same;
    forall i | 0 <= i < |es| ensures Same(es[i], ([r] + rs)[i], names, h, lost) {
      if i > 0 { assert es[i] == es[1..][i - 1]; }
    }
  }

  lemma NoElements(g: Graph, names: Names, h: Heap, suffix: Str, lost: set<Id>)
    ensures WriteAll(g, [], names) == Written([], names) && ReadAll(0, [] + suffix, h) == Some(([], suffix, h)) && AllSame([], [], names, h, lost)
  {
    assert [] + suffix == suffix;
  }

  /** The first element is written and read. */
  lemma ElementBack(g: Graph, es: seq<Val>, names: Names, h: Heap, suffix: Str, r: Val, h1: Heap, rs: seq<Val>, h': Heap)
    requires es != []
    requires var w := Write(g, es[0], names);
             var w' := WriteAll(g, es[1..], w.names);
             && Read(w.bytes + (w'.bytes + suffix), h) == Some(ReadVal(r, w'.bytes + suffix, h1))
             && ReadAll(|es| - 1, w'.bytes + suffix, h1) == Some((rs, suffix, h'))
    ensures var w := Write(g, es[0], names);
            && WriteAll(g, es, names).names == WriteAll(g, es[1..], w.names).names
            && ReadAll(|es|, WriteAll(g, es, names).bytes + suffix, h) == Some(([r] + rs, suffix, h'))
  {
    hide Write, Read;
    var w := Write(g, es[0], names);
    var w' := WriteAll(g, es[1..], w.names);
    assert w.bytes + w'.bytes + suffix == w.bytes + (w'.bytes + suffix);
  }

  lemma {:induction false} PutNew(es: seq<Entry>, e: Entry)
    requires forall i :: 0 <= i < |es| ==> es[i].key != e.key
    ensures Put(es, e) == es + [e]
  {
    if es != [] {
      PutNew(es[1..], e);
      assert [es[0]] + (es[1..] + [e]) == es + [e];
    }
  }

  lemma {:induction false} EntriesBack(g: Graph, part: set<Id>, lost: set<Id>, es: seq<Entry>, names: Names, h: Heap, suffix: Str, acc: seq<Entry>) returns (rs: seq<Entry>, h': Heap)
    requires GraphOk(g, part, h.classes) && Fit(g, part, lost, Map(es)) && Tidy(g, names, h) && Known(lost, names, h)
    requires forall i, j :: 0 <= i < |acc| && 0 <= j < |es| ==> acc[i].key != es[j].key
    ensures var w := WriteEntries(g, es, names);
            && ReadEntries(|es|, w.bytes + suffix, h, acc) == Some((acc + rs, suffix, h'))
            && EntriesSame(es, rs, w.names, h', lost) && Onward(g, part, lost, names, h, w.names, h')
    decreases |g.Keys - names.Keys|, es, 0
  {
    hide GraphOk, Tidy, Known, Write, Read, Onward, Fit, Grown, Same, Put, KeyOk, WriteEntries, ReadEntries, EntriesSame;
    if es == [] {
      Stay(g, part, lost, names, h);
      rs, h' := [], h;
      NoEntries(g, names, h, suffix, acc, lost);
    } else {
      FirstEntry(g, part, lost, es);
      var w := Write(g, es[0].val, names);
      var w' := WriteEntries(g, es[1..], w.names);
      var e := es[0];
      assert es decreases to e;
      var r, h1 := Back(g, part, lost, e.val, names, h, w'.bytes + suffix);
      OnwardParts(g, part, lost, names, h, w.names, h1);
      EntryBack(g, es, names, h, suffix, acc, r, h1);
      rs, h' := EntriesBack(g, part, lost, es[1..], w.names, h1, suffix, acc + [Entry(e.key, r)]);
      OnwardParts(g, part, lost, w.names, h1, w'.names, h');
      OnwardOnward(g, part, lost, names, h, w.names, h1, w'.names, h');
      SameGrows(e.val, r, w.names, h1, w'.names, h', lost);
      EntriesSameFirst(es, r, rs, w'.names, h', lost);
      assert acc + [Entry(e.key, r)] + rs == acc + ([Entry(e.key, r)] + rs);
      rs := [Entry(e.key, r)] + rs;
    }
  }

  predicate EntriesSame(es: seq<Entry>, rs: seq<Entry>, names: Names, h: Heap, lost: set<Id>) {
    |rs| == |es| && forall i :: 0 <= i < |es| ==> rs[i].key == es[i].key && Same(es[i].val, rs[i].val, names, h, lost)
  }

  lemma EntriesSameFirst(es: seq<Entry>, r: Val, rs: seq<Entry>, names: Names, h: Heap, lost: set<Id>)
    requires es != [] && Same(es[0].val, r, names, h, lost) && EntriesSame(es[1..], rs, names, h, lost)
    ensures EntriesSame(es, [Entry(es[0].key, r)] + rs, names, h, lost)
  {
    hide Same;
    var rs' := [Entry(es[0].key, r)] + rs;
    forall i | 0 <= i < |es| ensures rs'[i].key == es[i].key && Same(es[i].val, rs'[i].val, names, h, lost) {
      if i > 0 { assert es[i] == es[1..][i - 1]; }
    }
  }

  lemma NoEntries(g: Graph, names: Names, h: Heap, suffix: Str, acc: seq<Entry>, lost: set<Id>)
    ensures EntriesSame([], [], names, h, lost)
    ensures WriteEntries(g, [], names) == Written([], names) && ReadEntries(0, [] + suffix, h, acc) == Some((acc + [], suffix, h))
  {
    assert [] + suffix == suffix && acc + [] == acc;
  }

  /** The first entry is written and read. */
  lemma EntryBack(g: Graph, es: seq<Entry>, names: Names, h: Heap, suffix: Str, acc: seq<Entry>, r: Val, h1: Heap)
    requires es != [] && KeyOk(es[0].key) && forall i :: 0 <= i < |acc| ==> acc[i].key != es[0].key
    requires var w := Write(g, es[0].val, names);
             var w' := WriteEntries(g, es[1..], w.names);
             Read(w.bytes + (w'.bytes + suffix), h) == Some(ReadVal(r, w'.bytes + suffix, h1))
    ensures var w := Write(g, es[0].val, names);
            var w' := WriteEntries(g, es[1..], w.names);
            && WriteEntries(g, es, names).names == w'.names
            && ReadEntries(|es|, WriteEntries(g, es, names).bytes + suffix, h, acc) == ReadEntries(|es| - 1, w'.bytes + suffix, h1, acc + [Entry(es[0].key, r)])
  {
    hide Write, Read, Put, KeyOk;
    var k := Write(g, es[0].key, names);
    var w := Write(g, es[0].val, names);
    var w' := WriteEntries(g, es[1..], w.names);
    ScalarBack(g, es[0].key, names, h, w.bytes + (w'.bytes + suffix));
    assert k.bytes + w.bytes + w'.bytes + suffix == k.bytes + (w.bytes + (w'.bytes + suffix));
    PutNew(acc, Entry(es[0].key, r));
  }

  lemma FirstEntry(g: Graph, part: set<Id>, lost: set<Id>, es: seq<Entry>)
    requires Fit(g, part, lost, Map(es)) && es != []
    ensures KeyOk(es[0].key) && Fit(g, part, lost, es[0].val) && Fit(g, part, lost, Map(es[1..]))
    ensures forall j :: 1 <= j < |es| ==> es[0].key != es[j].key
  {}

  // ----- objects -----

  lemma {:induction false} PutMemberNew(ms: seq<Member>, m: Member)
    requires forall i :: 0 <= i < |ms| ==> ms[i].name != m.name
    ensures PutMember(ms, m) == ms + [m]
  {
    if ms != [] {
      PutMemberNew(ms[1..], m);
      assert [ms[0]] + (ms[1..] + [m]) == ms + [m];
    }
  }

  predicate Unmarked(ms: seq<Member>) {
    forall i :: 0 <= i < |ms| ==> !(ms[i].val.Text? && Contains(ms[i].val.s, MARK))
  }

  lemma {:induction false} MembersBack(g: Graph, part: set<Id>, lost: set<Id>, ms: seq<Member>, names: Names, h: Heap, suffix: Str, acc: seq<Member>)
    returns (rs: seq<Member>, h': Heap)
    requires GraphOk(g, part, h.classes) && MembersOk(g, part, lost, ms) && Tidy(g, names, h) && Known(lost, names, h)
    requires forall i, j :: 0 <= i < |acc| && 0 <= j < |ms| ==> acc[i].name != ms[j].name
    ensures var w := WriteMembers(g, ms, names);
            && ReadMembers(w.bytes + ([T_EOB] + suffix), h, acc) == Some((acc + rs, suffix, h'))
            && SameMembers(ms, rs, w.names, h', lost) && Unmarked(rs) && Onward(g, part, lost, names, h, w.names, h')
    decreases |g.Keys - names.Keys|, ms, 0
  {
    hide GraphOk, Tidy, Known, Write, Read, Onward, Fit, Grown, Same, Contains, WriteMembers, ReadMembers, MembersOk, SameMembers, Unmarked;
    if ms == [] {
      Stay(g, part, lost, names, h);
      rs, h' := [], h;
      NoMembers(g, names, h, suffix, acc, lost);
    } else if ms[0].val.Callable? {
      SkippedMember(g, ms, names);
      FirstMember(g, part, lost, ms);
      rs, h' := MembersBack(g, part, lost, ms[1..], names, h, suffix, acc);
    } else {
      var m := ms[0];
      assert ms decreases to m;
      FirstMember(g, part, lost, ms);
      var w := Write(g, m.val, names);
      var w' := WriteMembers(g, ms[1..], w.names);
      var r, h1 := Back(g, part, lost, m.val, names, h, w'.bytes + ([T_EOB] + suffix));
      OnwardParts(g, part, lost, names, h, w.names, h1);
      MemberBack(g, ms, names, h, [T_EOB] + suffix, acc, r, h1);
      rs, h' := MembersBack(g, part, lost, ms[1..], w.names, h1, suffix, acc + [Member(m.name, r)]);
      OnwardParts(g, part, lost, w.names, h1, w'.names, h');
      OnwardOnward(g, part, lost, names, h, w.names, h1, w'.names, h');
      SameGrows(m.val, r, w.names, h1, w'.names, h', lost);
      FirstRebuilt(g, part, lost, ms, r, rs, w'.names, h');
      assert acc + [Member(m.name, r)] + rs == acc + ([Member(m.name, r)] + rs);
      rs := [Member(m.name, r)] + rs;
    }
  }

  lemma FirstMember(g: Graph, part: set<Id>, lost: set<Id>, ms: seq<Member>)
    requires MembersOk(g, part, lost, ms) && ms != []
    ensures MemberOk(g, part, lost, ms[0]) && MembersOk(g, part, lost, ms[1..])
    ensures forall j :: 1 <= j < |ms| ==> ms[0].name != ms[j].name
  {}

  lemma FirstRebuilt(g: Graph, part: set<Id>, lost: set<Id>, ms: seq<Member>, r: Val, rs: seq<Member>, names: Names, h: Heap)
    requires ms != [] && !ms[0].val.Callable? && MemberOk(g, part, lost, ms[0])
    requires Same(ms[0].val, r, names, h, lost) && SameMembers(ms[1..], rs, names, h, lost) && Unmarked(rs)
    ensures SameMembers(ms, [Member(ms[0].name, r)] + rs, names, h, lost) && Unmarked([Member(ms[0].name, r)] + rs)
  {
    SameKind(ms[0].val, r, names, h, lost);
    assert ([Member(ms[0].name, r)] + rs)[1..] == rs;
  }

  lemma NoMembers(g: Graph, names: Names, h: Heap, suffix: Str, acc: seq<Member>, lost: set<Id>)
    ensures SameMembers([], [], names, h, lost) && Unmarked([])
    ensures WriteMembers(g, [], names) == Written([], names)
    ensures ReadMembers([] + ([T_EOB] + suffix), h, acc) == Some((acc + [], suffix, h))
  {
    assert [] + ([T_EOB] + suffix) == [T_EOB] + suffix && acc + [] == acc && ([T_EOB] + suffix)[1..] == suffix;
  }

  lemma SkippedMember(g: Graph, ms: seq<Member>, names: Names)
    requires ms != [] && ms[0].val.Callable?
    ensures WriteMembers(g, ms, names) == WriteMembers(g, ms[1..], names)
    ensures forall ms', h, names', lost :: SameMembers(ms[1..], ms', names', h, lost) ==> SameMembers(ms, ms', names', h, lost)
  {}

  /** A string comes back as that string, anything else not as a string. */
  lemma SameKind(v: Val, r: Val, names: Names, h: Heap, lost: set<Id>)
    requires Same(v, r, names, h, lost)
    ensures r.Text? <==> v.Text?
    ensures v.Text? ==> r == v
  {}

  /** The first member is written and read. */
  lemma MemberBack(g: Graph, ms: seq<Member>, names: Names, h: Heap, suffix: Str, acc: seq<Member>, r: Val, h1: Heap)
    requires ms != [] && !ms[0].val.Callable? && |ms[0].name| < LIMIT && forall i :: 0 <= i < |acc| ==> acc[i].name != ms[0].name
    requires var w := Write(g, ms[0].val, names);
             var w' := WriteMembers(g, ms[1..], w.names);
             Read(w.bytes + (w'.bytes + suffix), h) == Some(ReadVal(r, w'.bytes + suffix, h1))
    ensures var w := Write(g, ms[0].val, names);
            var w' := WriteMembers(g, ms[1..], w.names);
            && WriteMembers(g, ms, names).names == w'.names
            && ReadMembers(WriteMembers(g, ms, names).bytes + suffix, h, acc) == ReadMembers(w'.bytes + suffix, h1, acc + [Member(ms[0].name, r)])
  {
    hide Write, Read, PutMember, WriteString, ReadString;
    var w := Write(g, ms[0].val, names);
    var w' := WriteMembers(g, ms[1..], w.names);
    var s := WriteMembers(g, ms, names).bytes + suffix;
    assert s[0] == T_MEMBER && s[1..] == WriteString(ms[0].name) + (w.bytes + (w'.bytes + suffix));
    StringBack(ms[0].name, w.bytes + (w'.bytes + suffix));
    PutMemberNew(acc, Member(ms[0].name, r));
  }

  /** Writing an object names it first. */
  lemma Named(g: Graph, part: set<Id>, lost: set<Id>, names: Names, h: Heap, id: Id)
    requires GraphOk(g, part, h.classes) && id in g && id in part && lost <= Ancestors(g, id) && id !in names && Tidy(g, names, h) && Known(lost, names, h)
    ensures var named := names[id := Name(|names|)];
            && Tidy(g, named, h) && Known(Ancestors(g, id), named, h)
            && |g.Keys - named.Keys| < |g.Keys - names.Keys|
    ensures |Name(|names|)| < LIMIT && |g| < LIMIT && MembersOk(g, part, Ancestors(g, id), g[id].members) && |g[id].cls| < LIMIT && g[id].cls in h.classes
  {
    hide MembersOk, Name, Tidy, Ancestors;
    var named := names[id := Name(|names|)];
    FreshName(names, h, g);
    NamedTidy(names, h, g, id);
    assert named.Keys == names.Keys + {id};
    Fewer(g.Keys - named.Keys, g.Keys - names.Keys);
    LeadsToItself(g, id);
    MembersDeeper(g, part, id);
  }

  lemma LeadsToItself(g: Graph, id: Id)
    requires id in g
    ensures id in Ancestors(g, id)
  {
    var p := [id];
    assert p[0] == id && p[|p| - 1] == id && Path(g, p);
  }

  /** What leads to an object leads to those it refers to. */
  lemma Onto(g: Graph, a: Id, b: Id)
    requires Edge(g, a, b)
    ensures Ancestors(g, a) <= Ancestors(g, b)
  {
    hide Edge;
    forall x | x in Ancestors(g, a) ensures Leads(g, x, b) {
      var p: seq<Id> :| |p| > 0 && p[0] == x && p[|p| - 1] == a && Path(g, p);
      var q := p + [b];
      assert q[0] == x && q[|q| - 1] == b;
      forall i | 0 <= i < |q| - 1 ensures Edge(g, q[i], q[i + 1]) {
        if i < |p| - 1 { assert Edge(g, p[i], p[i + 1]); }
      }
    }
  }

  lemma MembersDeeper(g: Graph, part: set<Id>, id: Id)
    requires id in g && MembersOk(g, part, {}, g[id].members)
    ensures MembersOk(g, part, Ancestors(g, id), g[id].members)
  {
    hide Ancestors, Fit;
    var ms := g[id].members;
    forall i | 0 <= i < |ms| ensures MemberOk(g, part, Ancestors(g, id), ms[i]) {
      assert MemberOk(g, part, {}, ms[i]);
      if !ms[i].val.Callable? {
        forall x | x in RefsOf(ms[i].val) ensures Ancestors(g, id) <= Ancestors(g, x) {
          assert Edge(g, id, x);
          Onto(g, id, x);
        }
        FitDeeper(g, part, Ancestors(g, id), ms[i].val);
      }
    }
  }

  lemma {:induction false} FitDeeper(g: Graph, part: set<Id>, lost: set<Id>, v: Val)
    requires Fit(g, part, {}, v) && forall x :: x in RefsOf(v) ==> lost <= Ancestors(g, x)
    ensures Fit(g, part, lost, v)
    decreases v
  {
    hide Ancestors, KeyOk;
    match v
    case Vector(es) =>
      forall i | 0 <= i < |es| ensures Fit(g, part, lost, es[i]) { FitDeeper(g, part, lost, es[i]); }
    case Map(es) =>
      forall i | 0 <= i < |es| ensures Fit(g, part, lost, es[i].val) { FitDeeper(g, part, lost, es[i].val); }
    case _ =>
  }

  lemma NamedTidy(names: Names, h: Heap, g: Graph, id: Id)
    requires Tidy(g, names, h) && id in g && id !in names
    ensures Tidy(g, names[id := Name(|names|)], h)
  {
    hide Name, Generated;
    var n := |names|;
    var named := names[id := Name(n)];
    assert named.Keys == names.Keys + {id};
    assert |named| == n + 1;
    Numbered(n);
    forall j | j in named ensures Generated(named[j], n + 1) && (j != id ==> named[j] != Name(n)) {
      if j != id { GeneratedMore(names[j], n); }
    }
    forall s | s in h.names ensures Generated(s, n + 1) { GeneratedMore(s, n); }
  }

  lemma Numbered(n: nat)
    ensures Generated(Name(n), n + 1)
  {
    NumberOfDigits(n);
    assert Name(n)[7..] == Digits(n);
  }

  lemma GeneratedMore(s: Str, n: nat)
    requires Generated(s, n)
    ensures Generated(s, n + 1) && s != Name(n)
  {
    NamesDiffer(Number(s[7..]), n);
  }

  /** The next name has not been given out. */
  lemma FreshName(names: Names, h: Heap, g: Graph)
    requires Tidy(g, names, h) && |g| < LIMIT
    ensures Generated(Name(|names|), |names| + 1) && |Name(|names|)| < LIMIT
    ensures Name(|names|) !in h.names && Name(|names|) !in names.Values
  {
    var n := |names|;
    NoMore(names.Keys, g.Keys);
    NumberOfDigits(n);
    Numbered(n);
    if Name(n) in h.names { GeneratedMore(Name(n), n); }
    if id :| id in names && names[id] == Name(n) { GeneratedMore(Name(n), n); }
  }

  /** The bytes of an object and what reading them does. */
  lemma ObjectRead(g: Graph, id: Id, names: Names, h: Heap, suffix: Str, ms: seq<Member>, h1: Heap)
    requires id in g && id !in names && |Name(|names|)| < LIMIT && |g[id].cls| < LIMIT && g[id].cls in h1.classes
    requires var w := WriteMembers(g, g[id].members, names[id := Name(|names|)]);
             ReadMembers(w.bytes + ([T_EOB] + suffix), h, []) == Some((ms, suffix, h1))
    ensures Write(g, Ref(id), names).names == WriteMembers(g, g[id].members, names[id := Name(|names|)]).names
    ensures Read(Write(g, Ref(id), names).bytes + suffix, h) ==
            Some(ReadVal(Ref(h1.next), suffix, NewObject(h1, Name(|names|), Obj(g[id].monitor, g[id].cls, ms))))
  {
    hide ReadString, WriteString, WriteMembers, ReadMembers, NewObject, Name;
    var named := names[id := Name(|names|)];
    var w := WriteMembers(g, g[id].members, named);
    var tag := if g[id].monitor then T_MONITOR else T_OBJECT;
    var s := Write(g, Ref(id), names).bytes + suffix;
    var s1 := w.bytes + ([T_EOB] + suffix);
    assert s[0] == tag && s[1..] == WriteString(Name(|names|)) + (WriteString(g[id].cls) + s1);
    StringBack(Name(|names|), WriteString(g[id].cls) + s1);
    StringBack(g[id].cls, s1);
  }

  lemma NewObjectIs(h: Heap, name: Str, o: Obj)
    requires Unmarked(o.members)
    ensures NewObject(h, name, o) == Heap(h.objs[h.next := o], h.names[name := h.next], h.next + 1, h.classes)
  {
    hide Contains;
    var named := h.(names := h.names[name := h.next]);
    assert seq(|o.members|, i requires 0 <= i < |o.members| => Member(o.members[i].name, Assigned(o.members[i].val, named))) == o.members;
  }

  /** A reader that has just built object o under the given name. */
  function Extended(h: Heap, name: Str, o: Obj): Heap {
    Heap(h.objs[h.next := o], h.names[name := h.next], h.next + 1, h.classes)
  }

  lemma TidyAfter(g: Graph, names: Names, h: Heap, name: Str, o: Obj)
    requires Tidy(g, names, h) && name !in h.names && Generated(name, |names|) && Below(o.members, h.next)
    ensures Tidy(g, names, Extended(h, name, o)) && Grown(names, h, names, Extended(h, name, o))
  {
    hide Generated, Below;
  }

  /** What was read refers to objects that exist already. */
  lemma {:induction false} ValueBelow(v: Val, r: Val, names: Names, h: Heap, lost: set<Id>)
    requires Same(v, r, names, h, lost) && forall s :: s in h.names ==> h.names[s] < h.next
    ensures forall x :: x in RefsOf(r) ==> x < h.next
    decreases v
  {
    match v
    case Vector(es) =>
      forall i | 0 <= i < |es| ensures forall x :: x in RefsOf(r.elems[i]) ==> x < h.next { ValueBelow(es[i], r.elems[i], names, h, lost); }
    case Map(es) =>
      forall i | 0 <= i < |es| ensures forall x :: x in RefsOf(r.entries[i].val) ==> x < h.next {
        ValueBelow(es[i].val, r.entries[i].val, names, h, lost);
      }
    case _ =>
  }

  lemma {:induction false} MembersBelow(ms: seq<Member>, rs: seq<Member>, names: Names, h: Heap, lost: set<Id>)
    requires SameMembers(ms, rs, names, h, lost) && forall s :: s in h.names ==> h.names[s] < h.next
    ensures Below(rs, h.next)
  {
    hide Same;
    if ms != [] {
      if ms[0].val.Callable? {
        MembersBelow(ms[1..], rs, names, h, lost);
      } else {
        ValueBelow(ms[0].val, rs[0].val, names, h, lost);
        MembersBelow(ms[1..], rs[1..], names, h, lost);
        forall i, x | 0 <= i < |rs| && x in RefsOf(rs[i].val) ensures x < h.next {
          if i > 0 { assert rs[i] == rs[1..][i - 1]; }
        }
      }
    }
  }

  lemma KnownBelow(g: Graph, names: Names, h: Heap)
    requires Tidy(g, names, h)
    ensures forall s :: s in h.names ==> h.names[s] < h.next
  {}

  /** While the members were read, the name of their object stayed unknown. */
  lemma NotTaken(g: Graph, part: set<Id>, lost: set<Id>, id: Id, names: Names, h: Heap, names': Names, h1: Heap)
    requires id !in names && Tidy(g, names, h) && |g| < LIMIT
    requires Onward(g, part, lost, names[id := Name(|names|)], h, names', h1)
    ensures Name(|names|) !in h1.names && Generated(Name(|names|), |names'|) && id in names' && names'[id] == Name(|names|)
    ensures |names| < |names'| && Grown(names, h, names', h1)
    ensures forall s :: s in h1.names && s !in h.names ==> !Generated(s, |names|)
  {
    hide Name, Generated, Known, Fresh;
    var named := names[id := Name(|names|)];
    assert named.Keys == names.Keys + {id};
    FreshName(names, h, g);
    MoreNames(named, h, names', h1);
    Later(Name(|names|), |names| + 1, |names'|);
    forall s | s in h1.names && s !in h.names ensures !Generated(s, |names|) {
      StillUnused(s, |names|, |named|);
    }
  }

  lemma Later(s: Str, m: nat, n: nat)
    requires Generated(s, m) && m <= n
    ensures Generated(s, n)
  {}

  /** What is known and rebuilt once object id is there. */
  lemma KnownAfter(g: Graph, part: set<Id>, lost: set<Id>, id: Id, names: Names, h: Heap, names': Names, h1: Heap, h': Heap)
    requires id in part && id !in names && id in names' && Known(lost, names, h) && Grown(names, h, names', h')
    requires Fresh(g, part, names[id := names'[id]], names', h1) && Grown(names', h1, names', h') && Rebuilt(g, id, names', h')
    ensures Known(lost, names', h') && Fresh(g, part, names, names', h')
  {
    hide SameMembers;
    forall j | j in names' && j !in names ensures j in part && Rebuilt(g, j, names', h') {
      if j != id {
        RebuiltGrows(g, j, names', h1, names', h');
      }
    }
  }

  lemma IsRebuilt(g: Graph, id: Id, names: Names, h: Heap, ms: seq<Member>, name: Str)
    requires id in g && id in names && names[id] == name && name !in h.names && SameMembers(g[id].members, ms, names, h, Ancestors(g, id))
    requires Grown(names, h, names, Extended(h, name, Obj(g[id].monitor, g[id].cls, ms)))
    ensures Rebuilt(g, id, names, Extended(h, name, Obj(g[id].monitor, g[id].cls, ms)))
  {
    SameMembersGrow(g[id].members, ms, names, h, names, Extended(h, name, Obj(g[id].monitor, g[id].cls, ms)), Ancestors(g, id));
  }

  /** The new object is registered under its name, and stands for the one that was written. */
  lemma Registered(g: Graph, part: set<Id>, lost: set<Id>, id: Id, names: Names, h: Heap, names': Names, h1: Heap, ms: seq<Member>)
    requires id in g && id in part && id !in names && Tidy(g, names, h) && Known(lost, names, h) && |g| < LIMIT
    requires Onward(g, part, Ancestors(g, id), names[id := Name(|names|)], h, names', h1)
    requires SameMembers(g[id].members, ms, names', h1, Ancestors(g, id)) && Unmarked(ms)
    ensures var h' := NewObject(h1, Name(|names|), Obj(g[id].monitor, g[id].cls, ms));
            Onward(g, part, lost, names, h, names', h') && Same(Ref(id), Ref(h1.next), names', h', lost)
  {
    hide SameMembers, Unmarked, Name, Generated, Rebuilt, Tidy, Grown, Fresh, Known, NewObject;
    var name := Name(|names|);
    var o := Obj(g[id].monitor, g[id].cls, ms);
    var h' := Extended(h1, name, o);
    NewObjectIs(h1, name, o);
    NotTaken(g, part, Ancestors(g, id), id, names, h, names', h1);
    KnownBelow(g, names', h1);
    MembersBelow(g[id].members, ms, names', h1, Ancestors(g, id));
    TidyAfter(g, names', h1, name, o);
    IsRebuilt(g, id, names', h1, ms, name);
    GrownGrown(names, h, names', h1, names', h');
    KnownAfter(g, part, lost, id, names, h, names', h1, h');
    forall s | s in h'.names && s !in h.names ensures !Generated(s, |names|) {
      if s == name { Unused(|names|); }
    }
  }

  lemma Unused(n: nat)
    ensures !Generated(Name(n), n)
  {
    if Generated(Name(n), n) { GeneratedMore(Name(n), n); }
  }

  lemma IsObject(g: Graph, part: set<Id>, lost: set<Id>, id: Id)
    requires Fit(g, part, lost, Ref(id))
    ensures id in g && id in part && lost <= Ancestors(g, id)
  {}

  lemma {:induction false} ObjectBack(g: Graph, part: set<Id>, lost: set<Id>, id: Id, names: Names, h: Heap, suffix: Str) returns (r: Val, h': Heap)
    requires GraphOk(g, part, h.classes) && Fit(g, part, lost, Ref(id)) && id !in names && Tidy(g, names, h) && Known(lost, names, h)
    ensures var w := Write(g, Ref(id), names);
            && Read(w.bytes + suffix, h) == Some(ReadVal(r, suffix, h'))
            && Same(Ref(id), r, w.names, h', lost) && Onward(g, part, lost, names, h, w.names, h')
    decreases |g.Keys - names.Keys|, Ref(id), 0
  {
    hide GraphOk, Tidy, Known, Write, Read, Onward, Grown, Same, SameMembers, WriteMembers, ReadMembers, NewObject, MembersOk, Unmarked, Name, Fit, Generated, Fresh, Rebuilt;
    IsObject(g, part, lost, id);
    Named(g, part, lost, names, h, id);
    var ms, h1 := MembersBack(g, part, Ancestors(g, id), g[id].members, names[id := Name(|names|)], h, suffix, []);
    r, h' := Ref(h1.next), NewObject(h1, Name(|names|), Obj(g[id].monitor, g[id].cls, ms));
    ObjectDone(g, part, lost, id, names, h, suffix, ms, h1);
  }

  /** All members have come back, so the object does. */
  lemma ObjectDone(g: Graph, part: set<Id>, lost: set<Id>, id: Id, names: Names, h: Heap, suffix: Str, ms: seq<Member>, h1: Heap)
    requires GraphOk(g, part, h.classes) && id in g && id in part && lost <= Ancestors(g, id) && id !in names && Tidy(g, names, h) && Known(lost, names, h)
    requires var w := WriteMembers(g, g[id].members, names[id := Name(|names|)]);
             && ReadMembers(w.bytes + ([T_EOB] + suffix), h, []) == Some(([] + ms, suffix, h1))
             && SameMembers(g[id].members, ms, w.names, h1, Ancestors(g, id)) && Unmarked(ms)
             && Onward(g, part, Ancestors(g, id), names[id := Name(|names|)], h, w.names, h1)
    ensures var h' := NewObject(h1, Name(|names|), Obj(g[id].monitor, g[id].cls, ms));
            var w := Write(g, Ref(id), names);
            && Read(w.bytes + suffix, h) == Some(ReadVal(Ref(h1.next), suffix, h'))
            && Same(Ref(id), Ref(h1.next), w.names, h', lost) && Onward(g, part, lost, names, h, w.names, h')
  {
    hide GraphOk, Tidy, Known, Write, Read, Onward, Grown, Same, SameMembers, WriteMembers, ReadMembers, NewObject, MembersOk, Unmarked, Name;
    Named(g, part, lost, names, h, id);
    var w := WriteMembers(g, g[id].members, names[id := Name(|names|)]);
    assert [] + ms == ms;
    OnwardParts(g, part, Ancestors(g, id), names[id := Name(|names|)], h, w.names, h1);
    ObjectRead(g, id, names, h, suffix, ms, h1);
    Registered(g, part, lost, id, names, h, w.names, h1, ms);
  }

  // ----- the whole -----

  /** An empty reader that knows the given classes. */
  function NoObjects(classes: set<Str>): Heap {
    Heap(map[], map[], 0, classes)
  }

  /** Serializing a value and deserializing the bytes, with anything behind them, gives the value back
      and leaves exactly what was behind: every object that was reached is rebuilt with its class and
      members, and a shared object is rebuilt once.  Only a reference to an object that leads back to
      the one that holds it may have become null. */
  lemma SerializedBack(g: Graph, part: set<Id>, v: Val, classes: set<Str>, suffix: Str) returns (r: Val, h: Heap)
    requires GraphOk(g, part, classes) && Fit(g, part, {}, v)
    ensures var w := Write(g, v, map[]);
            && Read(w.bytes + suffix, NoObjects(classes)) == Some(ReadVal(r, suffix, h))
            && Same(v, r, w.names, h, {}) && (forall id :: id in w.names ==> Rebuilt(g, id, w.names, h))
            && (forall i, j :: i in w.names && j in w.names && i != j ==> h.names[w.names[i]] != h.names[w.names[j]])
    ensures Tidy(g, Write(g, v, map[]).names, h)
  {
    hide Write, Read, Same, GraphOk, Fit, Below;
    r, h := Back(g, part, {}, v, map[], NoObjects(classes), suffix);
    var names := Write(g, v, map[]).names;
    forall id | id in names ensures Rebuilt(g, id, names, h) {}
  }

  // ----- when nothing is lost -----

  /** A path from an object of v. */
  ghost predicate Reaches(g: Graph, v: Val, p: seq<Id>) {
    |p| > 0 && p[0] in RefsOf(v) && Path(g, p)
  }

  /** A path from v comes to an object again. */
  ghost predicate Returns(g: Graph, v: Val, p: seq<Id>, i: nat) {
    Reaches(g, v, p) && i < |p| - 1 && p[i] == p[|p| - 1]
  }

  /** The part of the graph that v reaches has a cycle. */
  ghost predicate Cyclic(g: Graph, v: Val) {
    exists p: seq<Id>, i: nat :: Returns(g, v, p, i)
  }

  /** Object id has been rebuilt with all its references. */
  ghost predicate Restored(g: Graph, id: Id, names: Names, h: Heap) {
    Rebuilt(g, id, names, h) && SameMembers(g[id].members, h.objs[h.names[names[id]]].members, names, h, {})
  }

  /** The value and every object it reaches come back. */
  ghost predicate ComesBack(g: Graph, v: Val, classes: set<Str>, suffix: Str) {
    var w := Write(g, v, map[]);
    var x := Read(w.bytes + suffix, NoObjects(classes));
    && x.Some? && x.value.rest == suffix && Same(v, x.value.val, w.names, x.value.heap, {})
    && forall id :: id in w.names ==> Restored(g, id, w.names, x.value.heap)
  }

  /** A supported value comes back whole if and only if the part of the graph that it reaches has no
      cycle. */
  lemma RoundTripExactly(g: Graph, part: set<Id>, v: Val, classes: set<Str>, suffix: Str)
    requires GraphOk(g, part, classes) && Fit(g, part, {}, v)
    ensures ComesBack(g, v, classes, suffix) <==> !Cyclic(g, v)
  {
    hide Write, Read, Same, GraphOk, Fit, SameMembers, Rebuilt, Tidy, Reaches;
    var r, h := SerializedBack(g, part, v, classes, suffix);
    var names := Write(g, v, map[]).names;
    if Cyclic(g, v) {
      var p: seq<Id>, i: nat :| Returns(g, v, p, i);
      if ComesBack(g, v, classes, suffix) {
        NoReturn(g, v, r, names, h, p, i);
        assert false;
      }
    } else {
      forall id | id in names ensures Restored(g, id, names, h) {
        var p := WrittenReached(g, part, classes, v, map[], id);
        NothingLost(g, v, id, p, names, h);
      }
    }
  }

  // ----- no cycle: nothing is lost -----

  /** How many objects have no name yet. */
  function Left(g: Graph, names: Names): nat {
    |g.Keys - names.Keys|
  }

  /** The part of v that is being written when the object gets its name. */
  lemma InVector(g: Graph, part: set<Id>, es: seq<Val>, names: Names, id: Id) returns (i: nat, names': Names)
    requires Fit(g, part, {}, Vector(es)) && id in Write(g, Vector(es), names).names && id !in names
    ensures i < |es| && Fit(g, part, {}, es[i]) && id in Write(g, es[i], names').names && id !in names'
    ensures Left(g, names') <= Left(g, names)
  {
    hide Write, Fit;
    WriteVector(g, es, names);
    i, names' := ElementNaming(g, es, names, id);
    Less(g, names, names');
    VectorParts(g, part, es, i);
  }

  lemma InMap(g: Graph, part: set<Id>, es: seq<Entry>, names: Names, id: Id) returns (i: nat, names': Names)
    requires Fit(g, part, {}, Map(es)) && id in Write(g, Map(es), names).names && id !in names
    ensures i < |es| && Fit(g, part, {}, es[i].val) && id in Write(g, es[i].val, names').names && id !in names'
    ensures Left(g, names') <= Left(g, names)
  {
    hide Write, Fit, KeyOk;
    WriteMap(g, es, names);
    MapParts(g, part, es);
    i, names' := EntryNaming(g, es, names, id);
    Less(g, names, names');
  }

  lemma InObject(g: Graph, part: set<Id>, classes: set<Str>, x: Id, names: Names, id: Id) returns (i: nat, names': Names)
    requires GraphOk(g, part, classes) && Fit(g, part, {}, Ref(x)) && id in Write(g, Ref(x), names).names && id !in names && x != id
    ensures x in g && i < |g[x].members| && Fit(g, part, {}, g[x].members[i].val) && id in Write(g, g[x].members[i].val, names').names && id !in names'
    ensures Left(g, names') < Left(g, names)
  {
    hide Write, Fit, Name, GraphOk;
    IsObject(g, part, {}, x);
    ObjectNames(g, x, names);
    var named := names[x := Name(|names|)];
    assert named.Keys == names.Keys + {x};
    Fewer(g.Keys - named.Keys, g.Keys - names.Keys);
    i, names' := MemberNaming(g, g[x].members, named, id);
    Less(g, named, names');
    PartOk(g, part, classes, x, i);
  }

  /** What is written is what v reaches. */
  lemma {:induction false} WrittenReached(g: Graph, part: set<Id>, classes: set<Str>, v: Val, names: Names, id: Id) returns (p: seq<Id>)
    requires GraphOk(g, part, classes) && Fit(g, part, {}, v)
    requires id in Write(g, v, names).names && id !in names
    ensures Reaches(g, v, p) && p[|p| - 1] == id
    decreases Left(g, names), v
  {
    hide Path, Edge, Ancestors, GraphOk, Write, RefsOf, Reaches, Fit, Left;
    match v
    case Vector(es) =>
      var i, names' := InVector(g, part, es, names, id);
      p := WrittenReached(g, part, classes, es[i], names', id);
      Within(g, v, es[i], p);
    case Map(es) =>
      var i, names' := InMap(g, part, es, names, id);
      assert es decreases to es[i];
      p := WrittenReached(g, part, classes, es[i].val, names', id);
      Within(g, v, es[i].val, p);
    case Ref(x) =>
      if x == id {
        p := OneStep(g, id);
      } else {
        var i, names' := InObject(g, part, classes, x, names, id);
        p := WrittenReached(g, part, classes, g[x].members[i].val, names', id);
        p := ThroughMember(g, x, i, p);
      }
    case _ => PlainNames(g, v, names);
  }

  lemma ObjectNames(g: Graph, x: Id, names: Names)
    requires x in g
    ensures Write(g, Ref(x), names).names == if x in names then names else WriteMembers(g, g[x].members, names[x := Name(|names|)]).names
  {
    hide WriteString, Name;
  }

  lemma PlainNames(g: Graph, v: Val, names: Names)
    requires !v.Vector? && !v.Map? && !v.Ref?
    ensures Write(g, v, names).names == names
  {}

  lemma PartOk(g: Graph, part: set<Id>, classes: set<Str>, id: Id, i: nat)
    requires GraphOk(g, part, classes) && id in part && i < |g[id].members| && !g[id].members[i].val.Callable?
    ensures Fit(g, part, {}, g[id].members[i].val)
  {
    hide Fit, Contains;
    assert MemberOk(g, part, {}, g[id].members[i]);
  }

  lemma VectorParts(g: Graph, part: set<Id>, es: seq<Val>, i: nat)
    requires Fit(g, part, {}, Vector(es)) && i < |es|
    ensures Fit(g, part, {}, es[i])
  {}

  lemma MapParts(g: Graph, part: set<Id>, es: seq<Entry>)
    requires Fit(g, part, {}, Map(es))
    ensures forall i :: 0 <= i < |es| ==> KeyOk(es[i].key) && Fit(g, part, {}, es[i].val)
  {}

  /** What an element reaches the whole reaches. */
  lemma Within(g: Graph, v: Val, e: Val, p: seq<Id>)
    requires Reaches(g, e, p)
    requires (v.Vector? && e in v.elems) || (v.Map? && exists i :: 0 <= i < |v.entries| && v.entries[i].val == e)
    ensures Reaches(g, v, p)
  {
    hide Path;
    if v.Vector? {
      var i :| 0 <= i < |v.elems| && v.elems[i] == e;
      assert p[0] in RefsOf(v.elems[i]);
    } else {
      var i :| 0 <= i < |v.entries| && v.entries[i].val == e;
      assert p[0] in RefsOf(v.entries[i].val);
    }
  }

  /** What a member of an object reaches the object reaches. */
  lemma ThroughMember(g: Graph, x: Id, i: nat, p: seq<Id>) returns (q: seq<Id>)
    requires x in g && i < |g[x].members| && Reaches(g, g[x].members[i].val, p)
    ensures Reaches(g, Ref(x), q) && p != [] && q[|q| - 1] == p[|p| - 1]
  {
    hide Path, Edge;
    EdgeIs(g, x, i, p[0]);
    q := StepFirst(g, x, p);
  }

  lemma OneStep(g: Graph, id: Id) returns (p: seq<Id>)
    ensures Reaches(g, Ref(id), p) && p[|p| - 1] == id
  {
    p := [id];
  }

  lemma StepFirst(g: Graph, x: Id, p: seq<Id>) returns (q: seq<Id>)
    requires |p| > 0 && Path(g, p) && Edge(g, x, p[0])
    ensures |q| == |p| + 1 && q[0] == x && q[|q| - 1] == p[|p| - 1] && Path(g, q)
  {
    hide Edge;
    q := [x] + p;
    forall i | 0 <= i < |q| - 1 ensures Edge(g, q[i], q[i + 1]) {
      if i > 0 { assert Edge(g, p[i - 1], p[i]); }
    }
  }

  lemma ElementNames(g: Graph, es: seq<Val>, names: Names)
    ensures WriteAll(g, es, names).names == if es == [] then names else WriteAll(g, es[1..], Write(g, es[0], names).names).names
  {
    hide Write;
  }

  lemma EntryNames(g: Graph, es: seq<Entry>, names: Names)
    requires es != [] ==> KeyOk(es[0].key)
    ensures WriteEntries(g, es, names).names == if es == [] then names else WriteEntries(g, es[1..], Write(g, es[0].val, names).names).names
  {
    hide Write;
    if es != [] {
      KeyIsPlain(es[0].key);
      PlainNames(g, es[0].key, names);
    }
  }

  lemma Less(g: Graph, names: Names, names': Names)
    requires names.Keys <= names'.Keys
    ensures |g.Keys - names'.Keys| <= |g.Keys - names.Keys|
  {
    NoMore(g.Keys - names'.Keys, g.Keys - names.Keys);
  }

  /** The element that is written when the object gets its name. */
  lemma {:induction false} ElementNaming(g: Graph, es: seq<Val>, names: Names, id: Id) returns (i: nat, names': Names)
    requires id in WriteAll(g, es, names).names && id !in names
    ensures i < |es| && id in Write(g, es[i], names').names && id !in names' && names.Keys <= names'.Keys
    decreases |es|
  {
    hide Write, WriteAll;
    ElementNames(g, es, names);
    var w := Write(g, es[0], names);
    if id in w.names {
      i, names' := 0, names;
    } else {
      i, names' := ElementNaming(g, es[1..], w.names, id);
      i := i + 1;
    }
  }

  lemma {:induction false} EntryNaming(g: Graph, es: seq<Entry>, names: Names, id: Id) returns (i: nat, names': Names)
    requires id in WriteEntries(g, es, names).names && id !in names && forall i :: 0 <= i < |es| ==> KeyOk(es[i].key)
    ensures i < |es| && id in Write(g, es[i].val, names').names && id !in names' && names.Keys <= names'.Keys
    decreases |es|
  {
    hide Write, WriteEntries, KeyOk;
    EntryNames(g, es, names);
    var w := Write(g, es[0].val, names);
    if id in w.names {
      i, names' := 0, names;
    } else {
      i, names' := EntryNaming(g, es[1..], w.names, id);
      i := i + 1;
    }
  }

  lemma {:induction false} MemberNaming(g: Graph, ms: seq<Member>, names: Names, id: Id) returns (i: nat, names': Names)
    requires id in WriteMembers(g, ms, names).names && id !in names
    ensures i < |ms| && !ms[i].val.Callable? && id in Write(g, ms[i].val, names').names && id !in names' && names.Keys <= names'.Keys
    decreases |ms|
  {
    hide Write, WriteMembers;
    MemberNames(g, ms, names);
    var w := if ms[0].val.Callable? then names else Write(g, ms[0].val, names).names;
    if id in w {
      i, names' := 0, names;
    } else {
      i, names' := MemberNaming(g, ms[1..], w, id);
      i := i + 1;
    }
  }

  lemma KeyIsPlain(k: Val)
    requires KeyOk(k)
    ensures !k.Vector? && !k.Map? && !k.Ref?
  {}

  lemma MemberNames(g: Graph, ms: seq<Member>, names: Names)
    ensures WriteMembers(g, ms, names).names ==
            if ms == [] then names
            else WriteMembers(g, ms[1..], if ms[0].val.Callable? then names else Write(g, ms[0].val, names).names).names
  {
    hide Write, WriteString;
  }

  /** A member that could be lost would close a cycle. */
  lemma NothingLost(g: Graph, v: Val, id: Id, p: seq<Id>, names: Names, h: Heap)
    requires Rebuilt(g, id, names, h) && !Cyclic(g, v) && Reaches(g, v, p) && p[|p| - 1] == id
    ensures Restored(g, id, names, h)
  {
    hide Path, Edge, Same, Ancestors, Reaches, SameMembers;
    var ms := g[id].members;
    forall i, x | 0 <= i < |ms| && x in RefsOf(ms[i].val) ensures x !in Ancestors(g, id) {
      if x in Ancestors(g, id) {
        var q := PathBack(g, x, id);
        assert Edge(g, id, x) by { EdgeIs(g, id, i, x); }
        Closes(g, v, p, q);
      }
    }
    MembersExact(ms, h.objs[h.names[names[id]]].members, names, h, Ancestors(g, id));
  }
  lemma PathBack(g: Graph, a: Id, b: Id) returns (q: seq<Id>)
    requires a in Ancestors(g, b)
    ensures |q| > 0 && q[0] == a && q[|q| - 1] == b && Path(g, q)
  {
    hide Path;
    q :| |q| > 0 && q[0] == a && q[|q| - 1] == b && Path(g, q);
  }

  lemma EdgeIs(g: Graph, a: Id, i: nat, b: Id)
    requires a in g && i < |g[a].members| && b in RefsOf(g[a].members[i].val)
    ensures Edge(g, a, b)
  {}

  lemma Closes(g: Graph, v: Val, p: seq<Id>, q: seq<Id>)
    requires Reaches(g, v, p) && |q| > 0 && Path(g, q) && Edge(g, p[|p| - 1], q[0]) && q[|q| - 1] == p[|p| - 1]
    ensures Cyclic(g, v)
  {
    hide Edge;
    var c := p + q;
    forall i | 0 <= i < |c| - 1 ensures Edge(g, c[i], c[i + 1]) {
      if i < |p| - 1 { assert Edge(g, p[i], p[i + 1]); } else if i >= |p| { assert Edge(g, q[i - |p|], q[i + 1 - |p|]); }
    }
    assert Returns(g, v, c, |p| - 1);
  }

  lemma {:induction false} Exact(v: Val, r: Val, names: Names, h: Heap, lost: set<Id>)
    requires Same(v, r, names, h, lost) && forall x :: x in RefsOf(v) ==> x !in lost
    ensures Same(v, r, names, h, {})
    decreases v
  {
    match v
    case Vector(es) =>
      forall i | 0 <= i < |es| ensures Same(es[i], r.elems[i], names, h, {}) { Exact(es[i], r.elems[i], names, h, lost); }
    case Map(es) =>
      forall i | 0 <= i < |es| ensures Same(es[i].val, r.entries[i].val, names, h, {}) { Exact(es[i].val, r.entries[i].val, names, h, lost); }
    case _ =>
  }

  lemma {:induction false} MembersExact(ms: seq<Member>, rs: seq<Member>, names: Names, h: Heap, lost: set<Id>)
    requires SameMembers(ms, rs, names, h, lost) && forall i, x :: 0 <= i < |ms| && x in RefsOf(ms[i].val) ==> x !in lost
    ensures SameMembers(ms, rs, names, h, {})
  {
    hide Same;
    if ms != [] {
      forall i, x | 0 <= i < |ms[1..]| && x in RefsOf(ms[1..][i].val) ensures x !in lost {
        assert ms[1..][i] == ms[i + 1];
      }
      if ms[0].val.Callable? {
        MembersExact(ms[1..], rs, names, h, lost);
      } else {
        Exact(ms[0].val, rs[0].val, names, h, lost);
        MembersExact(ms[1..], rs[1..], names, h, lost);
      }
    }
  }

  // ----- a cycle: something is lost -----

  lemma {:induction false} Carried(v: Val, r: Val, names: Names, h: Heap, x: Id)
    requires Same(v, r, names, h, {}) && x in RefsOf(v)
    ensures x in names && names[x] in h.names && h.names[names[x]] in RefsOf(r)
    decreases v
  {
    match v
    case Vector(es) =>
      var i :| 0 <= i < |es| && x in RefsOf(es[i]);
      Carried(es[i], r.elems[i], names, h, x);
    case Map(es) =>
      var i :| 0 <= i < |es| && x in RefsOf(es[i].val);
      Carried(es[i].val, r.entries[i].val, names, h, x);
    case _ =>
  }

  lemma {:induction false} MemberCarried(ms: seq<Member>, rs: seq<Member>, names: Names, h: Heap, i: nat, x: Id) returns (j: nat)
    requires SameMembers(ms, rs, names, h, {}) && i < |ms| && x in RefsOf(ms[i].val)
    ensures x in names && names[x] in h.names && j < |rs| && h.names[names[x]] in RefsOf(rs[j].val)
  {
    hide Same;
    if i == 0 {
      Carried(ms[0].val, rs[0].val, names, h, x);
      j := 0;
    } else if ms[0].val.Callable? {
      j := MemberCarried(ms[1..], rs, names, h, i - 1, x);
    } else {
      j := MemberCarried(ms[1..], rs[1..], names, h, i - 1, x);
      j := j + 1;
    }
  }

  /** A restored object refers to objects that were built before it. */
  lemma BuiltBefore(g: Graph, names: Names, h: Heap, a: Id, b: Id)
    requires Restored(g, a, names, h) && Tidy(g, names, h) && Edge(g, a, b)
    ensures b in names && names[b] in h.names && h.names[names[b]] < h.names[names[a]]
  {
    hide SameMembers, Ancestors, Generated;
    var i :| 0 <= i < |g[a].members| && b in RefsOf(g[a].members[i].val);
    var o := h.names[names[a]];
    var j := MemberCarried(g[a].members, h.objs[o].members, names, h, i, b);
    assert Below(h.objs[o].members, o);
  }

  /** The number under which an object was built. */
  predicate Numbering(names: Names, h: Heap, a: Id, b: Id, strictly: bool) {
    && a in names && names[a] in h.names && b in names && names[b] in h.names
    && h.names[names[b]] <= h.names[names[a]] && (strictly ==> h.names[names[b]] < h.names[names[a]])
  }

  lemma {:induction false} Descends(g: Graph, v: Val, r: Val, names: Names, h: Heap, p: seq<Id>, i: nat, k: nat)
    requires Same(v, r, names, h, {}) && Tidy(g, names, h) && (forall id :: id in names ==> Restored(g, id, names, h))
    requires Reaches(g, v, p) && i <= k < |p|
    ensures Numbering(names, h, p[i], p[k], i < k)
    decreases k
  {
    hide Same, Tidy, Restored, Edge;
    if k == 0 {
      Carried(v, r, names, h, p[0]);
    } else {
      assert Edge(g, p[k - 1], p[k]);
      Descends(g, v, r, names, h, p, if i < k then i else k - 1, k - 1);
      assert Restored(g, p[k - 1], names, h);
      BuiltBefore(g, names, h, p[k - 1], p[k]);
    }
  }

  lemma NoReturn(g: Graph, v: Val, r: Val, names: Names, h: Heap, p: seq<Id>, i: nat)
    requires Same(v, r, names, h, {}) && Tidy(g, names, h) && (forall id :: id in names ==> Restored(g, id, names, h))
    requires Reaches(g, v, p) && i < |p| - 1
    ensures p[i] != p[|p| - 1]
  {
    hide Same, Tidy, Restored, Reaches;
    Descends(g, v, r, names, h, p, i, |p| - 1);
  }

  // ----- a back-reference -----

  lemma FirstName()
    ensures |Name(0)| < LIMIT
  {
    NumberOfDigits(0);
  }

  /** A reference back to an object that is still being read finds nothing: an object with a member
      that refers to the object itself comes back with null there. */
  lemma BackReferenceLost(g: Graph, id: Id, member: Str, classes: set<Str>, suffix: Str)
    requires id in g && g[id].members == [Member(member, Ref(id))] && |member| < LIMIT && |g[id].cls| < LIMIT && g[id].cls in classes
    ensures var r := Read(Write(g, Ref(id), map[]).bytes + suffix, NoObjects(classes));
            r.Some? && r.value.val == Ref(0) && r.value.heap.objs == map[0 := g[id].(members := [Member(member, Null)])]
  {
    hide ReadString, WriteString, Name, Contains;
    var h := NoObjects(classes);
    var names: Names := map[id := Name(0)];
    assert map[][id := Name(0)] == names;
    var rest := [T_EOB] + suffix;
    FirstName();
    DanglingReference(g, id, names, h, rest);
    hide Read, Write;
    assert g[id].members[1..] == [] && [] + [Member(member, Null)] == [Member(member, Null)];
    MembersEnd(g, names, h, suffix, [Member(member, Null)]);
    MemberBack(g, g[id].members, names, h, rest, [], Null, h);
    ObjectRead(g, id, map[], h, suffix, [Member(member, Null)], h);
    NewObjectIs(h, Name(0), Obj(g[id].monitor, g[id].cls, [Member(member, Null)]));
  }

  lemma MembersEnd(g: Graph, names: Names, h: Heap, suffix: Str, acc: seq<Member>)
    ensures WriteMembers(g, [], names) == Written([], names) && ReadMembers([] + ([T_EOB] + suffix), h, acc) == Some((acc, suffix, h))
  {
    NoMembers(g, names, h, suffix, acc, {});
    assert acc + [] == acc;
  }

  lemma DanglingReference(g: Graph, id: Id, names: Names, h: Heap, suffix: Str)
    requires id in names && |names[id]| < LIMIT && names[id] !in h.names
    ensures Write(g, Ref(id), names).names == names
    ensures Read(Write(g, Ref(id), names).bytes + ([] + suffix), h) == Some(ReadVal(Null, [] + suffix, h))
  {
    hide Encode, Decode, ReadInt, ReadString, WriteString;
    var s := Write(g, Ref(id), names).bytes + ([] + suffix);
    assert s[1..] == WriteString(names[id]) + ([] + suffix);
    StringBack(names[id], [] + suffix);
  }
}

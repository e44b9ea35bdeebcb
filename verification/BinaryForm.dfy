/** The binary form of values and object graphs.  Objects are numbered; a graph maps numbers to
    objects. */
module BinaryForm {
  import opened Values
  import opened Leb128

  type Str = seq<Byte>

  type Id = nat

  /** Null is the null object; Callable stands for functions, classes, packages, threads and enums. */
  datatype Val =
    | Int(n: int)
    | Boolean(b: bool)
    | Character(n: int)
    | Octet(n: int)
    | Real(bits: int)
    | Text(s: Str)
    | Vector(elems: seq<Val>)
    | Bytes(bytes: Str)
    | Map(entries: seq<Entry>)
    | Ref(id: Id)
    | Null
    | Empty
    | Callable

  datatype Entry = Entry(key: Val, val: Val)

  datatype Member = Member(name: Str, val: Val)

  /** An object: its class by name, and the variables that are neither tags nor static, in order. */
  datatype Obj = Obj(monitor: bool, cls: Str, members: seq<Member>)

  type Graph = map<Id, Obj>

  /** SerialInfo: the names given to the objects written so far. */
  type Names = map<Id, Str>

  const T_INTEGER: Byte := 0x40
  const T_CHAR: Byte := 0x41
  const T_BYTE: Byte := 0x42
  const T_STRING: Byte := 0x43
  const T_REAL: Byte := 0x44
  const T_VECTOR: Byte := 0x45
  const T_BYTEVECTOR: Byte := 0x46
  const T_MAP: Byte := 0x47
  const T_OBJECT: Byte := 0x48
  const T_MONITOR: Byte := 0x49
  const T_REF: Byte := 0x4a
  const T_EOB: Byte := 0x4b
  const T_MEMBER: Byte := 0x4c
  const T_BOOL: Byte := 0x4d

  // ----- object names -----

  function Digits(k: nat): Str {
    if k < 10 then [48 + k] else Digits(k / 10) + [48 + k % 10]
  }

  /** The characters "object-" and the number of objects named before. */
  function Name(k: nat): Str {
    [111, 98, 106, 101, 99, 116, 45] + Digits(k)
  }

  function Number(s: Str): int {
    if s == [] then 0 else 10 * Number(s[..|s| - 1]) + s[|s| - 1] - 48
  }

  lemma {:induction false} NumberOfDigits(k: nat)
    ensures Number(Digits(k)) == k && 1 <= |Digits(k)| <= k / 10 + 1
    decreases k
  {
    if k >= 10 {
      NumberOfDigits(k / 10);
      assert Digits(k)[..|Digits(k)| - 1] == Digits(k / 10);
    }
  }

  /** Generated names never collide. */
  lemma NamesDiffer(j: nat, k: nat)
    requires j != k
    ensures Name(j) != Name(k)
  {
    NumberOfDigits(j);
    NumberOfDigits(k);
    assert Name(j)[7..] == Digits(j) && Name(k)[7..] == Digits(k);
  }

  // ----- writing -----

  function WriteString(s: Str): Str {
    Encode(|s|) + s
  }

  function Tagged(t: Byte, v: int): Str {
    [t] + Encode(v)
  }

  datatype Written = Written(bytes: Str, names: Names)

  /** serialize: nothing is written for none, functions and the like, and a bare 0 for null. */
  function Write(g: Graph, v: Val, names: Names): (w: Written)
    ensures names.Keys <= w.names.Keys
    decreases |g.Keys - names.Keys|, v, 1
  {
    match v
    case Int(n) => Written(Tagged(T_INTEGER, n), names)
    case Boolean(b) => Written(Tagged(T_BOOL, if b then 1 else 0), names)
    case Character(n) => Written(Tagged(T_CHAR, n), names)
    case Octet(n) => Written(Tagged(T_BYTE, n), names)
    case Real(bits) => Written(Tagged(T_REAL, bits), names)
    case Text(s) => Written([T_STRING] + WriteString(s), names)
    case Vector(es) =>
      var w := WriteAll(g, es, names);
      Written(Tagged(T_VECTOR, |es|) + w.bytes, w.names)
    case Bytes(b) => Written(Tagged(T_BYTEVECTOR, |b|) + b, names)
    case Map(es) =>
      var w := WriteEntries(g, es, names);
      Written(Tagged(T_MAP, |es|) + w.bytes, w.names)
    case Ref(id) =>
      if id in names then Written([T_REF] + WriteString(names[id]), names)
      else if id !in g then Written([], names)
      else
        var named := names[id := Name(|names|)];
        assert g.Keys - named.Keys < g.Keys - names.Keys by { assert id in g.Keys - names.Keys; }
        Fewer(g.Keys - named.Keys, g.Keys - names.Keys);
        var w := WriteMembers(g, g[id].members, named);
        Written([if g[id].monitor then T_MONITOR else T_OBJECT] + WriteString(Name(|names|)) + WriteString(g[id].cls) + w.bytes + [T_EOB], w.names)
    case Null => Written(Encode(0), names)
    case Empty => Written([], names)
    case Callable => Written([], names)
  }

  function WriteAll(g: Graph, es: seq<Val>, names: Names): (w: Written)
    ensures names.Keys <= w.names.Keys
    decreases |g.Keys - names.Keys|, es, 0
  {
    if es == [] then Written([], names)
    else
      var w := Write(g, es[0], names);
      NoMore(g.Keys - w.names.Keys, g.Keys - names.Keys);
      var w' := WriteAll(g, es[1..], w.names);
      Written(w.bytes + w'.bytes, w'.names)
  }

  function WriteEntries(g: Graph, es: seq<Entry>, names: Names): (w: Written)
    ensures names.Keys <= w.names.Keys
    decreases |g.Keys - names.Keys|, es, 0
  {
    if es == [] then Written([], names)
    else
      assert es decreases to es[0];
      var k := Write(g, es[0].key, names);
      NoMore(g.Keys - k.names.Keys, g.Keys - names.Keys);
      var w := Write(g, es[0].val, k.names);
      NoMore(g.Keys - w.names.Keys, g.Keys - names.Keys);
      var w' := WriteEntries(g, es[1..], w.names);
      Written(k.bytes + w.bytes + w'.bytes, w'.names)
  }

  /** serializeBlock: members that hold something callable are left out. */
  function WriteMembers(g: Graph, ms: seq<Member>, names: Names): (w: Written)
    ensures names.Keys <= w.names.Keys
    decreases |g.Keys - names.Keys|, ms, 0
  {
    if ms == [] then Written([], names)
    else if ms[0].val.Callable? then WriteMembers(g, ms[1..], names)
    else
      assert ms decreases to ms[0];
      var w := Write(g, ms[0].val, names);
      NoMore(g.Keys - w.names.Keys, g.Keys - names.Keys);
      var w' := WriteMembers(g, ms[1..], w.names);
      Written([T_MEMBER] + WriteString(ms[0].name) + w.bytes + w'.bytes, w'.names)
  }

  lemma {:induction false} NoMore(s: set<Id>, t: set<Id>)
    requires s <= t
    ensures |s| <= |t|
    decreases |s|
  {
    if x :| x in s { NoMore(s - {x}, t - {x}); }
  }

  lemma Fewer(s: set<Id>, t: set<Id>)
    requires s < t
    ensures |s| < |t|
  {
    var x :| x in t && x !in s;
    NoMore(s, t - {x});
  }

  // ----- the bytes -----

  /** A generated name is the characters "object-" and the decimal digits of its number, without leading
      zeros. */
  lemma {:induction false} NameReads(k: nat)
    ensures |Name(k)| > 7 && (forall i :: 0 <= i < 7 ==> Name(k)[i] == "object-"[i] as int)
    ensures (forall i :: 7 <= i < |Name(k)| ==> '0' as int <= Name(k)[i] <= '9' as int) && Number(Name(k)[7..]) == k
    ensures Name(k)[7] == '0' as int ==> k == 0
  {
    NumberOfDigits(k);
    DigitsAre(k);
    assert Name(k)[7..] == Digits(k);
  }

  lemma {:induction false} DigitsAre(k: nat)
    ensures |Digits(k)| > 0 && (forall i :: 0 <= i < |Digits(k)| ==> 48 <= Digits(k)[i] <= 57) && (Digits(k)[0] == 48 ==> k == 0)
  {
    if k >= 10 { DigitsAre(k / 10); }
  }

  function One(b: Byte): Str {
    [b]
  }

  function Sized(s: Str): Str {
    Encode(|s|) + s
  }

  /** The byte each form begins with, and what follows. */
  lemma ScalarLayout(g: Graph, names: Names, n: int, b: bool, s: Str)
    ensures Write(g, Int(n), names).bytes == One(0x40) + Encode(n)
    ensures Write(g, Character(n), names).bytes == One(0x41) + Encode(n)
    ensures Write(g, Octet(n), names).bytes == One(0x42) + Encode(n)
    ensures Write(g, Text(s), names).bytes == One(0x43) + Sized(s)
    ensures Write(g, Real(n), names).bytes == One(0x44) + Encode(n)
    ensures Write(g, Boolean(b), names).bytes == One(0x4d) + Encode(if b then 1 else 0)
  {
    hide Encode;
  }

  lemma SequenceLayout(g: Graph, names: Names, s: Str, es: seq<Val>, ms: seq<Entry>)
    ensures Write(g, Bytes(s), names).bytes == One(0x46) + Sized(s)
    ensures Write(g, Vector(es), names).bytes == One(0x45) + Encode(|es|) + WriteAll(g, es, names).bytes
    ensures Write(g, Map(ms), names).bytes == One(0x47) + Encode(|ms|) + WriteEntries(g, ms, names).bytes
  {
    hide Encode, WriteAll, WriteEntries;
    assert One(0x46) + Encode(|s|) + s == One(0x46) + Sized(s);
  }

  /** An object: its kind, its name and that of its class, the members, the end of the block; when it is
      met again, its name. */
  lemma ObjectLayout(g: Graph, names: Names, id: Id, name: Str, v: Val)
    requires id in g && g[id].members == [Member(name, v)] && !v.Callable?
    ensures id !in names ==>
              var given := Name(|names|);
              var member: Str := One(0x4c) + Sized(name) + Write(g, v, names[id := given]).bytes;
              var head: Str := One(if g[id].monitor then 0x49 else 0x48) + Sized(given) + Sized(g[id].cls);
              Write(g, Ref(id), names).bytes == head + member + One(0x4b)
    ensures id in names ==> Write(g, Ref(id), names).bytes == One(0x4a) + Sized(names[id])
  {
    hide Encode, Name;
    if id !in names {
      var named := names[id := Name(|names|)];
      OneMember(g, Member(name, v), named);
    }
  }

  lemma OneMember(g: Graph, m: Member, names: Names)
    requires !m.val.Callable?
    ensures WriteMembers(g, [m], names).bytes == One(0x4c) + Sized(m.name) + Write(g, m.val, names).bytes
  {
    hide Encode, Write;
    var w := Write(g, m.val, names);
    assert [m][1..] == [];
    assert WriteMembers(g, [], w.names) == Written([], w.names);
  }

  // ----- reading -----

  /** The objects built so far, the names by which references find them, the classes that exist. */
  datatype Heap = Heap(objs: Graph, names: map<Str, Id>, next: Id, classes: set<Str>)

  /** deserialize_leb128, when the number ends and has at most ten bytes. */
  function ReadInt(s: Str): Option<(int, Str)> {
    match Decode(s)
    case None => None
    case Some((n, rest)) => if |s| - |rest| > 10 then None else Some((Wrap64(n), rest))
  }

  function ReadString(s: Str): Option<(Str, Str)> {
    match ReadInt(s)
    case None => None
    case Some((n, rest)) => if n < 0 || n > |rest| then None else Some((rest[..n], rest[n..]))
  }

  /** The characters "@aikidoobjectref@". */
  const MARK: Str := [64, 97, 105, 107, 105, 100, 111, 111, 98, 106, 101, 99, 116, 114, 101, 102, 64]

  predicate StandsAt(s: Str, i: int, t: Str) {
    0 <= i <= |s| - |t| && s[i..i + |t|] == t
  }

  predicate Contains(s: Str, t: Str) {
    exists i :: 0 <= i <= |s| && StandsAt(s, i, t)
  }

  /** deserialize_block assigns a member; a string with the mark is taken for a reference. */
  function Assigned(v: Val, h: Heap): Val {
    if v.Text? && Contains(v.s, MARK) then (if v.s[17..] in h.names then Ref(h.names[v.s[17..]]) else Null)
    else v
  }

  function Put(es: seq<Entry>, e: Entry): seq<Entry> {
    if es == [] then [e] else if es[0].key == e.key then [e] + es[1..] else [es[0]] + Put(es[1..], e)
  }

  function PutMember(ms: seq<Member>, m: Member): seq<Member> {
    if ms == [] then [m] else if ms[0].name == m.name then [m] + ms[1..] else [ms[0]] + PutMember(ms[1..], m)
  }

  function NewObject(h: Heap, name: Str, o: Obj): Heap {
    var named := h.(names := h.names[name := h.next]);
    var members := seq(|o.members|, i requires 0 <= i < |o.members| => Member(o.members[i].name, Assigned(o.members[i].val, named)));
    named.(objs := h.objs[h.next := o.(members := members)], next := h.next + 1)
  }

  lemma MarkReads()
    ensures |MARK| == |"@aikidoobjectref@"| == 17 && forall i :: 0 <= i < 17 ==> MARK[i] == "@aikidoobjectref@"[i] as int
  {}

  /** A member of a new object comes back as it was read if and only if it is not a text with the mark; a
      text that begins with the mark becomes the object it names, the new one included, or null. */
  lemma MemberAssigned(h: Heap, name: Str, o: Obj, i: nat, s: Str)
    requires i < |o.members|
    ensures var h' := NewObject(h, name, o);
            var m := h'.objs[h.next].members[i];
            && h'.objs.Keys == h.objs.Keys + {h.next} && |h'.objs[h.next].members| == |o.members| && m.name == o.members[i].name
            && (m.val == o.members[i].val <==> !(o.members[i].val.Text? && Contains(o.members[i].val.s, MARK)))
            && (o.members[i].val == Text(MARK + s) ==>
                m.val == if s == name then Ref(h.next) else if s in h.names then Ref(h.names[s]) else Null)
    ensures var h' := NewObject(h, name, o);
            && h'.next == h.next + 1 && h'.classes == h.classes && h'.names == h.names[name := h.next]
            && h'.objs[h.next].cls == o.cls && h'.objs[h.next].monitor == o.monitor
            && forall id :: id in h.objs && id != h.next ==> h'.objs[id] == h.objs[id]
  {
    hide Contains;
    MarkReads();
    if o.members[i].val == Text(MARK + s) {
      StartsWithMark(s);
      assert (MARK + s)[17..] == s;
    }
  }

  lemma StartsWithMark(s: Str)
    ensures Contains(MARK + s, MARK)
  {
    assert StandsAt(MARK + s, 0, MARK);
  }

  /** Of entries with one key the last is kept, in the place of the first; the others stay. */
  lemma {:induction false} PutKeeps(es: seq<Entry>, e: Entry)
    requires forall i, j :: 0 <= i < j < |es| ==> es[i].key != es[j].key
    ensures var r := Put(es, e);
            && e in r && (forall i, j :: 0 <= i < j < |r| ==> r[i].key != r[j].key)
            && (forall x :: x in r ==> x == e || x in es) && (forall x :: x in es && x.key != e.key ==> x in r)
  {
    if es != [] && es[0].key != e.key {
      PutKeeps(es[1..], e);
      var r := Put(es[1..], e);
      assert Put(es, e) == [es[0]] + r;
      forall x | x in r ensures x.key != es[0].key {
        if x in es[1..] { var i :| 0 <= i < |es[1..]| && es[1..][i] == x; assert es[i + 1] == x; }
      }
    }
  }

  lemma {:induction false} PutMemberKeeps(ms: seq<Member>, m: Member)
    requires forall i, j :: 0 <= i < j < |ms| ==> ms[i].name != ms[j].name
    ensures var r := PutMember(ms, m);
            && m in r && (forall i, j :: 0 <= i < j < |r| ==> r[i].name != r[j].name)
            && (forall x :: x in r ==> x == m || x in ms) && (forall x :: x in ms && x.name != m.name ==> x in r)
  {
    if ms != [] && ms[0].name != m.name {
      PutMemberKeeps(ms[1..], m);
      var r := PutMember(ms[1..], m);
      assert PutMember(ms, m) == [ms[0]] + r;
      forall x | x in r ensures x.name != ms[0].name {
        if x in ms[1..] { var i :| 0 <= i < |ms[1..]| && ms[1..][i] == x; assert ms[i + 1] == x; }
      }
    }
  }

  datatype ReadVal = ReadVal(val: Val, rest: Str, heap: Heap)

  /** deserialize_binary_value; None when the input ends early or holds a negative length. */
  function Read(s: Str, h: Heap): (r: Option<ReadVal>)
    ensures r.Some? ==> |r.value.rest| < |s|
    decreases |s|, 0, 0
  {
    if s == [] then None
    else if s[0] == T_STRING then
      match ReadString(s[1..])
      case None => None
      case Some((t, rest)) => ReadStringShrinks(s[1..]); Some(ReadVal(Text(t), rest, h))
    else if s[0] == T_REF then
      match ReadString(s[1..])
      case None => None
      case Some((name, rest)) => ReadStringShrinks(s[1..]); Some(ReadVal(if name in h.names then Ref(h.names[name]) else Null, rest, h))
    else if s[0] == T_OBJECT || s[0] == T_MONITOR then ReadObject(s[0] == T_MONITOR, s[1..], h)
    else if s[0] !in {T_INTEGER, T_BOOL, T_CHAR, T_BYTE, T_REAL, T_VECTOR, T_BYTEVECTOR, T_MAP} then Some(ReadVal(Empty, s[1..], h))
    else
      match ReadInt(s[1..])
      case None => None
      case Some((n, rest)) =>
        ReadIntShrinks(s[1..]);
        if s[0] == T_INTEGER then Some(ReadVal(Int(n), rest, h))
        else if s[0] == T_BOOL then Some(ReadVal(Boolean(n != 0), rest, h))
        else if s[0] == T_CHAR then Some(ReadVal(Character(Wrap8(n)), rest, h))
        else if s[0] == T_BYTE then Some(ReadVal(Octet(n % 256), rest, h))
        else if s[0] == T_REAL then Some(ReadVal(Real(n), rest, h))
        else if n < 0 then None
        else if s[0] == T_VECTOR then
          (match ReadAll(n, rest, h) case None => None case Some((vs, rest', h')) => Some(ReadVal(Vector(vs), rest', h')))
        else if s[0] == T_MAP then
          (match ReadEntries(n, rest, h, []) case None => None case Some((es, rest', h')) => Some(ReadVal(Map(es), rest', h')))
        else if n > |rest| then None
        else Some(ReadVal(Bytes(rest[..n]), rest[n..], h))
  }

  /** Members until a byte that is not T_MEMBER; only then is the object created and registered. */
  function ReadObject(monitor: bool, s: Str, h: Heap): (r: Option<ReadVal>)
    ensures r.Some? ==> |r.value.rest| < |s|
    decreases |s|, 2, 0
  {
    match ReadString(s)
    case None => None
    case Some((name, s1)) =>
      ReadStringShrinks(s);
      match ReadString(s1)
      case None => None
      case Some((cls, s2)) =>
        ReadStringShrinks(s1);
        match ReadMembers(s2, h, [])
        case None => None
        case Some((ms, rest, h')) =>
          if cls in h'.classes then Some(ReadVal(Ref(h'.next), rest, NewObject(h', name, Obj(monitor, cls, ms))))
          else Some(ReadVal(Empty, rest, h'))
  }

  function ReadAll(n: nat, s: Str, h: Heap): (r: Option<(seq<Val>, Str, Heap)>)
    ensures r.Some? ==> |r.value.1| <= |s|
    decreases |s|, 1, n
  {
    if n == 0 then Some(([], s, h))
    else match Read(s, h)
      case None => None
      case Some(v) =>
        match ReadAll(n - 1, v.rest, v.heap)
        case None => None
        case Some((vs, rest, h')) => Some(([v.val] + vs, rest, h'))
  }

  function ReadEntries(n: nat, s: Str, h: Heap, es: seq<Entry>): (r: Option<(seq<Entry>, Str, Heap)>)
    ensures r.Some? ==> |r.value.1| <= |s|
    decreases |s|, 1, n
  {
    if n == 0 then Some((es, s, h))
    else match Read(s, h)
      case None => None
      case Some(k) =>
        match Read(k.rest, k.heap)
        case None => None
        case Some(v) => ReadEntries(n - 1, v.rest, v.heap, Put(es, Entry(k.val, v.val)))
  }

  function ReadMembers(s: Str, h: Heap, ms: seq<Member>): (r: Option<(seq<Member>, Str, Heap)>)
    ensures r.Some? ==> |r.value.1| <= |s|
    decreases |s|, 1, 0
  {
    if s == [] then None
    else if s[0] != T_MEMBER then Some((ms, s[1..], h))
    else match ReadString(s[1..])
      case None => None
      case Some((name, rest)) =>
        ReadStringShrinks(s[1..]);
        match Read(rest, h)
        case None => None
        case Some(v) => ReadMembers(v.rest, v.heap, PutMember(ms, Member(name, v.val)))
  }

  lemma ReadIntShrinks(s: Str)
    ensures ReadInt(s).Some? ==> |ReadInt(s).value.1| < |s|
  {
    if ReadInt(s).Some? { DecodeConsumes(s); }
  }

  lemma ReadStringShrinks(s: Str)
    ensures ReadString(s).Some? ==> |ReadString(s).value.1| < |s|
  {
    ReadIntShrinks(s);
  }
}

/** The binary serializer and deserializer over streams: each writes, or reads, what BinaryForm says. */
module BinaryStreams {
  import opened Values
  import opened BinaryForm
  import Leb128

  /** How many objects of the graph have no name yet. */
  ghost function Unnamed(g: Graph, names: Names): nat {
    |g.Keys - names.Keys|
  }

  lemma UnnamedLess(g: Graph, names: Names, names': Names)
    requires names.Keys <= names'.Keys
    ensures Unnamed(g, names') <= Unnamed(g, names)
    ensures (exists id :: id in g && id in names' && id !in names) ==> Unnamed(g, names') < Unnamed(g, names)
  {
    NoMore(g.Keys - names'.Keys, g.Keys - names.Keys);
    if id :| id in g && id in names' && id !in names {
      assert id in g.Keys - names.Keys && id !in g.Keys - names'.Keys;
      Fewer(g.Keys - names'.Keys, g.Keys - names.Keys);
    }
  }

  class Serializer {
    const graph: Graph
    const output: Leb128.Output
    var info: Names

    constructor (graph: Graph, output: Leb128.Output)
      ensures this.graph == graph && this.output == output && info == map[]
    {
      this.graph, this.output, info := graph, output, map[];
    }

    /** What has been put out and noted since the old state. */
    twostate predicate Wrote(w: Written)
      reads this, output
    {
      output.bytes == old(output.bytes) + w.bytes && info == w.names
    }

    method PutAll(s: Str)
      modifies output
      ensures output.bytes == old(output.bytes) + s
    {
      var i := 0;
      while i < |s|
        invariant 0 <= i <= |s| && output.bytes == old(output.bytes) + s[..i]
      {
        output.Put(s[i]);
        i := i + 1;
      }
      assert s[..i] == s;
    }

    method PutString(s: Str)
      modifies output
      ensures output.bytes == old(output.bytes) + WriteString(s)
    {
      Leb128.Serialize(|s|, output);
      PutAll(s);
    }

    method PutTagged(t: Leb128.Byte, v: int)
      modifies output
      ensures output.bytes == old(output.bytes) + Tagged(t, v)
    {
      output.Put(t);
      Leb128.Serialize(v, output);
    }

    method Serialize(v: Val)
      modifies this, output
      ensures Wrote(Write(graph, v, old(info)))
      decreases Unnamed(graph, info), v, 2
    {
      hide WriteAll, WriteEntries, Tagged, WriteString, Unnamed;
      match v
      case Int(n) => PutTagged(T_INTEGER, n);
      case Boolean(b) => PutTagged(T_BOOL, if b then 1 else 0);
      case Character(n) => PutTagged(T_CHAR, n);
      case Octet(n) => PutTagged(T_BYTE, n);
      case Real(bits) => PutTagged(T_REAL, bits);
      case Text(s) =>
        output.Put(T_STRING);
        PutString(s);
      case Vector(es) =>
        PutTagged(T_VECTOR, |es|);
        SerializeVector(es);
      case Bytes(b) =>
        PutTagged(T_BYTEVECTOR, |b|);
        PutAll(b);
      case Map(es) =>
        PutTagged(T_MAP, |es|);
        SerializeMap(es);
      case Ref(id) => SerializeObject(id);
      case Null => Leb128.Serialize(0, output);
      case Empty =>
      case Callable =>
    }

    method SerializeVector(es: seq<Val>)
      modifies this, output
      ensures Wrote(WriteAll(graph, es, old(info)))
      decreases Unnamed(graph, info), es, 1
    {
      hide Write, WriteAll, Unnamed;
      ghost var w := WriteAll(graph, es, info);
      var i := 0;
      assert es[0..] == es;
      while i < |es|
        invariant 0 <= i <= |es| && old(info).Keys <= info.Keys
        invariant output.bytes + WriteAll(graph, es[i..], info).bytes == old(output.bytes) + w.bytes
        invariant WriteAll(graph, es[i..], info).names == w.names
      {
        UnnamedLess(graph, old(info), info);
        AllFrom(graph, es, i, info, output.bytes);
        Serialize(es[i]);
        i := i + 1;
      }
      AllFrom(graph, es, i, info, output.bytes);
    }

    method SerializeMap(es: seq<Entry>)
      modifies this, output
      ensures Wrote(WriteEntries(graph, es, old(info)))
      decreases Unnamed(graph, info), es, 1
    {
      hide Write, WriteEntries, Unnamed;
      ghost var w := WriteEntries(graph, es, info);
      var i := 0;
      assert es[0..] == es;
      while i < |es|
        invariant 0 <= i <= |es| && old(info).Keys <= info.Keys
        invariant output.bytes + WriteEntries(graph, es[i..], info).bytes == old(output.bytes) + w.bytes
        invariant WriteEntries(graph, es[i..], info).names == w.names
      {
        UnnamedLess(graph, old(info), info);
        EntriesFrom(graph, es, i, info, output.bytes);
        SerializeEntry(es[i]);
        i := i + 1;
      }
      EntriesFrom(graph, es, i, info, output.bytes);
    }

    method SerializeEntry(e: Entry)
      modifies this, output
      ensures Wrote(WriteEntry(graph, e, old(info)))
      decreases Unnamed(graph, info), e, 1
    {
      hide Write, Unnamed;
      Serialize(e.key);
      UnnamedLess(graph, old(info), info);
      Serialize(e.val);
    }

    /** An object: by name if it has been written, otherwise named, noted and written with its members. */
    method SerializeObject(id: Id)
      modifies this, output
      ensures Wrote(Write(graph, Ref(id), old(info)))
      decreases Unnamed(graph, info), Ref(id), 1
    {
      hide WriteString, Name, WriteMembers, Unnamed;
      if id in info {
        output.Put(T_REF);
        PutString(info[id]);
      } else if id in graph {
        ObjectBytes(graph, id, info);
        hide Write;
        ghost var before := info;
        var o := graph[id];
        var name := Name(|info|);
        ghost var head := ObjectHead(o, name);
        output.Put(if o.monitor then T_MONITOR else T_OBJECT);
        PutString(name);
        PutString(o.cls);
        assert output.bytes == old(output.bytes) + head;
        info := info[id := name];
        UnnamedLess(graph, before, info);
        SerializeBlock(o.members);
        output.Put(T_EOB);
      }
    }

    method SerializeBlock(ms: seq<Member>)
      modifies this, output
      ensures Wrote(WriteMembers(graph, ms, old(info)))
      decreases Unnamed(graph, info), ms, 1
    {
      hide Write, WriteMembers, Unnamed;
      ghost var w := WriteMembers(graph, ms, info);
      var i := 0;
      assert ms[0..] == ms;
      while i < |ms|
        invariant 0 <= i <= |ms| && old(info).Keys <= info.Keys
        invariant output.bytes + WriteMembers(graph, ms[i..], info).bytes == old(output.bytes) + w.bytes
        invariant WriteMembers(graph, ms[i..], info).names == w.names
      {
        UnnamedLess(graph, old(info), info);
        MembersFrom(graph, ms, i, info, output.bytes);
        if !ms[i].val.Callable? {
          SerializeMember(ms[i]);
        }
        i := i + 1;
      }
      MembersFrom(graph, ms, i, info, output.bytes);
    }

    method SerializeMember(m: Member)
      modifies this, output
      ensures Wrote(WriteMember(graph, m, old(info)))
      decreases Unnamed(graph, info), m, 1
    {
      hide Write, WriteString, Unnamed;
      output.Put(T_MEMBER);
      PutString(m.name);
      Serialize(m.val);
    }
  }

  class Deserializer {
    const input: Leb128.Input
    var heap: Heap

    constructor (input: Leb128.Input, classes: set<Str>)
      ensures this.input == input && heap == Heap(map[], map[], 0, classes)
    {
      this.input, heap := input, Heap(map[], map[], 0, classes);
    }

    method GetInt() returns (n: int)
      requires ReadInt(input.rest).Some?
      modifies input
      ensures ReadInt(old(input.rest)) == Some((n, input.rest))
    {
      n := Leb128.Deserialize(input);
    }

    /** The next n bytes. */
    method GetBytes(n: nat) returns (s: Str)
      requires n <= |input.rest|
      modifies input
      ensures s == old(input.rest)[..n] && input.rest == old(input.rest)[n..]
    {
      s := [];
      var i := 0;
      while i < n
        invariant 0 <= i <= n && s == old(input.rest)[..i] && input.rest == old(input.rest)[i..]
      {
        var b := input.Get();
        s := s + [b];
        i := i + 1;
      }
    }

    method GetString() returns (s: Str)
      requires ReadString(input.rest).Some?
      modifies input
      ensures ReadString(old(input.rest)) == Some((s, input.rest))
    {
      var n := GetInt();
      s := GetBytes(n);
    }

    /** deserialize_binary_value. */
    method Deserialize() returns (v: Val)
      requires Read(input.rest, heap).Some?
      modifies this, input
      ensures Read(old(input.rest), old(heap)) == Some(ReadVal(v, input.rest, heap))
      decreases |input.rest|, 0, 0
    {
      hide ReadInt, ReadString, ReadAll, ReadEntries, ReadObject;
      ReadIntShrinks(input.rest[1..]);
      var stype := input.Get();
      if stype == T_STRING {
        var s := GetString();
        v := Text(s);
      } else if stype == T_REF {
        var name := GetString();
        v := if name in heap.names then Ref(heap.names[name]) else Null;
      } else if stype == T_OBJECT || stype == T_MONITOR {
        v := GetObject(stype == T_MONITOR);
      } else if stype !in {T_INTEGER, T_BOOL, T_CHAR, T_BYTE, T_REAL, T_VECTOR, T_BYTEVECTOR, T_MAP} {
        v := Empty;
      } else {
        var n := GetInt();
        if stype == T_INTEGER { v := Int(n); }
        else if stype == T_BOOL { v := Boolean(n != 0); }
        else if stype == T_CHAR { v := Character(Wrap8(n)); }
        else if stype == T_BYTE { v := Octet(n % 256); }
        else if stype == T_REAL { v := Real(n); }
        else if stype == T_VECTOR {
          var es := GetVector(n);
          v := Vector(es);
        } else if stype == T_MAP {
          var es := GetMap(n);
          v := Map(es);
        } else {
          var b := GetBytes(n);
          v := Bytes(b);
        }
      }
    }

    method GetVector(n: nat) returns (es: seq<Val>)
      requires ReadAll(n, input.rest, heap).Some?
      modifies this, input
      ensures ReadAll(n, old(input.rest), old(heap)) == Some((es, input.rest, heap))
      decreases |input.rest|, 1, n
    {
      hide Read, ReadAll;
      es := [];
      var i := 0;
      ghost var (all, rest, h) := ReadAll(n, input.rest, heap).value;
      while i < n
        invariant 0 <= i <= n && |input.rest| <= |old(input.rest)|
        invariant ReadAll(n - i, input.rest, heap).Some? && ReadAll(n - i, input.rest, heap).value.1 == rest
        invariant ReadAll(n - i, input.rest, heap).value.2 == h && es + ReadAll(n - i, input.rest, heap).value.0 == all
      {
        AllNext(n - i, input.rest, heap, es);
        var v := Deserialize();
        es := es + [v];
        i := i + 1;
      }
      AllNext(0, input.rest, heap, es);
    }

    method GetMap(n: nat) returns (es: seq<Entry>)
      requires ReadEntries(n, input.rest, heap, []).Some?
      modifies this, input
      ensures ReadEntries(n, old(input.rest), old(heap), []) == Some((es, input.rest, heap))
      decreases |input.rest|, 1, n
    {
      hide Read, ReadEntries, Put;
      es := [];
      var i := 0;
      ghost var all := ReadEntries(n, input.rest, heap, []);
      while i < n
        invariant 0 <= i <= n && |input.rest| <= |old(input.rest)|
        invariant ReadEntries(n - i, input.rest, heap, es) == all
      {
        EntriesNext(n - i, input.rest, heap, es);
        var k := Deserialize();
        var v := Deserialize();
        es := Put(es, Entry(k, v));
        i := i + 1;
      }
      EntriesNext(0, input.rest, heap, es);
    }

    /** Members until the end of the block; then the object is created, registered and assigned. */
    method GetObject(monitor: bool) returns (v: Val)
      requires ReadObject(monitor, input.rest, heap).Some?
      modifies this, input
      ensures ReadObject(monitor, old(input.rest), old(heap)) == Some(ReadVal(v, input.rest, heap))
      decreases |input.rest|, 2, 0
    {
      hide ReadString, ReadMembers, NewObject;
      ReadStringShrinks(input.rest);
      var name := GetString();
      ReadStringShrinks(input.rest);
      var cls := GetString();
      var ms := GetMembers();
      if cls in heap.classes {
        v := Ref(heap.next);
        heap := NewObject(heap, name, Obj(monitor, cls, ms));
      } else {
        v := Empty;
      }
    }

    method GetMembers() returns (ms: seq<Member>)
      requires ReadMembers(input.rest, heap, []).Some?
      modifies this, input
      ensures ReadMembers(old(input.rest), old(heap), []) == Some((ms, input.rest, heap))
      decreases |input.rest|, 1, 0
    {
      hide Read, ReadMembers, PutMember, ReadString;
      ms := [];
      ghost var all := ReadMembers(input.rest, heap, []);
      MembersNext(input.rest, heap, ms);
      var ch := input.Get();
      while ch == T_MEMBER
        invariant |input.rest| < |old(input.rest)|
        invariant ReadMembers([ch] + input.rest, heap, ms) == all
        decreases |input.rest|
      {
        MembersNext([ch] + input.rest, heap, ms);
        ReadStringShrinks(input.rest);
        var name := GetString();
        var v := Deserialize();
        ms := PutMember(ms, Member(name, v));
        MembersNext(input.rest, heap, ms);
        ch := input.Get();
      }
      MembersNext([ch] + input.rest, heap, ms);
    }
  }

  lemma AllNext(n: nat, s: Str, h: Heap, before: seq<Val>)
    requires ReadAll(n, s, h).Some?
    ensures n == 0 ==> ReadAll(n, s, h) == Some(([], s, h)) && before + [] == before
    ensures n > 0 ==>
              Read(s, h).Some? && var v := Read(s, h).value;
              && ReadAll(n - 1, v.rest, v.heap).Some?
              && var (vs, rest, h') := ReadAll(n - 1, v.rest, v.heap).value;
                 ReadAll(n, s, h).value.1 == rest && ReadAll(n, s, h).value.2 == h'
                 && before + ReadAll(n, s, h).value.0 == (before + [v.val]) + vs
  {
    hide Read;
  }

  lemma EntriesNext(n: nat, s: Str, h: Heap, es: seq<Entry>)
    requires ReadEntries(n, s, h, es).Some?
    ensures n == 0 ==> ReadEntries(n, s, h, es) == Some((es, s, h))
    ensures n > 0 ==>
              Read(s, h).Some? && var k := Read(s, h).value;
              Read(k.rest, k.heap).Some? && var v := Read(k.rest, k.heap).value;
              ReadEntries(n - 1, v.rest, v.heap, Put(es, Entry(k.val, v.val))) == ReadEntries(n, s, h, es)
  {
    hide Read, Put;
  }

  lemma MembersNext(s: Str, h: Heap, ms: seq<Member>)
    requires ReadMembers(s, h, ms).Some?
    ensures s != [] && s == [s[0]] + s[1..]
    ensures s[0] != T_MEMBER ==> ReadMembers(s, h, ms) == Some((ms, s[1..], h))
    ensures s[0] == T_MEMBER ==>
              ReadString(s[1..]).Some? && var (name, rest) := ReadString(s[1..]).value;
              Read(rest, h).Some? && var v := Read(rest, h).value;
              ReadMembers(v.rest, v.heap, PutMember(ms, Member(name, v.val))) == ReadMembers(s, h, ms)
  {
    hide Read, PutMember, ReadString;
  }

  // ----- the lists, one element at a time -----

  lemma AllFrom(g: Graph, es: seq<Val>, i: nat, names: Names, before: Str)
    requires i <= |es|
    ensures i == |es| ==> WriteAll(g, es[i..], names) == Written([], names) && before + [] == before
    ensures i < |es| ==>
              var w := Write(g, es[i], names);
              var w' := WriteAll(g, es[i + 1..], w.names);
              WriteAll(g, es[i..], names).names == w'.names && before + WriteAll(g, es[i..], names).bytes == (before + w.bytes) + w'.bytes
  {
    hide Write;
    if i < |es| {
      assert es[i..][0] == es[i] && es[i..][1..] == es[i + 1..];
    }
  }

  function WriteEntry(g: Graph, e: Entry, names: Names): Written {
    var k := Write(g, e.key, names);
    var w := Write(g, e.val, k.names);
    Written(k.bytes + w.bytes, w.names)
  }

  lemma EntriesFrom(g: Graph, es: seq<Entry>, i: nat, names: Names, before: Str)
    requires i <= |es|
    ensures i == |es| ==> WriteEntries(g, es[i..], names) == Written([], names) && before + [] == before
    ensures i < |es| ==>
              var w := WriteEntry(g, es[i], names);
              var w' := WriteEntries(g, es[i + 1..], w.names);
              && WriteEntries(g, es[i..], names).names == w'.names && names.Keys <= w.names.Keys
              && before + WriteEntries(g, es[i..], names).bytes == (before + w.bytes) + w'.bytes
  {
    hide Write;
    if i < |es| {
      assert es[i..][0] == es[i] && es[i..][1..] == es[i + 1..];
      var w := WriteEntry(g, es[i], names);
      var w' := WriteEntries(g, es[i + 1..], w.names);
      assert before + (w.bytes + w'.bytes) == (before + w.bytes) + w'.bytes;
    }
  }

  function WriteMember(g: Graph, m: Member, names: Names): Written {
    var w := Write(g, m.val, names);
    Written([T_MEMBER] + WriteString(m.name) + w.bytes, w.names)
  }

  lemma MembersFrom(g: Graph, ms: seq<Member>, i: nat, names: Names, before: Str)
    requires i <= |ms|
    ensures i == |ms| ==> WriteMembers(g, ms[i..], names) == Written([], names) && before + [] == before
    ensures i < |ms| && ms[i].val.Callable? ==> WriteMembers(g, ms[i..], names) == WriteMembers(g, ms[i + 1..], names)
    ensures i < |ms| && !ms[i].val.Callable? ==>
              var w := WriteMember(g, ms[i], names);
              var w' := WriteMembers(g, ms[i + 1..], w.names);
              && WriteMembers(g, ms[i..], names).names == w'.names && names.Keys <= w.names.Keys
              && before + WriteMembers(g, ms[i..], names).bytes == (before + w.bytes) + w'.bytes
  {
    hide Write, WriteString;
    if i < |ms| {
      assert ms[i..][0] == ms[i] && ms[i..][1..] == ms[i + 1..];
      if !ms[i].val.Callable? {
        var w := WriteMember(g, ms[i], names);
        var w' := WriteMembers(g, ms[i + 1..], w.names);
        assert before + (w.bytes + w'.bytes) == (before + w.bytes) + w'.bytes;
      }
    }
  }

  function ObjectHead(o: Obj, name: Str): Str {
    [if o.monitor then T_MONITOR else T_OBJECT] + WriteString(name) + WriteString(o.cls)
  }

  lemma ObjectBytes(g: Graph, id: Id, names: Names)
    requires id in g && id !in names
    ensures var w := WriteMembers(g, g[id].members, names[id := Name(|names|)]);
            Write(g, Ref(id), names) == Written(ObjectHead(g[id], Name(|names|)) + w.bytes + [T_EOB], w.names)
  {}
}

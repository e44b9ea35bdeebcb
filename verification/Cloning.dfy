/** Deep and shallow copies of object graphs. */
module Cloning {
  import opened Values

  datatype Key = IntegralKey(kind: Kind, n: int) | TextKey(s: string)

  datatype Entry = Entry(key: Key, val: Any)

  /** A run-time value.  Vectors and maps stand for their contents; Opaque is a stream, function,
      class, package, thread or enum, which a clone shares with the original. */
  datatype Any =
    | Empty
    | Integral(kind: Kind, n: int)
    | Real(r: real)
    | Text(s: string)
    | Bytes(b: seq<bv8>)
    | Vector(elems: seq<Any>)
    | Map(entries: seq<Entry>)
    | Ref(obj: Object?)
    | Opaque(id: nat)

  /** A member variable: tags have no storage, and shared (static) members are not in the object. */
  datatype Variable = Variable(offset: nat, tag: bool, shared: bool)

  datatype Block = Block(variables: seq<Variable>, superblock: Option<Block>)

  /** The offsets of the variables that belong to each object of the block, inherited ones included. */
  function Members(blk: Block): (s: set<nat>) {
    (if blk.superblock.Some? then Members(blk.superblock.value) else {})
    + Offsets(blk.variables)
  }

  function Offsets(vs: seq<Variable>): set<nat> {
    set v | v in vs && !v.tag && !v.shared :: v.offset
  }

  /** The block or one of its superblocks declares a variable at offset i that is neither a tag nor static. */
  predicate Declares(blk: Block, i: nat) {
    (exists v :: v in blk.variables && v.offset == i && !v.tag && !v.shared)
    || (blk.superblock.Some? && Declares(blk.superblock.value, i))
  }

  lemma {:induction false} MembersDeclared(blk: Block, i: nat)
    ensures i in Members(blk) <==> Declares(blk, i)
    decreases blk
  {
    if blk.superblock.Some? { MembersDeclared(blk.superblock.value, i); }
    if v :| v in blk.variables && v.offset == i && !v.tag && !v.shared {
      assert v.offset in Offsets(blk.variables);
    }
  }

  class Object {
    const block: Block
    var varstack: seq<Any>  // the variables by offset; "this" is at 0

    constructor (block: Block, stacksize: nat)
      ensures this.block == block && varstack == seq(stacksize, _ => Empty)
    {
      this.block, varstack := block, seq(stacksize, _ => Empty);
    }

    /** "this" is at offset 0 and every member has a place of its own. */
    predicate Valid()
      reads this
    {
      |varstack| > 0 && 0 !in Members(block) && forall o :: o in Members(block) ==> o < |varstack|
    }
  }

  /** Which original object was cloned to which. */
  type CloneInfo = map<Object, Object>

  // ----- maps -----

  function Decimal(n: int): string
    decreases n < 0, if n < 0 then -n else n
  {
    if n < 0 then "-" + Decimal(-n)
    else (if n < 10 then "" else Decimal(n / 10)) + [(48 + n % 10) as char]
  }

  /** toString of an integral value. */
  function KeyText(kind: Kind, n: int): string {
    match kind
    case KInt => Decimal(n)
    case KChar => if n % 256 == 0 then "" else [(n % 256) as char]
    case KBool => if n != 0 then "true" else "false"
  }

  function Read(s: string): int {
    if s == "" then 0 else 10 * Read(s[..|s| - 1]) + (s[|s| - 1] as int - '0' as int)
  }

  /** The text of a number: its decimal digits without leading zeros, after a minus sign when it is negative. */
  lemma {:induction false} DecimalReads(n: int)
    ensures n < 0 ==> Decimal(n) == "-" + Decimal(-n)
    ensures n >= 0 ==>
              && Decimal(n) != "" && (forall i :: 0 <= i < |Decimal(n)| ==> '0' <= Decimal(n)[i] <= '9')
              && Read(Decimal(n)) == n && (Decimal(n)[0] == '0' ==> n == 0)
    decreases n < 0, if n < 0 then -n else n
  {
    if n >= 0 {
      if n >= 10 { DecimalReads(n / 10); }
      var d := if n < 10 then "" else Decimal(n / 10);
      var last := (48 + n % 10) as char;
      assert Decimal(n) == d + [last];
      hide Decimal;
      LastDigit(d, last);
      assert n < 10 ==> Read(d) == 0;
    }
  }

  lemma LastDigit(d: string, last: char)
    ensures Read(d + [last]) == 10 * Read(d) + (last as int - '0' as int)
  {
    assert (d + [last])[..|d|] == d;
  }

  /** The texts of chars and booleans. */
  lemma OtherTexts(n: int)
    ensures KeyText(KBool, n) == (if n == 0 then "false" else "true")
    ensures 0 < n < 128 ==> KeyText(KChar, n) == [n as char]
    ensures -128 <= n < 0 ==> KeyText(KChar, n) == [(n + 256) as char]
  {}

  /** Neither key is less than the other: integral keys compare by value, whatever their type, and with a
      text by what they look like. */
  predicate SameKey(k: Key, k': Key) {
    match (k, k')
    case (IntegralKey(_, n), IntegralKey(_, n')) => n == n'
    case (TextKey(s), TextKey(s')) => s == s'
    case (IntegralKey(kind, n), TextKey(s)) => KeyText(kind, n) == s
    case (TextKey(s), IntegralKey(kind, n)) => KeyText(kind, n) == s
  }

  predicate DistinctKeys(es: seq<Entry>) {
    forall i, j :: 0 <= i < j < |es| ==> !SameKey(es[i].key, es[j].key)
  }

  /** map::insert: the first of equal keys wins. */
  function Insert(es: seq<Entry>, e: Entry): seq<Entry> {
    if exists i :: 0 <= i < |es| && SameKey(es[i].key, e.key) then es else es + [e]
  }

  /** The keys are the same once chars and booleans have become integers. */
  predicate Clash(k: Key, k': Key) {
    match (k, k')
    case (IntegralKey(_, n), IntegralKey(_, n')) => n == n'
    case (TextKey(s), TextKey(s')) => s == s'
    case (IntegralKey(_, n), TextKey(s)) => Decimal(n) == s
    case (TextKey(s), IntegralKey(_, n)) => Decimal(n) == s
  }

  /** The entries that a clone keeps: of those that clash the first. */
  function Kept(es: seq<Entry>): (r: seq<Entry>)
    ensures |r| <= |es| && forall i :: 0 <= i < |r| ==> r[i] in es
  {
    if es == [] then []
    else
      var r, e := Kept(es[..|es| - 1]), es[|es| - 1];
      if exists i :: 0 <= i < |r| && Clash(r[i].key, e.key) then r else r + [e]
  }

  lemma KeptSmaller(es: seq<Entry>, i: nat)
    requires i < |Kept(es)|
    ensures es decreases to Kept(es)[i]
  {
    var j :| 0 <= j < |es| && es[j] == Kept(es)[i];
    assert es decreases to es[j];
  }

  lemma KeptNext(es: seq<Entry>, i: nat)
    requires i < |es|
    ensures Kept(es[..i + 1]) ==
            var r := Kept(es[..i]);
            if exists j :: 0 <= j < |r| && Clash(r[j].key, es[i].key) then r else r + [es[i]]
  {
    hide Clash;
    assert es[..i + 1][..i] == es[..i];
  }

  predicate NoClash(es: seq<Entry>) {
    forall i, j :: 0 <= i < j < |es| ==> !Clash(es[i].key, es[j].key)
  }

  /** No entry is lost exactly when no two keys clash. */
  lemma AllKept(es: seq<Entry>)
    ensures |Kept(es)| == |es| <==> NoClash(es)
    ensures NoClash(es) ==> Kept(es) == es
  {
    hide Clash, Kept;
    AllKeptUpto(es, |es|);
    assert es[..|es|] == es;
  }

  /** No two of the first n keys clash. */
  predicate NoClashUpto(es: seq<Entry>, n: nat)
    requires n <= |es|
  {
    forall i, j :: 0 <= i < j < n ==> !Clash(es[i].key, es[j].key)
  }

  lemma NoClashNext(es: seq<Entry>, n: nat)
    requires 0 < n <= |es|
    ensures NoClashUpto(es, n) <==> NoClashUpto(es, n - 1) && forall i :: 0 <= i < n - 1 ==> !Clash(es[i].key, es[n - 1].key)
  {
    hide Clash;
  }

  lemma {:induction false} AllKeptUpto(es: seq<Entry>, n: nat)
    requires n <= |es|
    ensures |Kept(es[..n])| == n <==> NoClashUpto(es, n)
    ensures |Kept(es[..n])| == n ==> Kept(es[..n]) == es[..n]
  {
    hide Clash, Kept, NoClashUpto;
    if n == 0 {
      assert es[..0] == [];
      NothingKept();
      assert NoClashUpto(es, 0) by { NoClashNone(es); }
    } else {
      AllKeptUpto(es, n - 1);
      KeptNext(es, n - 1);
      NoClashNext(es, n);
      KeptShort(es[..n - 1]);
      assert es[..n] == es[..n - 1] + [es[n - 1]];
    }
  }

  lemma NoClashNone(es: seq<Entry>)
    ensures NoClashUpto(es, 0)
  {}

  lemma KeptShort(es: seq<Entry>)
    ensures |Kept(es)| <= |es|
  {}

  // ----- closed sets of objects -----

  /** v refers to objects of the set only. */
  predicate Within(v: Any, all: set<Object>) {
    match v
    case Vector(es) => forall i :: 0 <= i < |es| ==> Within(es[i], all)
    case Map(es) => forall i :: 0 <= i < |es| ==> Within(es[i].val, all)
    case Ref(o) => o != null ==> o in all
    case _ => true
  }

  /** The objects refer to each other only. */
  ghost predicate Closed(all: set<Object>)
    reads all
  {
    forall o :: o in all ==> o.Valid() && forall i :: i in Members(o.block) ==> Within(o.varstack[i], all)
  }

  // ----- copies -----

  /** The same text, or the same number as an integer. */
  predicate KeyTaken(k: Key, r: Key) {
    match k
    case IntegralKey(_, n) => r.IntegralKey? && r.kind == KInt && r.n == n
    case TextKey(s) => r.TextKey? && r.s == s
  }

  /** r is a deep copy of v under the correspondence info: the same shape, objects replaced by their
      clones, chars and booleans turned into integers, of keys that are equal then the first. */
  ghost predicate Copy(v: Any, r: Any, info: CloneInfo) {
    match v
    case Integral(_, n) => r == Integral(KInt, n)
    case Vector(es) => r.Vector? && |r.elems| == |es| && forall i :: 0 <= i < |es| ==> Copy(es[i], r.elems[i], info)
    case Map(es) =>
      r.Map? && |r.entries| == |Kept(es)|
      && forall i :: 0 <= i < |Kept(es)| ==>
           KeyTaken(Kept(es)[i].key, r.entries[i].key) && (KeptSmaller(es, i); Copy(Kept(es)[i].val, r.entries[i].val, info))
    case Ref(o) => if o == null then r == Ref(null) else o in info && r == Ref(info[o])
    case _ => r == v
  }

  /** clone of a key. */
  function KeyCopy(k: Key): (r: Key)
    ensures KeyTaken(k, r)
  {
    if k.IntegralKey? then IntegralKey(KInt, k.n) else k
  }

  /** The clone c of object o is finished. */
  ghost predicate Finished(o: Object, c: Object, info: CloneInfo)
    reads o, c
  {
    && c.block == o.block && o.Valid() && |c.varstack| == |o.varstack|
    && c.varstack[0] == Ref(c)
    && forall i :: 0 < i < |o.varstack| ==> if i in Members(o.block) then Copy(o.varstack[i], c.varstack[i], info) else c.varstack[i] == Empty
  }

  /** A finished clone holds copies of the variables that are neither tags nor static, of its class and of
      all superclasses, itself as "this", and nothing else. */
  lemma FinishedDeclared(o: Object, c: Object, info: CloneInfo, i: nat)
    requires Finished(o, c, info) && i < |o.varstack|
    ensures |c.varstack| == |o.varstack| && c.block == o.block
    ensures if i == 0 then c.varstack[i] == Ref(c)
            else if Declares(o.block, i) then Copy(o.varstack[i], c.varstack[i], info)
            else c.varstack[i] == Empty
  {
    MembersDeclared(o.block, i);
  }

  ghost predicate Extends(info: CloneInfo, info': CloneInfo) {
    forall o :: o in info ==> o in info' && info'[o] == info[o]
  }

  /** Clones are new objects, one for each original. */
  ghost predicate Separate(info: CloneInfo, all: set<Object>) {
    && info.Keys <= all && (forall o :: o in info ==> info[o] !in all)
    && (forall o, p :: o in info && p in info && o != p ==> info[o] != info[p])
  }

  lemma {:induction false} CopyExtends(v: Any, r: Any, info: CloneInfo, info': CloneInfo)
    requires Copy(v, r, info) && Extends(info, info')
    ensures Copy(v, r, info')
    decreases v
  {
    match v
    case Vector(es) =>
      forall i | 0 <= i < |es| ensures Copy(es[i], r.elems[i], info') { CopyExtends(es[i], r.elems[i], info, info'); }
    case Map(es) =>
      forall i | 0 <= i < |Kept(es)| ensures Copy(Kept(es)[i].val, r.entries[i].val, info') {
        KeptSmaller(es, i);
        CopyExtends(Kept(es)[i].val, r.entries[i].val, info, info');
      }
    case _ =>
  }

  lemma FewerLeft(all: set<Object>, info: CloneInfo, info': CloneInfo)
    requires Extends(info, info')
    ensures |all - info'.Keys| <= |all - info.Keys|
    ensures (exists o :: o in all && o in info' && o !in info) ==> |all - info'.Keys| < |all - info.Keys|
  {
    Smaller(all - info'.Keys, all - info.Keys);
    if o :| o in all && o in info' && o !in info {
      Smaller(all - info'.Keys, all - info.Keys - {o});
    }
  }

  lemma {:induction false} Smaller(s: set<Object>, t: set<Object>)
    requires s <= t
    ensures |s| <= |t|
    decreases |s|
  {
    if o :| o in s {
      Smaller(s - {o}, t - {o});
    }
  }

  // ----- clone -----

  /** What a step of cloning has added to info: further originals, each with a finished clone. */
  ghost predicate Added(info: CloneInfo, info': CloneInfo, all: set<Object>)
    reads all, info'.Values
  {
    && Extends(info, info') && Separate(info', all)
    && forall o :: o in info' && o !in info ==> Finished(o, info'[o], info')
  }

  lemma AddedMore(info: CloneInfo, info': CloneInfo, info'': CloneInfo, all: set<Object>)
    requires Added(info, info', all) && Added(info', info'', all)
    ensures Added(info, info'', all)
  {
    forall o | o in info'' && o !in info ensures Finished(o, info''[o], info'') {
      if o in info' { FinishedExtends(o, info'[o], info', info''); }
    }
  }

  lemma FinishedExtends(o: Object, c: Object, info: CloneInfo, info': CloneInfo)
    requires Finished(o, c, info) && Extends(info, info')
    ensures Finished(o, c, info')
  {
    forall i | 0 < i < |o.varstack| && i in Members(o.block) ensures Copy(o.varstack[i], c.varstack[i], info') {
      CopyExtends(o.varstack[i], c.varstack[i], info, info');
    }
  }

  /** clone of native.cc, with recurse.  The result is a deep copy; objects reached for the first time
      get finished clones, objects reached before keep the clone they have.  Nothing that existed
      before is changed. */
  method Clone(v: Any, info: CloneInfo, ghost all: set<Object>) returns (r: Any, info': CloneInfo)
    requires Closed(all) && Within(v, all) && Separate(info, all)
    ensures Copy(v, r, info') && Added(info, info', all)
    ensures forall o :: o in info' && o !in info ==> fresh(info'[o])
    decreases |all - info.Keys|, 0, v, 1
  {
    hide EntriesUpto, Kept;
    info' := info;
    match v
    case Integral(_, n) => r := Integral(KInt, n);
    case Vector(es) =>
      var out;
      out, info' := CloneVector(es, info, all);
      r := Vector(out);
    case Map(es) =>
      var out;
      out, info' := CloneMap(es, info, all);
      MapIsCopy(es, out, info');
      r := Map(out);
    case Ref(o) =>
      if o == null {
        r := Ref(null);
      } else if o in info {
        r := Ref(info[o]);
      } else {
        var c;
        c, info' := CloneObject(o, info, all);
        r := Ref(c);
      }
    case _ => r := v;
  }

  ghost predicate CopiesUpto(es: seq<Any>, out: seq<Any>, i: nat, info: CloneInfo) {
    i <= |es| && |out| == i && forall j :: 0 <= j < i ==> Copy(es[j], out[j], info)
  }

  lemma CopiesStep(es: seq<Any>, out: seq<Any>, i: nat, r: Any, info: CloneInfo, info': CloneInfo)
    requires CopiesUpto(es, out, i, info) && Extends(info, info') && i < |es| && Copy(es[i], r, info')
    ensures CopiesUpto(es, out + [r], i + 1, info')
  {
    forall j | 0 <= j < i ensures Copy(es[j], out[j], info') { CopyExtends(es[j], out[j], info, info'); }
  }

  /** The entries of out are copies of those of ks, in order. */
  ghost predicate Matched(ks: seq<Entry>, out: seq<Entry>, info: CloneInfo) {
    |out| == |ks| && forall j :: 0 <= j < |out| ==> KeyTaken(ks[j].key, out[j].key) && Copy(ks[j].val, out[j].val, info)
  }

  ghost predicate EntriesUpto(es: seq<Entry>, out: seq<Entry>, i: nat, info: CloneInfo) {
    i <= |es| && Matched(Kept(es[..i]), out, info)
  }

  lemma MatchedExtends(ks: seq<Entry>, out: seq<Entry>, info: CloneInfo, info': CloneInfo)
    requires Matched(ks, out, info) && Extends(info, info')
    ensures Matched(ks, out, info')
  {
    hide Copy, Extends, KeyTaken;
    forall j | 0 <= j < |out| ensures Copy(ks[j].val, out[j].val, info') { CopyExtends(ks[j].val, out[j].val, info, info'); }
  }

  lemma MatchedClash(ks: seq<Entry>, out: seq<Entry>, info: CloneInfo, k: Key, k': Key)
    requires Matched(ks, out, info) && KeyTaken(k, k')
    ensures (exists j :: 0 <= j < |ks| && Clash(ks[j].key, k)) <==> (exists j :: 0 <= j < |out| && SameKey(out[j].key, k'))
  {
    hide Copy, Clash, SameKey, KeyTaken;
    forall j | 0 <= j < |out| ensures SameKey(out[j].key, k') <==> Clash(ks[j].key, k) {
      TakenClash(ks[j].key, k, out[j].key, k');
    }
  }

  /** An entry is lost when its key clashes with one that is there. */
  lemma EntriesStep(es: seq<Entry>, out: seq<Entry>, i: nat, r: Any, info: CloneInfo, info': CloneInfo)
    requires EntriesUpto(es, out, i, info) && Extends(info, info') && i < |es| && Copy(es[i].val, r, info')
    ensures EntriesUpto(es, Insert(out, Entry(KeyCopy(es[i].key), r)), i + 1, info')
  {
    hide Copy, KeyCopy, Clash, SameKey, KeyTaken, Kept, Extends;
    var ks, k := Kept(es[..i]), KeyCopy(es[i].key);
    KeptNext(es, i);
    MatchedExtends(ks, out, info, info');
    MatchedClash(ks, out, info', es[i].key, k);
  }

  lemma TakenClash(k: Key, l: Key, k': Key, l': Key)
    requires KeyTaken(k, k') && KeyTaken(l, l')
    ensures SameKey(k', l') <==> Clash(k, l)
  {}

  lemma MapIsCopy(es: seq<Entry>, out: seq<Entry>, info: CloneInfo)
    requires EntriesUpto(es, out, |es|, info)
    ensures Copy(Map(es), Map(out), info)
  {
    hide Kept, KeyTaken;
    assert es[..|es|] == es;
  }

  lemma NoCopies(es: seq<Any>, info: CloneInfo)
    ensures CopiesUpto(es, [], 0, info)
  {}

  lemma NoEntries(es: seq<Entry>, info: CloneInfo)
    ensures EntriesUpto(es, [], 0, info)
  {}

  lemma AddedParts(info: CloneInfo, info': CloneInfo, all: set<Object>)
    requires Added(info, info', all)
    ensures Extends(info, info') && Separate(info', all)
  {}

  lemma AddedNothing(info: CloneInfo, all: set<Object>)
    requires Separate(info, all)
    ensures Added(info, info, all)
  {}

  method CloneVector(es: seq<Any>, info: CloneInfo, ghost all: set<Object>) returns (out: seq<Any>, info': CloneInfo)
    requires Closed(all) && (forall i :: 0 <= i < |es| ==> Within(es[i], all)) && Separate(info, all)
    ensures CopiesUpto(es, out, |es|, info') && Added(info, info', all)
    ensures forall o :: o in info' && o !in info ==> fresh(info'[o])
    decreases |all - info.Keys|, 0, es
  {
    hide Copy, Finished, Separate, Within, Closed, Added, CopiesUpto, Extends;
    info', out := info, [];
    NoCopies(es, info);
    AddedNothing(info, all);
    var i := 0;
    while i < |es|
      invariant 0 <= i <= |es| && Closed(all)
      invariant CopiesUpto(es, out, i, info') && Added(info, info', all)
      invariant forall o :: o in info' && o !in info ==> fresh(info'[o])
    {
      ghost var before := info';
      AddedParts(info, before, all);
      FewerLeft(all, info, before);
      var r;
      r, info' := Clone(es[i], info', all);
      AddedMore(info, before, info', all);
      AddedParts(before, info', all);
      CopiesStep(es, out, i, r, before, info');
      out := out + [r];
      i := i + 1;
    }
  }

  method CloneMap(es: seq<Entry>, info: CloneInfo, ghost all: set<Object>) returns (out: seq<Entry>, info': CloneInfo)
    requires Closed(all) && (forall i :: 0 <= i < |es| ==> Within(es[i].val, all)) && Separate(info, all)
    ensures EntriesUpto(es, out, |es|, info') && Added(info, info', all)
    ensures forall o :: o in info' && o !in info ==> fresh(info'[o])
    decreases |all - info.Keys|, 0, es
  {
    hide Copy, Finished, Separate, Within, Insert, KeyCopy, Closed, Added, EntriesUpto, Extends, Kept, Matched;
    info', out := info, [];
    NoEntries(es, info);
    AddedNothing(info, all);
    var i := 0;
    while i < |es|
      invariant 0 <= i <= |es| && Closed(all)
      invariant EntriesUpto(es, out, i, info') && Added(info, info', all)
      invariant forall o :: o in info' && o !in info ==> fresh(info'[o])
    {
      ghost var before := info';
      AddedParts(info, before, all);
      FewerLeft(all, info, before);
      var r;
      assert es decreases to es[i];
      assert es[i] decreases to es[i].val;
      r, info' := Clone(es[i].val, info', all);
      AddedMore(info, before, info', all);
      AddedParts(before, info', all);
      EntriesStep(es, out, i, r, before, info');
      out := Insert(out, Entry(KeyCopy(es[i].key), r));
      i := i + 1;
    }
  }

  /** The member at each offset of done has been copied, the others are as before. */
  ghost predicate CopiedMembers(base: seq<Any>, before: seq<Any>, now: seq<Any>, done: set<nat>, info: CloneInfo) {
    |now| == |before| == |base|
    && forall i: nat {:trigger now[i]} :: i < |base| ==> if i in done then Copy(base[i], now[i], info) else now[i] == before[i]
  }

  lemma MemberStep(base: seq<Any>, before: seq<Any>, now: seq<Any>, done: set<nat>, info: CloneInfo, info': CloneInfo, k: nat, r: Any)
    requires CopiedMembers(base, before, now, done, info) && Extends(info, info') && k < |base| && Copy(base[k], r, info')
    ensures CopiedMembers(base, before, now[k := r], done + {k}, info')
  {
    forall i: nat | i < |base| && i in done ensures Copy(base[i], now[i], info') { CopyExtends(base[i], now[i], info, info'); }
  }

  lemma ObjectFinished(o: Object, c: Object, before: seq<Any>, now: seq<Any>, info: CloneInfo)
    requires o.Valid() && c.block == o.block && CopiedMembers(o.varstack, before, now, Members(o.block), info)
    requires before == seq(|o.varstack|, _ => Empty) && c.varstack == now[0 := Ref(c)]
    ensures Finished(o, c, info)
  {
    forall i | 0 < i < |o.varstack| ensures if i in Members(o.block) then Copy(o.varstack[i], c.varstack[i], info) else c.varstack[i] == Empty {
      assert c.varstack[i] == now[i];
    }
  }

  /** The clone is noted before its members are cloned, so that they can refer back to it. */
  method CloneObject(o: Object, info: CloneInfo, ghost all: set<Object>) returns (c: Object, info': CloneInfo)
    requires Closed(all) && o in all && o !in info && Separate(info, all)
    ensures o in info' && info'[o] == c && Added(info, info', all)
    ensures forall o :: o in info' && o !in info ==> fresh(info'[o])
    decreases |all - info.Keys|, 0, Ref(o), 0
  {
    hide Copy, Within, CopiedMembers, Finished, Members, Closed, Separate, Offsets, Added, Extends;
    Member(o, all);
    c := new Object(o.block, |o.varstack|);
    Noted(info, o, c, all);
    ghost var noted, before := info[o := c], c.varstack;
    info' := CloneBlock(o, o.block, c, info[o := c], all);
    ghost var now := c.varstack;
    MembersKept(o.varstack, before, now, Members(o.block), info');
    OnlyClone(noted, info', o, all);
    c.varstack := c.varstack[0 := Ref(c)];
    ObjectFinished(o, c, before, now, info');
    forall p | p in info' && p !in noted ensures Finished(p, info'[p], info') {
      assert p != c && info'[p] != c;
    }
    ObjectAdded(info, o, c, info', all);
  }

  lemma ObjectAdded(info: CloneInfo, o: Object, c: Object, info': CloneInfo, all: set<Object>)
    requires Extends(info[o := c], info') && o !in info && Separate(info', all) && Finished(o, c, info')
    requires forall p :: p in info' && p !in info[o := c] ==> Finished(p, info'[p], info')
    ensures Added(info, info', all)
  {}

  lemma Member(o: Object, all: set<Object>)
    requires Closed(all) && o in all
    ensures o.Valid()
  {}

  /** Noting a new clone. */
  lemma Noted(info: CloneInfo, o: Object, c: Object, all: set<Object>)
    requires Separate(info, all) && o in all && o !in info && c !in all && c !in info.Values
    ensures Separate(info[o := c], all) && |all - info[o := c].Keys| < |all - info.Keys|
  {
    FewerLeft(all, info, info[o := c]);
  }

  /** The clone of o belongs to o alone. */
  lemma OnlyClone(info: CloneInfo, info': CloneInfo, o: Object, all: set<Object>)
    requires Added(info, info', all) && o in info
    ensures Extends(info, info') && Separate(info', all)
    ensures o in info' && info'[o] == info[o] && forall p :: p in info' ==> p in all && info'[p] !in all && (p != o ==> info'[p] != info[o])
    ensures forall p :: p in info' && p !in info ==> Finished(p, info'[p], info')
  {}

  lemma MembersKept(base: seq<Any>, before: seq<Any>, now: seq<Any>, done: set<nat>, info: CloneInfo)
    requires CopiedMembers(base, before, now, done, info)
    ensures |now| == |base|
  {}

  /** cloneBlock: the members of the superblocks, then those of the block. */
  method CloneBlock(o: Object, blk: Block, c: Object, info: CloneInfo, ghost all: set<Object>) returns (info': CloneInfo)
    requires Closed(all) && Separate(info, all) && o in all && o in info && info[o] == c
    requires Members(blk) <= Members(o.block) && |c.varstack| == |o.varstack|
    modifies c
    ensures CopiedMembers(o.varstack, old(c.varstack), c.varstack, Members(blk), info')
    ensures Added(info, info', all) && forall p :: p in info' && p !in info ==> fresh(info'[p])
    decreases |all - info.Keys|, 1, blk, 1
  {
    hide Copy, Within, CopiedMembers, Finished, Added, Closed;
    info' := info;
    Member(o, all);
    NoneCopied(o.varstack, c.varstack, info);
    AddedNothing(info, all);
    ghost var done: set<nat> := {};
    if blk.superblock.Some? {
      info' := CloneBlock(o, blk.superblock.value, c, info, all);
      done := Members(blk.superblock.value);
      MembersKept(o.varstack, old(c.varstack), c.varstack, done, info');
      AddedParts(info, info', all);
    }
    info' := CloneVariables(o, blk, c, info', all, info, old(c.varstack), done);
  }

  /** The variables of one block, when those of its superclasses are done. */
  method CloneVariables(o: Object, blk: Block, c: Object, info: CloneInfo, ghost all: set<Object>, ghost start: CloneInfo, ghost before: seq<Any>, ghost done: set<nat>)
    returns (info': CloneInfo)
    requires Closed(all) && Separate(start, all) && o in all && o in start && start[o] == c && Offsets(blk.variables) <= Members(o.block)
    requires Added(start, info, all) && CopiedMembers(o.varstack, before, c.varstack, done, info) && |c.varstack| == |o.varstack|
    requires forall p :: p in info && p !in start ==> info[p] != c
    modifies c
    ensures CopiedMembers(o.varstack, before, c.varstack, done + Offsets(blk.variables), info')
    ensures Added(start, info', all) && Extends(info, info') && forall p :: p in info' && p !in info ==> fresh(info'[p])
    decreases |all - start.Keys|, 1, blk, 0
  {
    hide Copy, Within, CopiedMembers, Finished, Added, Closed;
    info' := info;
    ghost var more := done;
    var k := 0;
    while k < |blk.variables|
      invariant 0 <= k <= |blk.variables| && more == done + Offsets(blk.variables[..k]) && Closed(all)
      invariant CopiedMembers(o.varstack, before, c.varstack, more, info') && |c.varstack| == |o.varstack|
      invariant Added(start, info', all) && Extends(info, info') && forall p :: p in info' && p !in info ==> fresh(info'[p])
    {
      var x := blk.variables[k];
      assert blk.variables[..k + 1] == blk.variables[..k] + [x];
      if !x.tag && !x.shared {
        AddedParts(start, info', all);
        info' := CloneMember(o, x.offset, c, info', all, start, before, more);
        more := more + {x.offset};
      }
      k := k + 1;
    }
    assert blk.variables[..k] == blk.variables;
  }

  lemma NoneCopied(base: seq<Any>, before: seq<Any>, info: CloneInfo)
    requires |before| == |base|
    ensures CopiedMembers(base, before, before, {}, info)
  {}

  /** One member: clone its value and store it in the new object. */
  method CloneMember(o: Object, k: nat, c: Object, info: CloneInfo, ghost all: set<Object>, ghost start: CloneInfo, ghost before: seq<Any>, ghost done: set<nat>) returns (info': CloneInfo)
    requires Closed(all) && o in all && k in Members(o.block) && c !in all && c in info.Values && |c.varstack| == |o.varstack|
    requires Added(start, info, all) && CopiedMembers(o.varstack, before, c.varstack, done, info)
    requires forall p :: p in info && p !in start ==> info[p] != c
    modifies c
    ensures CopiedMembers(o.varstack, before, c.varstack, done + {k}, info') && |c.varstack| == |o.varstack|
    ensures Added(start, info', all) && Extends(info, info') && forall p :: p in info' && p !in info ==> fresh(info'[p])
    decreases |all - start.Keys|, 0, o.varstack[k], 2
  {
    hide Copy, CopiedMembers, Finished, Within;
    FewerLeft(all, start, info);
    var r;
    r, info' := Clone(o.varstack[k], info, all);
    MemberStep(o.varstack, before, c.varstack, done, info, info', k, r);
    AddedMore(start, info, info', all);
    c.varstack := c.varstack[k := r];
    forall p | p in info' && p !in start ensures Finished(p, info'[p], info') {
      assert p != c && info'[p] != c;
    }
  }

  // ----- the two graphs -----

  /** One step inside a value: to an element of a vector, to the value a map has for a number or a text, to
      a member of an object. */
  datatype Step = Element(i: nat) | AtNumber(n: int) | AtText(s: string) | Member(k: nat)

  predicate IsNumber(k: Key, n: int) {
    k.IntegralKey? && k.n == n
  }

  predicate IsText(k: Key, s: string) {
    k.TextKey? && k.s == s
  }

  /** The value of the first entry for a number. */
  function NumberAt(es: seq<Entry>, n: int): Option<Any> {
    if es == [] then None else if IsNumber(es[0].key, n) then Some(es[0].val) else NumberAt(es[1..], n)
  }

  function TextAt(es: seq<Entry>, s: string): Option<Any> {
    if es == [] then None else if IsText(es[0].key, s) then Some(es[0].val) else TextAt(es[1..], s)
  }

  /** Entries that were copied one by one: for every number and every text, the copy finds a copy of what
      the original finds, or neither finds anything. */
  lemma {:induction false} NumberCopied(es: seq<Entry>, out: seq<Entry>, n: int, info: CloneInfo, all: set<Object>)
    requires |out| == |es| && forall i :: 0 <= i < |es| ==> KeyTaken(es[i].key, out[i].key) && Copy(es[i].val, out[i].val, info) && Within(es[i].val, all) && Clean(es[i].val)
    ensures NumberAt(es, n).Some? <==> NumberAt(out, n).Some?
    ensures NumberAt(es, n).Some? ==> Copy(NumberAt(es, n).value, NumberAt(out, n).value, info) && Within(NumberAt(es, n).value, all) && Clean(NumberAt(es, n).value)
  {
    hide Copy, Within, Clean;
    if es != [] { NumberCopied(es[1..], out[1..], n, info, all); }
  }

  lemma {:induction false} TextCopied(es: seq<Entry>, out: seq<Entry>, s: string, info: CloneInfo, all: set<Object>)
    requires |out| == |es| && forall i :: 0 <= i < |es| ==> KeyTaken(es[i].key, out[i].key) && Copy(es[i].val, out[i].val, info) && Within(es[i].val, all) && Clean(es[i].val)
    ensures TextAt(es, s).Some? <==> TextAt(out, s).Some?
    ensures TextAt(es, s).Some? ==> Copy(TextAt(es, s).value, TextAt(out, s).value, info) && Within(TextAt(es, s).value, all) && Clean(TextAt(es, s).value)
  {
    hide Copy, Within, Clean;
    if es != [] { TextCopied(es[1..], out[1..], s, info, all); }
  }

  /** Unless keys clash, a cloned map has the numbers and texts of the original as keys, with copies of its
      values, and no others. */
  lemma KeysKept(es: seq<Entry>, r: Any, info: CloneInfo, n: int, s: string)
    requires NoClash(es) && Copy(Map(es), r, info)
    ensures r.Map? && |r.entries| == |es|
    ensures (exists i :: 0 <= i < |es| && IsNumber(es[i].key, n)) <==> (exists j :: 0 <= j < |es| && IsNumber(r.entries[j].key, n))
    ensures (exists i :: 0 <= i < |es| && IsText(es[i].key, s)) <==> (exists j :: 0 <= j < |es| && IsText(r.entries[j].key, s))
    ensures forall i, j :: 0 <= i < |es| && 0 <= j < |es| && IsNumber(es[i].key, n) && IsNumber(r.entries[j].key, n) ==> Copy(es[i].val, r.entries[j].val, info)
    ensures forall i, j :: 0 <= i < |es| && 0 <= j < |es| && IsText(es[i].key, s) && IsText(r.entries[j].key, s) ==> Copy(es[i].val, r.entries[j].val, info)
  {
    hide Copy;
    MapCopied(es, r, info);
    forall i | 0 <= i < |es|
      ensures (IsNumber(es[i].key, n) <==> IsNumber(r.entries[i].key, n)) && (IsText(es[i].key, s) <==> IsText(r.entries[i].key, s))
    {
      assert KeyTaken(es[i].key, r.entries[i].key);
    }
    forall i, j | 0 <= i < |es| && 0 <= j < |es| && ((IsNumber(es[i].key, n) && IsNumber(es[j].key, n)) || (IsText(es[i].key, s) && IsText(es[j].key, s)))
      ensures i == j
    {
      assert Clash(es[i].key, es[j].key) && Clash(es[j].key, es[i].key);
    }
  }

  lemma MapCopied(es: seq<Entry>, r: Any, info: CloneInfo)
    requires NoClash(es) && Copy(Map(es), r, info)
    ensures r.Map? && |r.entries| == |es|
    ensures forall i :: 0 <= i < |es| ==> KeyTaken(es[i].key, r.entries[i].key) && Copy(es[i].val, r.entries[i].val, info)
  {
    AllKept(es);
    forall i | 0 <= i < |es| ensures KeyTaken(es[i].key, r.entries[i].key) && Copy(es[i].val, r.entries[i].val, info) {
      assert Kept(es)[i] == es[i];
    }
  }

  /** A clone has every entry of a map if and only if no two of its keys clash. */
  lemma EntriesExactly(es: seq<Entry>, r: Any, info: CloneInfo)
    requires Copy(Map(es), r, info)
    ensures r.Map? && (|r.entries| == |es| <==> NoClash(es))
  {
    AllKept(es);
  }

  /** The keys 'a' and "97" are different, and 'a' is found as "a".  The clone of the map has one entry, for
      the number 97, and nothing for "a". */
  lemma KeyLost(x: Any, y: Any, r: Any, info: CloneInfo)
    requires Copy(Map([Entry(IntegralKey(KChar, 97), x), Entry(TextKey("97"), y)]), r, info)
    ensures DistinctKeys([Entry(IntegralKey(KChar, 97), x), Entry(TextKey("97"), y)]) && SameKey(IntegralKey(KChar, 97), TextKey("a"))
    ensures r.Map? && |r.entries| == 1 && r.entries[0].key == IntegralKey(KInt, 97) && Copy(x, r.entries[0].val, info)
    ensures !SameKey(r.entries[0].key, TextKey("a"))
  {
    hide Copy, Kept, Decimal;
    var a, b := Entry(IntegralKey(KChar, 97), x), Entry(TextKey("97"), y);
    NinetySeven();
    FirstKept(a, b);
    OneKept([a, b], a, r, info);
  }

  lemma NinetySeven()
    ensures Decimal(97) == "97" && |"97"| == 2 && |"a"| == 1
  {
    assert Decimal(9) == "9";
  }

  lemma FirstKept(a: Entry, b: Entry)
    requires Clash(a.key, b.key)
    ensures Kept([a, b]) == [a]
  {
    hide Clash;
    assert [a][..0] == [] && [a, b][..1] == [a];
    assert Kept([a]) == [a];
    assert Clash(Kept([a])[0].key, [a, b][1].key);
  }

  lemma NothingKept()
    ensures Kept([]) == []
  {}

  lemma OneKept(es: seq<Entry>, e: Entry, r: Any, info: CloneInfo)
    requires Copy(Map(es), r, info) && Kept(es) == [e]
    ensures r.Map? && |r.entries| == 1 && KeyTaken(e.key, r.entries[0].key) && Copy(e.val, r.entries[0].val, info)
  {
    assert Kept(es)[0] == e;
  }

  /** No map in v has keys that clash. */
  predicate Clean(v: Any) {
    match v
    case Vector(es) => forall i :: 0 <= i < |es| ==> Clean(es[i])
    case Map(es) => NoClash(es) && forall i :: 0 <= i < |es| ==> Clean(es[i].val)
    case _ => true
  }

  /** Nor in any of the objects. */
  predicate AllClean(all: set<Object>)
    reads all
  {
    forall o, i :: o in all && 0 <= i < |o.varstack| ==> Clean(o.varstack[i])
  }

  /** Where a path leads from v. */
  ghost function Follow(v: Any, path: seq<Step>, objs: set<Object>): Option<Any>
    reads objs
    decreases |path|
  {
    if path == [] then Some(v)
    else
      match (v, path[0])
      case (Vector(es), Element(i)) => if i < |es| then Follow(es[i], path[1..], objs) else None
      case (Map(es), AtNumber(n)) => var a := NumberAt(es, n); if a.Some? then Follow(a.value, path[1..], objs) else None
      case (Map(es), AtText(s)) => var a := TextAt(es, s); if a.Some? then Follow(a.value, path[1..], objs) else None
      case (Ref(o), Member(k)) =>
        if o != null && o in objs && k in Members(o.block) && k < |o.varstack| then Follow(o.varstack[k], path[1..], objs) else None
      case _ => None
  }

  lemma NumberFollowed(es: seq<Entry>, r: Any, n: int, info: CloneInfo, all: set<Object>)
    requires Within(Map(es), all) && Clean(Map(es)) && Copy(Map(es), r, info)
    ensures r.Map? && (NumberAt(es, n).Some? <==> NumberAt(r.entries, n).Some?)
    ensures NumberAt(es, n).Some? ==> Copy(NumberAt(es, n).value, NumberAt(r.entries, n).value, info) && Within(NumberAt(es, n).value, all) && Clean(NumberAt(es, n).value)
  {
    hide Copy, NoClash;
    MapCopied(es, r, info);
    NumberCopied(es, r.entries, n, info, all);
  }

  lemma TextFollowed(es: seq<Entry>, r: Any, s: string, info: CloneInfo, all: set<Object>)
    requires Within(Map(es), all) && Clean(Map(es)) && Copy(Map(es), r, info)
    ensures r.Map? && (TextAt(es, s).Some? <==> TextAt(r.entries, s).Some?)
    ensures TextAt(es, s).Some? ==> Copy(TextAt(es, s).value, TextAt(r.entries, s).value, info) && Within(TextAt(es, s).value, all) && Clean(TextAt(es, s).value)
  {
    hide Copy, NoClash;
    MapCopied(es, r, info);
    TextCopied(es, r.entries, s, info, all);
  }

  /** When no keys clash, a path leads somewhere in the copy exactly when it does in the original, and to a
      copy of it. */
  lemma {:induction false} SamePaths(v: Any, r: Any, path: seq<Step>, info: CloneInfo, all: set<Object>)
    requires Closed(all) && Within(v, all) && Clean(v) && AllClean(all) && Copy(v, r, info) && Added(map[], info, all)
    ensures match Follow(v, path, all)
            case None => Follow(r, path, info.Values) == None
            case Some(a) => Follow(r, path, info.Values).Some? && Copy(a, Follow(r, path, info.Values).value, info)
    decreases |path|
  {
    hide NumberAt, TextAt, NoClash, Kept, KeyTaken;
    if path != [] {
      match (v, path[0])
      case (Vector(es), Element(i)) => if i < |es| { SamePaths(es[i], r.elems[i], path[1..], info, all); }
      case (Map(es), AtNumber(n)) =>
        NumberFollowed(es, r, n, info, all);
        if NumberAt(es, n).Some? { SamePaths(NumberAt(es, n).value, NumberAt(r.entries, n).value, path[1..], info, all); }
      case (Map(es), AtText(s)) =>
        TextFollowed(es, r, s, info, all);
        if TextAt(es, s).Some? { SamePaths(TextAt(es, s).value, TextAt(r.entries, s).value, path[1..], info, all); }
      case (Ref(o), Member(k)) =>
        if o != null {
          assert Finished(o, info[o], info) && info[o] in info.Values;
          if k in Members(o.block) { SamePaths(o.varstack[k], info[o].varstack[k], path[1..], info, all); }
        }
      case _ =>
    }
  }

  /** Sharing is preserved: two paths meet in one object of the copy exactly when they meet in one
      object of the original, and no object is common to both graphs. */
  lemma SharingPreserved(v: Any, r: Any, path: seq<Step>, path': seq<Step>, info: CloneInfo, all: set<Object>)
    requires Closed(all) && Within(v, all) && Clean(v) && AllClean(all) && Copy(v, r, info) && Added(map[], info, all)
    requires Follow(v, path, all).Some? && Follow(v, path, all).value.Ref? && Follow(v, path', all).Some? && Follow(v, path', all).value.Ref?
    ensures var a, a' := Follow(r, path, info.Values), Follow(r, path', info.Values);
            && a.Some? && a.value.Ref? && a'.Some? && a'.value.Ref?
            && (a == a' <==> Follow(v, path, all) == Follow(v, path', all))
            && (a.value.obj != null ==> a.value.obj !in all)
  {
    SamePaths(v, r, path, info, all);
    SamePaths(v, r, path', info, all);
  }

  // ----- the native function -----

  /** clone (value, recurse). */
  method CloneValue(v: Any, recurse: bool, ghost all: set<Object>) returns (r: Any, ghost info: CloneInfo)
    requires Closed(all) && Within(v, all)
    ensures recurse ==> Copy(v, r, info) && Added(map[], info, all) && forall o :: o in info ==> fresh(info[o])
    ensures !recurse ==> ShallowCopy(v, r) && (v.Ref? && v.obj != null ==> fresh(r.obj))
  {
    if recurse {
      r, info := Clone(v, map[], all);
    } else {
      info := map[];
      r := CloneShallow(v, all);
    }
  }

  /** The top level is new, what it contains is shared with the original. */
  ghost predicate ShallowCopy(v: Any, r: Any)
    reads if v.Ref? && v.obj != null then {v.obj} else {}, if r.Ref? && r.obj != null then {r.obj} else {}
  {
    match v
    case Integral(_, n) => r == Integral(KInt, n)
    case Ref(o) =>
      if o == null then r == v
      else
        && r.Ref? && r.obj != null && r.obj.block == o.block && |r.obj.varstack| == |o.varstack| > 0 && r.obj.varstack[0] == r
        && forall i :: 0 < i < |o.varstack| ==> r.obj.varstack[i] == if i in Members(o.block) then o.varstack[i] else Empty
    case _ => r == v
  }

  method CloneShallow(v: Any, ghost all: set<Object>) returns (r: Any)
    requires Closed(all) && Within(v, all)
    ensures ShallowCopy(v, r) && (v.Ref? && v.obj != null ==> fresh(r.obj))
  {
    match v
    case Integral(_, n) => r := Integral(KInt, n);
    case Ref(o) =>
      if o == null {
        r := v;
      } else {
        var c := new Object(o.block, |o.varstack|);
        ghost var before := c.varstack;
        CopyBlock(o, o.block, c);
        c.varstack := c.varstack[0 := Ref(c)];
        r := Ref(c);
      }
    case _ => r := v;
  }

  /** The members in done are those of base, the others as before. */
  predicate Taken(base: seq<Any>, before: seq<Any>, now: seq<Any>, done: set<nat>) {
    |now| == |before| == |base| && forall i :: 0 <= i < |base| ==> now[i] == if i in done then base[i] else before[i]
  }

  lemma TakenOne(base: seq<Any>, before: seq<Any>, now: seq<Any>, done: set<nat>, k: nat)
    requires Taken(base, before, now, done) && k < |base|
    ensures Taken(base, before, now[k := base[k]], done + {k})
  {}

  lemma TakenSize(base: seq<Any>, before: seq<Any>, now: seq<Any>, done: set<nat>)
    requires Taken(base, before, now, done)
    ensures |now| == |base|
  {}

  /** cloneBlock without recurse. */
  method CopyBlock(o: Object, blk: Block, c: Object)
    requires o.Valid() && Members(blk) <= Members(o.block) && |c.varstack| == |o.varstack| && c != o
    modifies c
    ensures Taken(o.varstack, old(c.varstack), c.varstack, Members(blk))
    decreases blk
  {
    ghost var done: set<nat> := {};
    if blk.superblock.Some? {
      CopyBlock(o, blk.superblock.value, c);
      done := Members(blk.superblock.value);
    }
    hide Taken;
    TakenSize(o.varstack, old(c.varstack), c.varstack, done);
    ghost var inherited := done;
    var k := 0;
    while k < |blk.variables|
      invariant 0 <= k <= |blk.variables| && done == inherited + Offsets(blk.variables[..k]) && |c.varstack| == |o.varstack|
      invariant Taken(o.varstack, old(c.varstack), c.varstack, done)
    {
      var x := blk.variables[k];
      assert blk.variables[..k + 1] == blk.variables[..k] + [x];
      if !x.tag && !x.shared {
        assert x.offset in Members(o.block);
        TakenOne(o.varstack, old(c.varstack), c.varstack, done, x.offset);
        c.varstack := c.varstack[x.offset := o.varstack[x.offset]];
        done := done + {x.offset};
      }
      k := k + 1;
    }
    assert blk.variables[..k] == blk.variables;
  }
}

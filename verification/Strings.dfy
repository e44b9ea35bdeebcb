/** split and replace on strings. */
module Strings {
  import opened Values

  /** t stands in s at position i. */
  predicate Occurs(s: string, t: string, i: nat) {
    i + |t| <= |s| && s[i..i + |t|] == t
  }

  /** std::string::find: the first occurrence from pos on, or None for npos. */
  function Find(s: string, t: string, pos: nat): (r: Option<nat>)
    ensures r.Some? ==> pos <= r.value && Occurs(s, t, r.value)
    decreases |s| - pos
  {
    if pos + |t| > |s| then None else if s[pos..pos + |t|] == t then Some(pos) else Find(s, t, pos + 1)
  }

  lemma {:induction false} FindMinimal(s: string, t: string, pos: nat, i: nat)
    requires pos <= i && Occurs(s, t, i)
    ensures Find(s, t, pos).Some? && Find(s, t, pos).value <= i
    decreases i - pos
  {
    if s[pos..pos + |t|] != t { FindMinimal(s, t, pos + 1, i); }
  }

  function Join(ps: seq<string>, sep: string): string {
    if ps == [] then "" else if |ps| == 1 then ps[0] else ps[0] + sep + Join(ps[1..], sep)
  }

  /** The pieces between the separators, found from left to right. */
  function Split(s: string, sep: string): (r: seq<string>)
    requires sep != ""
    ensures |r| > 0
    decreases |s|
  {
    match Find(s, sep, 0)
    case None => [s]
    case Some(i) => [s[..i]] + Split(s[i + |sep|..], sep)
  }

  /** Joining the pieces with the separator gives the string back. */
  lemma {:induction false} JoinSplit(s: string, sep: string)
    requires sep != ""
    ensures Join(Split(s, sep), sep) == s
    decreases |s|
  {
    var f := Find(s, sep, 0);
    if f.Some? {
      var i := f.value;
      JoinSplit(s[i + |sep|..], sep);
      assert Split(s, sep)[1..] == Split(s[i + |sep|..], sep);
      assert s == s[..i] + s[i..i + |sep|] + s[i + |sep|..];
    }
  }

  ghost predicate Contains(s: string, t: string) {
    exists i: nat :: Occurs(s, t, i)
  }

  /** The pieces can be told apart: in each but the last, the separator behind it is the first. */
  ghost predicate Separable(ps: seq<string>, sep: string) {
    ps != [] && if |ps| == 1 then !Contains(ps[0], sep) else Find(ps[0] + sep, sep, 0) == Some(|ps[0]|) && Separable(ps[1..], sep)
  }

  /** No piece contains the separator. */
  lemma {:induction false} PiecesFree(ps: seq<string>, sep: string, k: nat)
    requires Separable(ps, sep) && k < |ps| && sep != ""
    ensures !Contains(ps[k], sep)
  {
    if k > 0 {
      PiecesFree(ps[1..], sep, k - 1);
    } else if |ps| > 1 && Contains(ps[0], sep) {
      var i: nat :| Occurs(ps[0], sep, i);
      assert (ps[0] + sep)[i..i + |sep|] == ps[0][i..i + |sep|];
      FindMinimal(ps[0] + sep, sep, 0, i);
    }
  }

  /** What stands before the first separator of s ends there in any string that continues it. */
  lemma FirstBefore(p: string, sep: string, rest: string)
    requires sep != ""
    ensures Find(p + sep, sep, 0) == Some(|p|) <==> Find(p + sep + rest, sep, 0) == Some(|p|)
  {
    hide Find;
    var s, t := p + sep, p + sep + rest;
    assert s[|p|..|p| + |sep|] == sep && t[|p|..|p| + |sep|] == sep;
    assert Occurs(s, sep, |p|) && Occurs(t, sep, |p|);
    FindMinimal(s, sep, 0, |p|);
    FindMinimal(t, sep, 0, |p|);
    var i, j := Find(s, sep, 0).value, Find(t, sep, 0).value;
    assert s[i..i + |sep|] == t[i..i + |sep|] && s[j..j + |sep|] == t[j..j + |sep|];
    FindMinimal(s, sep, 0, j);
    FindMinimal(t, sep, 0, i);
  }

  lemma {:induction false} SplitSeparable(s: string, sep: string)
    requires sep != ""
    ensures Separable(Split(s, sep), sep)
    decreases |s|
  {
    hide Find;
    var f := Find(s, sep, 0);
    if f.Some? {
      var p, rest := s[..f.value], s[f.value + |sep|..];
      SplitSeparable(rest, sep);
      assert s == p + sep + rest;
      FirstBefore(p, sep, rest);
      var ps := Split(s, sep);
      assert ps[0] == p && ps[1..] == Split(rest, sep);
    } else {
      NotContained(s, sep);
    }
  }

  lemma NotContained(s: string, sep: string)
    ensures Find(s, sep, 0).None? <==> !Contains(s, sep)
  {
    if Contains(s, sep) {
      var i: nat :| Occurs(s, sep, i);
      FindMinimal(s, sep, 0, i);
    }
  }

  /** Splitting inverts joining exactly for separable pieces. */
  lemma {:induction false} SplitJoin(ps: seq<string>, sep: string)
    requires sep != ""
    ensures Split(Join(ps, sep), sep) == ps <==> Separable(ps, sep)
  {
    if Separable(ps, sep) {
      SplitOfJoin(ps, sep);
    } else {
      SplitSeparable(Join(ps, sep), sep);
    }
  }

  lemma {:induction false} SplitOfJoin(ps: seq<string>, sep: string)
    requires sep != "" && Separable(ps, sep)
    ensures Split(Join(ps, sep), sep) == ps
  {
    var s := Join(ps, sep);
    if |ps| > 1 {
      var rest := Join(ps[1..], sep);
      FirstBefore(ps[0], sep, rest);
      SplitOfJoin(ps[1..], sep);
      assert s == ps[0] + sep + rest;
      assert s[..|ps[0]|] == ps[0] && s[|ps[0]| + |sep|..] == rest;
    } else {
      NotContained(s, sep);
    }
  }

  // ----- the loops -----

  lemma {:induction false} FindFrom(s: string, t: string, start: nat, pos: nat)
    requires start <= pos <= |s|
    ensures Find(s, t, pos).None? ==> Find(s[start..], t, pos - start) == None
    ensures Find(s, t, pos).Some? ==> Find(s, t, pos).value >= start && Find(s[start..], t, pos - start) == Some(Find(s, t, pos).value - start)
    decreases |s| - pos
  {
    if pos + |t| <= |s| {
      SliceOfTail(s, start, pos, |t|);
      if s[pos..pos + |t|] != t && pos < |s| { FindFrom(s, t, start, pos + 1); }
    }
  }

  lemma SliceOfTail(s: string, start: nat, pos: nat, n: nat)
    requires start <= pos && pos + n <= |s|
    ensures s[start..][pos - start..pos - start + n] == s[pos..pos + n]
  {}

  lemma Slices(s: string, start: nat, i: nat, n: nat)
    requires start <= i && i + n <= |s|
    ensures s[start..][..i - start] == s[start..i] && s[start..][i - start + n..] == s[i + n..]
  {}

  lemma SplitUnfold(s: string, sep: string)
    requires sep != ""
    ensures Split(s, sep) == match Find(s, sep, 0) { case None => [s] case Some(i) => [s[..i]] + Split(s[i + |sep|..], sep) }
  {}

  /** One round of the loop. */
  lemma SplitFrom(s: string, sep: string, oldi: nat)
    requires sep != "" && oldi <= |s|
    ensures Find(s, sep, oldi).None? ==> Split(s[oldi..], sep) == [s[oldi..]]
    ensures Find(s, sep, oldi).Some? ==>
              var i := Find(s, sep, oldi).value; Split(s[oldi..], sep) == [s[oldi..i]] + Split(s[i + |sep|..], sep)
  {
    hide Find, Split, Occurs;
    FindFrom(s, sep, oldi, oldi);
    var u := s[oldi..];
    SplitUnfold(u, sep);
    var f := Find(s, sep, oldi);
    if f.Some? {
      FindWithin(s, sep, oldi);
      Slices(s, oldi, f.value, |sep|);
    }
  }

  lemma FindWithin(s: string, t: string, pos: nat)
    requires Find(s, t, pos).Some?
    ensures pos <= Find(s, t, pos).value && Find(s, t, pos).value + |t| <= |s|
  {}

  /** split with a string as separator. */
  method SplitString(s: string, sep: string) returns (vec: seq<string>)
    requires sep != ""
    ensures vec == Split(s, sep)
  {
    hide Find, Split;
    vec := [];
    var i, oldi := Some(0), 0;
    assert s[0..] == s;
    while i.Some?
      invariant 0 <= oldi <= |s|
      invariant i.Some? ==> vec + Split(s[oldi..], sep) == Split(s, sep)
      invariant i.None? ==> vec == Split(s, sep)
      decreases i.Some?, |s| - oldi
    {
      SplitFrom(s, sep, oldi);
      i := Find(s, sep, oldi);
      if i.Some? {
        vec := vec + [s[oldi..i.value]];
        oldi := i.value + |sep|;
      } else {
        vec := vec + [s[oldi..]];
      }
    }
  }

  /** What replacing all occurrences of f by r gives. */
  function Replaced(s: string, f: string, r: string): string
    requires f != ""
  {
    Join(Split(s, f), r)
  }

  /** The first occurrence is replaced, then the rest of the string. */
  lemma ReplacedFirst(s: string, f: string, r: string)
    requires f != ""
    ensures Replaced(s, f, r) == match Find(s, f, 0) { case None => s case Some(i) => s[..i] + r + Replaced(s[i + |f|..], f, r) }
  {
    var g := Find(s, f, 0);
    if g.Some? {
      assert Split(s, f)[1..] == Split(s[g.value + |f|..], f);
    }
  }

  /** One round of the loop: what stands before oldi is final. */
  lemma ReplacedFrom(s: string, f: string, r: string, oldi: nat)
    requires f != "" && oldi <= |s|
    ensures Find(s, f, oldi).None? ==> s[..oldi] + Replaced(s[oldi..], f, r) == s
    ensures Find(s, f, oldi).Some? ==>
              var i := Find(s, f, oldi).value;
              i + |f| <= |s| && var s' := s[..i] + r + s[i + |f|..];
              s[..oldi] + Replaced(s[oldi..], f, r) == s'[..i + |r|] + Replaced(s'[i + |r|..], f, r)
  {
    hide Find, Replaced, Occurs;
    FindFrom(s, f, oldi, oldi);
    var u := s[oldi..];
    ReplacedFirst(u, f, r);
    var g := Find(s, f, oldi);
    if g.Some? {
      FindWithin(s, f, oldi);
      Slices(s, oldi, g.value, |f|);
      Rebuild(s, r, oldi, g.value, |f|, Replaced(s[g.value + |f|..], f, r));
    } else {
      assert s[..oldi] + s[oldi..] == s;
    }
  }

  lemma Rebuild(s: string, r: string, oldi: nat, i: nat, n: nat, tail: string)
    requires oldi <= i && i + n <= |s|
    ensures var s' := s[..i] + r + s[i + n..];
            s'[i + |r|..] == s[i + n..] && s[..oldi] + (s[oldi..i] + r + tail) == s'[..i + |r|] + tail
  {
    var s' := s[..i] + r + s[i + n..];
    assert s'[..i + |r|] == s[..i] + r;
    assert s[..oldi] + s[oldi..i] == s[..i];
  }

  /** replace: all occurrences, going on behind each replacement, or the first only. */
  method Replace(val: string, f: string, r: string, all: bool) returns (s: string)
    requires f != ""
    ensures all ==> s == Join(Split(val, f), r)
    ensures !all ==> s == match Find(val, f, 0) { case None => val case Some(i) => val[..i] + r + val[i + |f|..] }
  {
    hide Find, Split, Join, Occurs;
    s := val;
    if all {
      var i, oldi := Some(0), 0;
      assert s[0..] == s && s[..0] + Replaced(s, f, r) == Replaced(s, f, r);
      while i.Some?
        invariant 0 <= oldi <= |s|
        invariant i.Some? ==> s[..oldi] + Replaced(s[oldi..], f, r) == Replaced(val, f, r)
        invariant i.None? ==> s == Replaced(val, f, r)
        decreases i.Some?, |s| - oldi
      {
        ReplacedFrom(s, f, r, oldi);
        i := Find(s, f, oldi);
        if i.Some? {
          s := s[..i.value] + r + s[i.value + |f|..];
          oldi := i.value + |r|;
        }
      }
    } else {
      var i := Find(s, f, 0);
      if i.Some? {
        FindWithin(s, f, 0);
        s := s[..i.value] + r + s[i.value + |f|..];
      }
    }
  }

  /** Replacing a pattern by itself changes nothing. */
  lemma ReplacedByItself(s: string, f: string)
    requires f != ""
    ensures Replaced(s, f, f) == s
  {
    JoinSplit(s, f);
  }

  // ----- a character as separator -----

  /** std::string::find_first_not_of. */
  function SkipChar(s: string, c: char, pos: nat): (r: Option<nat>)
    requires pos <= |s|
    ensures r.Some? ==> pos <= r.value < |s| && s[r.value] != c
    ensures forall i :: pos <= i < (if r.Some? then r.value else |s|) ==> s[i] == c
    decreases |s| - pos
  {
    if pos == |s| then None else if s[pos] != c then Some(pos) else SkipChar(s, c, pos + 1)
  }

  /** Runs of the separator count as one, and nothing follows a run at the end. */
  function SplitRuns(s: string, c: char): seq<string>
    decreases |s|
  {
    match Find(s, [c], 0)
    case None => [s]
    case Some(i) =>
      match SkipChar(s, c, i)
      case None => [s[..i]]
      case Some(j) => if j > i then [s[..i]] + SplitRuns(s[j..], c) else [s[..i]]
  }

  function Concat(ps: seq<string>): string {
    if ps == [] then "" else ps[0] + Concat(ps[1..])
  }

  function Without(s: string, c: char): string {
    if s == "" then "" else (if s[0] == c then "" else [s[0]]) + Without(s[1..], c)
  }

  lemma {:induction false} WithoutParts(s: string, t: string, c: char)
    ensures Without(s + t, c) == Without(s, c) + Without(t, c)
  {
    if s == "" {
      assert s + t == t;
    } else {
      assert (s + t)[1..] == s[1..] + t;
      WithoutParts(s[1..], t, c);
    }
  }

  lemma {:induction false} WithoutNone(s: string, c: char)
    requires c !in s
    ensures Without(s, c) == s
  {
    if s != "" { WithoutNone(s[1..], c); }
  }

  lemma {:induction false} WithoutAll(s: string, c: char)
    requires forall i :: 0 <= i < |s| ==> s[i] == c
    ensures Without(s, c) == ""
  {
    if s != "" { WithoutAll(s[1..], c); }
  }

  lemma {:induction false} NotFound(s: string, c: char, pos: nat)
    requires pos <= |s|
    ensures match Find(s, [c], pos)
            case None => forall i :: pos <= i < |s| ==> s[i] != c
            case Some(j) => j < |s| && s[j] == c && forall i :: pos <= i < j ==> s[i] != c
    decreases |s| - pos
  {
    if pos < |s| {
      assert s[pos..pos + 1] == [s[pos]];
      if s[pos] != c { NotFound(s, c, pos + 1); }
    }
  }

  /** The string up to a run of separators, the run, and the rest. */
  lemma RunRemoved(s: string, c: char, i: nat, e: nat)
    requires i <= e <= |s| && (forall k :: 0 <= k < i ==> s[k] != c) && (forall k :: i <= k < e ==> s[k] == c)
    ensures Without(s, c) == s[..i] + Without(s[e..], c) && c !in s[..i]
  {
    hide Without;
    WithoutNone(s[..i], c);
    WithoutAll(s[i..e], c);
    WithoutParts(s[..i], s[i..e], c);
    assert s[..i] + s[i..e] == s[..e];
    WithoutParts(s[..e], s[e..], c);
    assert s[..e] + s[e..] == s;
    assert s[..i] + "" == s[..i];
  }

  /** No piece holds the separator, and only the first can be empty. */
  predicate Clean(ps: seq<string>, c: char, first: bool) {
    ps == [] || (c !in ps[0] && (first || ps[0] != "") && Clean(ps[1..], c, false))
  }

  /** The pieces together are the string without the separator. */
  lemma {:induction false} RunsRemoved(s: string, c: char)
    ensures Concat(SplitRuns(s, c)) == Without(s, c) && Clean(SplitRuns(s, c), c, s == "" || s[0] == c)
    decreases |s|
  {
    hide Find, SkipChar, Without;
    NotFound(s, c, 0);
    var f := Find(s, [c], 0);
    if f.None? {
      WithoutNone(s, c);
      assert Concat([s]) == s + Concat([s][1..]);
      assert [s][1..] == [];
    } else {
      var i := f.value;
      var j := SkipChar(s, c, i);
      var e := if j.Some? then j.value else |s|;
      RunRemoved(s, c, i, e);
      if j.Some? {
        assert e != i;
        RunsRemoved(s[e..], c);
        assert SplitRuns(s, c)[0] == s[..i] && SplitRuns(s, c)[1..] == SplitRuns(s[e..], c);
      } else {
        assert [s[..i]][1..] == [] && s[e..] == "";
        WithoutNone(s[e..], c);
      }
    }
  }

  lemma RunsUnfold(s: string, c: char)
    ensures SplitRuns(s, c) ==
            match Find(s, [c], 0)
            case None => [s]
            case Some(i) => [s[..i]] + (if SkipChar(s, c, i).Some? then SplitRuns(s[SkipChar(s, c, i).value..], c) else [])
  {
    NotFound(s, c, 0);
    var f := Find(s, [c], 0);
    if f.Some? && SkipChar(s, c, f.value).None? {
      assert [s[..f.value]] + [] == [s[..f.value]];
    }
  }

  /** One round of the loop. */
  lemma RunsFrom(s: string, c: char, oldi: nat)
    requires oldi <= |s|
    ensures SplitRuns(s[oldi..], c) ==
            match Find(s, [c], oldi)
            case None => [s[oldi..]]
            case Some(i) => [s[oldi..i]] + (if SkipChar(s, c, i).Some? then SplitRuns(s[SkipChar(s, c, i).value..], c) else [])
    ensures Find(s, [c], oldi).Some? && SkipChar(s, c, Find(s, [c], oldi).value).Some? ==> SkipChar(s, c, Find(s, [c], oldi).value).value > oldi
  {
    hide Find, SkipChar, SplitRuns, Occurs;
    FindFrom(s, [c], oldi, oldi);
    NotFound(s, c, oldi);
    RunsUnfold(s[oldi..], c);
    var f := Find(s, [c], oldi);
    if f.Some? {
      SkipFrom(s, c, oldi, f.value);
      FindWithin(s, [c], oldi);
      Slices(s, oldi, f.value, 0);
      var j := SkipChar(s, c, f.value);
      if j.Some? { Slices(s, oldi, j.value, 0); }
    }
  }

  /** split with a character as separator. */
  method SplitCharacter(s: string, c: char) returns (vec: seq<string>)
    ensures vec == SplitRuns(s, c)
  {
    hide Find, SkipChar, SplitRuns;
    vec := [];
    var i, oldi := Some(0), 0;
    assert s[0..] == s;
    while i.Some?
      invariant 0 <= oldi <= |s|
      invariant i.Some? ==> vec + SplitRuns(s[oldi..], c) == SplitRuns(s, c)
      invariant i.None? ==> vec == SplitRuns(s, c)
      decreases i.Some?, |s| - oldi
    {
      RunsFrom(s, c, oldi);
      i := Find(s, [c], oldi);
      if i.Some? {
        vec := vec + [s[oldi..i.value]];
        var j := SkipChar(s, c, i.value);
        if j.None? { break; }
        oldi := j.value;
      } else {
        vec := vec + [s[oldi..]];
      }
    }
  }

  lemma {:induction false} SkipFrom(s: string, c: char, start: nat, pos: nat)
    requires start <= pos <= |s|
    ensures SkipChar(s[start..], c, pos - start) == match SkipChar(s, c, pos) { case None => None case Some(j) => Some(j - start) }
    decreases |s| - pos
  {
    if pos < |s| && s[pos] == c { SkipFrom(s, c, start, pos + 1); }
  }
}

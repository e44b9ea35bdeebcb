/** Reference counts of operands: who holds an operand, and when it is freed. */
module Ownership {
  import opened Values

  /** The operand pointers of an instruction: the destination, then four sources; None is NULL. */
  type Slots = s: seq<Option<nat>> | |s| == 5 witness [None, None, None, None, None]

  const EMPTY: Slots := [None, None, None, None, None]

  function CountIn(s: seq<Option<nat>>, o: nat): nat {
    if s == [] then 0 else (if s[0] == Some(o) then 1 else 0) + CountIn(s[1..], o)
  }

  /** How many slots of the instruction cells hold operand o. */
  function Count(cells: seq<Slots>, o: nat): nat {
    if cells == [] then 0 else CountIn(cells[0], o) + Count(cells[1..], o)
  }

  /** Holders, and references in transit that no cell holds yet. */
  function Total(cells: seq<Slots>, transit: seq<Option<nat>>, o: nat): nat {
    Count(cells, o) + CountIn(transit, o)
  }

  lemma {:induction false} CountUpdate(cells: seq<Slots>, c: nat, s: Slots, o: nat)
    requires c < |cells|
    ensures Count(cells[c := s], o) + CountIn(cells[c], o) == Count(cells, o) + CountIn(s, o)
  {
    if c == 0 {
      assert cells[c := s][1..] == cells[1..];
    } else {
      assert cells[c := s][1..] == cells[1..][c - 1 := s];
      CountUpdate(cells[1..], c - 1, s, o);
    }
  }

  lemma {:induction false} CountInUpdate(s: seq<Option<nat>>, i: nat, x: Option<nat>, o: nat)
    requires i < |s|
    ensures CountIn(s[i := x], o) + (if s[i] == Some(o) then 1 else 0) == CountIn(s, o) + (if x == Some(o) then 1 else 0)
  {
    if i == 0 {
      assert s[i := x][1..] == s[1..];
    } else {
      assert s[i := x][1..] == s[1..][i - 1 := x];
      CountInUpdate(s[1..], i - 1, x, o);
    }
  }

  lemma {:induction false} CountInNext(s: seq<Option<nat>>, i: nat, o: nat)
    requires i < |s|
    ensures CountIn(s[..i + 1], o) == CountIn(s[..i], o) + (if s[i] == Some(o) then 1 else 0)
  {
    if i > 0 {
      assert s[..i + 1][1..] == s[1..][..i] && s[..i][1..] == s[1..][..i - 1];
      CountInNext(s[1..], i - 1, o);
    }
  }

  lemma {:induction false} AllNone(s: seq<Option<nat>>, o: nat)
    requires forall i :: 0 <= i < |s| ==> s[i] == None
    ensures CountIn(s, o) == 0
  {
    if s != [] { AllNone(s[1..], o); }
  }

  lemma CountInEmpty(o: nat)
    ensures CountIn(EMPTY, o) == 0 && CountIn([], o) == 0
  {
    AllNone(EMPTY, o);
  }

  /** One slot of one cell changes. */
  lemma SlotUpdate(cells: seq<Slots>, c: nat, i: nat, x: Option<nat>, o: nat)
    requires c < |cells| && i < 5
    ensures Count(cells[c := cells[c][i := x]], o) + (if cells[c][i] == Some(o) then 1 else 0)
         == Count(cells, o) + (if x == Some(o) then 1 else 0)
  {
    CountUpdate(cells, c, cells[c][i := x], o);
    CountInUpdate(cells[c], i, x, o);
  }

  /** Each live operand counts its holders; only live operands are held. */
  ghost predicate Balanced(cells: seq<Slots>, refs: map<nat, nat>, transit: seq<Option<nat>>) {
    && (forall o :: o in refs ==> refs[o] == Total(cells, transit, o))
    && (forall o: nat :: Total(cells, transit, o) > 0 ==> o in refs)
  }

  /** Whatever is live without a holder was live without a holder before: an operand whose last holder
      lets go of it is deleted. */
  ghost predicate NoGarbage(before: map<nat, nat>, refs: map<nat, nat>) {
    refs.Keys <= before.Keys && forall o :: o in refs && refs[o] == 0 ==> before[o] == 0
  }

  function Retained(refs: map<nat, nat>, o: nat): map<nat, nat> {
    if o in refs then refs[o := refs[o] + 1] else refs
  }

  /** The count goes down, and at zero the operand is deleted. */
  function Released(refs: map<nat, nat>, o: nat): map<nat, nat> {
    if o !in refs || refs[o] == 0 then refs
    else if refs[o] == 1 then map p | p in refs && p != o :: refs[p]
    else refs[o := refs[o] - 1]
  }

  lemma DropBalanced(cells: seq<Slots>, refs: map<nat, nat>, transit: seq<Option<nat>>, c: nat, i: nat)
    requires Balanced(cells, refs, transit) && c < |cells| && i < 5
    ensures var cells' := cells[c := cells[c][i := None]];
            var refs' := if cells[c][i].Some? then Released(refs, cells[c][i].value) else refs;
            Balanced(cells', refs', transit) && (cells[c][i].Some? ==> cells[c][i].value in refs && refs[cells[c][i].value] > 0)
  {
    var cells' := cells[c := cells[c][i := None]];
    var refs' := if cells[c][i].Some? then Released(refs, cells[c][i].value) else refs;
    forall o: nat ensures Total(cells', transit, o) == Total(cells, transit, o) - (if cells[c][i] == Some(o) then 1 else 0) {
      SlotUpdate(cells, c, i, None, o);
    }
  }

  /** Every operand of cell c is live. */
  lemma HeldIsLive(cells: seq<Slots>, refs: map<nat, nat>, transit: seq<Option<nat>>, c: nat, i: nat)
    requires Balanced(cells, refs, transit) && c < |cells| && i < 5 && cells[c][i].Some?
    ensures cells[c][i].value in refs
  {
    DropBalanced(cells, refs, transit, c, i);
  }

  lemma RetainBalanced(cells: seq<Slots>, refs: map<nat, nat>, s: Slots, i: nat)
    requires i < 5 && Balanced(cells, refs, s[..i]) && (s[i].Some? ==> s[i].value in refs)
    ensures Balanced(cells, if s[i].Some? then Retained(refs, s[i].value) else refs, s[..i + 1])
  {
    forall o: nat ensures Total(cells, s[..i + 1], o) == Total(cells, s[..i], o) + (if s[i] == Some(o) then 1 else 0) {
      CountInNext(s, i, o);
    }
  }

  /** References in transit become those of an empty cell. */
  lemma SettleBalanced(cells: seq<Slots>, refs: map<nat, nat>, s: Slots, c: nat)
    requires Balanced(cells, refs, s) && c < |cells| && cells[c] == EMPTY
    ensures Balanced(cells[c := s], refs, [])
  {
    forall o: nat ensures Total(cells[c := s], [], o) == Total(cells, s, o) {
      CountUpdate(cells, c, s, o);
      CountInEmpty(o);
    }
  }

  /** References that stay in transit are lost, unless there are none. */
  lemma LeakedTransit(cells: seq<Slots>, refs: map<nat, nat>, s: Slots)
    requires Balanced(cells, refs, s)
    ensures Balanced(cells, refs, []) <==> s == EMPTY
  {
    forall o: nat ensures CountIn([], o) == 0 && CountIn(EMPTY, o) == 0 { CountInEmpty(o); }
    if s == EMPTY {
      assert forall o: nat :: Total(cells, [], o) == Total(cells, s, o);
    } else {
      var i :| 0 <= i < 5 && s[i] != None;
      var o := s[i].value;
      CountInMember(s, i);
      assert Total(cells, s, o) > Total(cells, [], o);
    }
  }

  lemma {:induction false} CountInMember(s: seq<Option<nat>>, i: nat)
    requires i < |s| && s[i].Some?
    ensures CountIn(s, s[i].value) > 0
  {
    if i > 0 { CountInMember(s[1..], i - 1); }
  }

  class Instructions {
    var cells: seq<Slots>      // the instructions in memory; a destroyed one holds nothing
    var refs: map<nat, nat>    // the live operands and their reference counts

    /** Conservation: the count of a live operand is the number of slots that hold it. */
    ghost predicate Valid()
      reads this
    {
      Balanced(cells, refs, [])
    }

    constructor (n: nat)
      ensures Valid() && cells == seq(n, _ => EMPTY) && refs == map[]
    {
      cells, refs := seq(n, _ => EMPTY), map[];
      new;
      forall o: nat ensures Total(cells, [], o) == 0 { NothingHeld(cells, o); }
    }

    /** A new operand at a free address. */
    method NewOperand(o: nat)
      requires Valid() && o !in refs
      modifies this`refs
      ensures Valid() && refs == old(refs)[o := 0]
    {
      refs := refs[o := 0];
    }

    /** The destructor: every operand loses a reference, and is deleted with the last one. */
    method Destroy(c: nat, ghost transit: seq<Option<nat>>)
      requires Balanced(cells, refs, transit) && c < |cells|
      modifies this
      ensures Balanced(cells, refs, transit) && cells == old(cells)[c := EMPTY] && NoGarbage(old(refs), refs)
    {
      hide Balanced;
      var i := 0;
      while i < 5
        invariant 0 <= i <= 5 && Balanced(cells, refs, transit) && NoGarbage(old(refs), refs)
        invariant |cells| == |old(cells)| && cells == old(cells)[c := cells[c]]
        invariant forall j :: 0 <= j < 5 ==> cells[c][j] == if j < i then None else old(cells)[c][j]
      {
        var op := cells[c][i];
        DropBalanced(cells, refs, transit, c, i);
        if op.Some? {
          refs := Released(refs, op.value);
          cells := cells[c := cells[c][i := None]];
        } else {
          assert cells[c][i := None] == cells[c];
          assert cells[c := cells[c][i := None]] == cells;
        }
        i := i + 1;
      }
      assert forall j :: 0 <= j < 5 ==> cells[c][j] == EMPTY[j];
      assert cells[c] == EMPTY;
    }

    /** The first step of copying and assigning: one more reference for each operand of cell c. */
    method RetainAll(c: nat)
      requires Valid() && c < |cells|
      modifies this`refs
      ensures Balanced(cells, refs, cells[c]) && NoGarbage(old(refs), refs)
    {
      hide Balanced;
      ghost var s := cells[c];
      assert s[..0] == [];
      var i := 0;
      while i < 5
        invariant 0 <= i <= 5 && Balanced(cells, refs, s[..i]) && NoGarbage(old(refs), refs)
      {
        var op := cells[c][i];
        if op.Some? {
          HeldIsLive(cells, refs, s[..i], c, i);
        }
        RetainBalanced(cells, refs, s, i);
        if op.Some? {
          refs := Retained(refs, op.value);
        }
        i := i + 1;
      }
      assert s[..5] == s;
    }

    /** The copy constructor, into memory that holds no instruction. */
    method Copy(to: nat, from: nat)
      requires Valid() && to < |cells| && from < |cells| && cells[to] == EMPTY
      modifies this
      ensures Valid() && cells == old(cells)[to := old(cells)[from]] && NoGarbage(old(refs), refs)
    {
      hide Balanced;
      RetainAll(from);
      SettleBalanced(cells, refs, cells[from], to);
      cells := cells[to := cells[from]];
    }

    /** The assignment operator: retain the right side, destroy the left, copy.  Assigning an instruction
        to itself empties it, because the destructor has cleared the right side as well; the references
        retained first are never given back. */
    method Assign(to: nat, from: nat)
      requires Valid() && to < |cells| && from < |cells|
      modifies this
      ensures NoGarbage(old(refs), refs)
      ensures to != from ==> cells == old(cells)[to := old(cells)[from]]
      ensures to == from ==> cells == old(cells)[to := EMPTY] && Balanced(cells, refs, old(cells)[to])
      ensures Valid() <==> to != from || old(cells)[to] == EMPTY
    {
      hide Balanced;
      RetainAll(from);
      ghost var s := cells[from];
      Destroy(to, s);
      if to == from {
        LeakedTransit(cells, refs, s);
      } else {
        SettleBalanced(cells, refs, s, to);
      }
      cells := cells[to := cells[from]];
    }

    /** setDest and setOperand.  Setting the operand that is already there deletes it first when no
        other slot holds it; ok tells whether it survived. */
    method SetOperand(c: nat, i: nat, o: nat) returns (ok: bool)
      requires Valid() && c < |cells| && i < 5 && o in refs
      modifies this
      ensures ok <==> !(old(cells)[c][i] == Some(o) && old(refs)[o] == 1)
      ensures ok ==> Valid() && cells == old(cells)[c := old(cells)[c][i := Some(o)]] && NoGarbage(old(refs), refs)
    {
      DropBalanced(cells, refs, [], c, i);
      if cells[c][i].Some? {
        refs := Released(refs, cells[c][i].value);
      }
      ok := o in refs;
      if ok {
        cells := cells[c := cells[c][i := None]];
        FillBalanced(cells, refs, c, i, o);
        assert cells[c][i := Some(o)] == old(cells)[c][i := Some(o)];
        cells := cells[c := cells[c][i := Some(o)]];
        refs := Retained(refs, o);
      }
    }
  }

  lemma FillBalanced(cells: seq<Slots>, refs: map<nat, nat>, c: nat, i: nat, o: nat)
    requires Balanced(cells, refs, []) && c < |cells| && i < 5 && cells[c][i] == None && o in refs
    ensures Balanced(cells[c := cells[c][i := Some(o)]], Retained(refs, o), [])
  {
    forall p: nat ensures Total(cells[c := cells[c][i := Some(o)]], [], p) == Total(cells, [], p) + (if p == o then 1 else 0) {
      SlotUpdate(cells, c, i, Some(o), p);
    }
  }

  lemma {:induction false} NothingHeld(cells: seq<Slots>, o: nat)
    requires forall c :: 0 <= c < |cells| ==> cells[c] == EMPTY
    ensures Total(cells, [], o) == 0
    decreases |cells|
  {
    CountInEmpty(o);
    if cells != [] {
      NothingHeld(cells[1..], o);
    }
  }
}

/** The code builder with its labels and fixups (pkg/il/builder.go). */
module Builders {
  import opened StringTables
  import opened Decimals

  /** The state of a builder, and of the string table it interns into. */
  datatype View = View(body: seq<nat>, labels: map<string, nat>, fixups: map<string, seq<nat>>, tab: seq<string>)

  function LabelName(n: nat): string {
    "L" + Decimal(n)
  }

  /** The number of labels allocated so far. */
  function LabelCount(b: View): nat {
    |b.labels| + |b.fixups|
  }

  ghost predicate NamedBelow(l: string, n: nat) {
    exists i: nat :: i < n && l == LabelName(i)
  }

  /** Labels are numbered in order of allocation, and no label is both set and waiting. */
  ghost predicate Numbered(labels: set<string>, waiting: set<string>) {
    && labels !! waiting
    && forall l :: l in labels + waiting ==> NamedBelow(l, |labels| + |waiting|)
  }

  /** Every place to fix up lies within the body. */
  ghost predicate Within(fixups: map<string, seq<nat>>, n: nat) {
    forall l :: l in fixups ==> PositionsBelow(fixups[l], n)
  }

  ghost predicate PositionsBelow(ps: seq<nat>, n: nat) {
    forall i :: 0 <= i < |ps| ==> ps[i] < n
  }

  ghost predicate WellFormed(b: View) {
    Numbered(b.labels.Keys, b.fixups.Keys) && Within(b.fixups, |b.body|)
  }

  lemma FreshLabel(b: View)
    requires WellFormed(b)
    ensures LabelName(LabelCount(b)) !in b.labels && LabelName(LabelCount(b)) !in b.fixups
  {
    var l := LabelName(LabelCount(b));
    if l in b.labels.Keys + b.fixups.Keys {
      var i: nat :| i < LabelCount(b) && l == LabelName(i);
      assert LabelName(i)[1..] == Decimal(i) && l[1..] == Decimal(LabelCount(b));
      DecimalInjective(i, LabelCount(b));
    }
  }

  /** Writes an address at each of the positions. */
  function Patch(ws: seq<nat>, ps: seq<nat>, adr: nat): (r: seq<nat>)
    requires PositionsBelow(ps, |ws|)
    ensures |r| == |ws|
    decreases |ps|
  {
    if ps == [] then ws
    else
      assert ps[|ps| - 1] < |ws|;
      Patch(ws, ps[..|ps| - 1], adr)[ps[|ps| - 1] := adr]
  }

  // The effect of the label operations on the state.

  function AfterAllocate(b: View): View {
    b.(fixups := b.fixups[LabelName(LabelCount(b)) := []])
  }

  function AfterJump(b: View, op: nat, l: string): View
    requires l in b.fixups
  {
    b.(body := b.body + [op, 0], fixups := b.fixups[l := b.fixups[l] + [|b.body| + 1]])
  }

  function AfterSetLabel(b: View, l: string): View
    requires l in b.fixups && PositionsBelow(b.fixups[l], |b.body|)
  {
    b.(body := Patch(b.body, b.fixups[l], |b.body|), labels := b.labels[l := |b.body|], fixups := b.fixups - {l})
  }

  // The same for any label, allocated or not.

  /** The places that wait for a label. */
  function Waiting(b: View, l: string): seq<nat> {
    if l in b.fixups then b.fixups[l] else []
  }

  /**
   A label at position 0 reads as one that is not set, and waits on; the word written is its position all the same.
   */
  function AfterAnyJump(b: View, op: nat, l: string): View {
    var adr := if l in b.labels then b.labels[l] else 0;
    var b' := b.(body := b.body + [op, adr]);
    if adr != 0 then b' else b'.(fixups := b.fixups[l := Waiting(b, l) + [|b.body| + 1]])
  }

  function AfterAnySet(b: View, l: string): View
    requires PositionsBelow(Waiting(b, l), |b.body|)
  {
    b.(body := Patch(b.body, Waiting(b, l), |b.body|), labels := b.labels[l := |b.body|], fixups := b.fixups - {l})
  }

  lemma WaitingWithin(b: View, l: string)
    requires Within(b.fixups, |b.body|)
    ensures PositionsBelow(Waiting(b, l), |b.body|)
  {
  }

  lemma AnyJumpFits(b: View, op: nat, l: string)
    requires Within(b.fixups, |b.body|)
    ensures var b' := AfterAnyJump(b, op, l); Within(b'.fixups, |b'.body|)
  {
  }

  lemma MoreNames(l: string, m: nat, n: nat)
    requires NamedBelow(l, m) && m <= n
    ensures NamedBelow(l, n)
  {
    var i: nat :| i < m && l == LabelName(i);
    assert i < n && l == LabelName(i);
  }

  lemma NumberedNew(labels: set<string>, waiting: set<string>, l: string)
    requires Numbered(labels, waiting) && l == LabelName(|labels| + |waiting|) && l !in labels + waiting
    ensures Numbered(labels, waiting + {l})
  {
    hide LabelName;
    var n := |labels| + |waiting|;
    assert |waiting + {l}| == |waiting| + 1;
    forall x | x in labels + (waiting + {l}) ensures NamedBelow(x, n + 1) {
      if x != l { MoreNames(x, n, n + 1); }
    }
  }

  lemma NumberedMove(labels: set<string>, waiting: set<string>, l: string)
    requires Numbered(labels, waiting) && l in waiting
    ensures Numbered(labels + {l}, waiting - {l})
    ensures |labels + {l}| + |waiting - {l}| == |labels| + |waiting|
  {
    hide NamedBelow;
    assert |labels + {l}| == |labels| + 1 && |waiting - {l}| == |waiting| - 1;
    forall x | x in (labels + {l}) + (waiting - {l}) ensures NamedBelow(x, |labels + {l}| + |waiting - {l}|) {
      assert x in labels + waiting;
    }
  }

  lemma AllocateKeeps(b: View)
    requires WellFormed(b)
    ensures WellFormed(AfterAllocate(b)) && LabelCount(AfterAllocate(b)) == LabelCount(b) + 1
  {
    hide LabelName, PositionsBelow, Numbered;
    FreshLabel(b);
    var b', l := AfterAllocate(b), LabelName(LabelCount(b));
    assert b'.fixups.Keys == b.fixups.Keys + {l};
    NumberedNew(b.labels.Keys, b.fixups.Keys, l);
    NoPositions(|b'.body|);
  }

  lemma NoPositions(n: nat)
    ensures PositionsBelow([], n)
  {
  }

  lemma MorePositions(ps: seq<nat>, m: nat, n: nat)
    requires PositionsBelow(ps, m) && m <= n
    ensures PositionsBelow(ps, n)
    ensures m < n ==> PositionsBelow(ps + [m], n)
  {
  }

  lemma EmitKeeps(b: View, ws: seq<nat>, tab: seq<string>)
    requires WellFormed(b)
    ensures WellFormed(b.(body := b.body + ws)) && WellFormed(b.(tab := tab))
  {
    hide Numbered, PositionsBelow;
    forall l | l in b.fixups ensures PositionsBelow(b.fixups[l], |b.body + ws|) {
      MorePositions(b.fixups[l], |b.body|, |b.body + ws|);
    }
  }

  lemma InOneTable(b: View, l: string)
    requires WellFormed(b)
    ensures !(l in b.labels && l in b.fixups)
  {
  }

  lemma JumpKeeps(b: View, op: nat, l: string)
    requires WellFormed(b) && l in b.fixups
    ensures WellFormed(AfterJump(b, op, l)) && LabelCount(AfterJump(b, op, l)) == LabelCount(b)
  {
    hide Numbered, PositionsBelow;
    var b' := AfterJump(b, op, l);
    assert b'.fixups.Keys == b.fixups.Keys;
    forall x | x in b'.fixups ensures PositionsBelow(b'.fixups[x], |b'.body|) {
      MorePositions(b.fixups[x], |b.body|, |b'.body|);
      MorePositions(b.fixups[x], |b.body| + 1, |b'.body|) by { MorePositions(b.fixups[x], |b.body|, |b.body| + 1); }
    }
  }

  lemma SetLabelKeeps(b: View, l: string)
    requires WellFormed(b) && l in b.fixups
    ensures PositionsBelow(b.fixups[l], |b.body|)
    ensures WellFormed(AfterSetLabel(b, l)) && LabelCount(AfterSetLabel(b, l)) == LabelCount(b)
  {
    hide Numbered, Patch, PositionsBelow;
    var b' := AfterSetLabel(b, l);
    assert b'.fixups.Keys == b.fixups.Keys - {l} && b'.labels.Keys == b.labels.Keys + {l};
    NumberedMove(b.labels.Keys, b.fixups.Keys, l);
  }

  class Builder {
    const strings: StringTable
    var body: seq<nat>
    var labels: map<string, nat>
    var fixups: map<string, seq<nat>>

    ghost predicate Valid()
      reads this, strings
    {
      strings.Valid() && WellFormed(Now())
    }

    ghost function Now(): View
      requires strings.Valid()
      reads this, strings
    {
      View(body, labels, fixups, strings.Contents())
    }

    constructor (s: StringTable)
      requires s.Valid()
      ensures Valid() && strings == s && Now() == View([], map[], map[], s.Contents())
    {
      strings := s;
      body, labels, fixups := [], map[], map[];
    }

    method Op0(op: nat)
      requires Valid()
      modifies this
      ensures Valid() && Now() == old(Now()).(body := old(body) + [op])
    {
      hide WellFormed;
      EmitKeeps(Now(), [op], []);
      body := body + [op];
    }

    method Op1(op: nat, p1: nat)
      requires Valid()
      modifies this
      ensures Valid() && Now() == old(Now()).(body := old(body) + [op, p1])
    {
      hide WellFormed;
      EmitKeeps(Now(), [op, p1], []);
      body := body + [op];
      body := body + [p1];
      assert body == old(body) + [op, p1];
    }

    method Op2(op: nat, p1: nat, p2: nat)
      requires Valid()
      modifies this
      ensures Valid() && Now() == old(Now()).(body := old(body) + [op, p1, p2])
    {
      hide WellFormed;
      EmitKeeps(Now(), [op, p1, p2], []);
      body := body + [op];
      body := body + [p1];
      body := body + [p2];
      assert body == old(body) + [op, p1, p2];
    }

    method Id(s: string) returns (id: nat)
      requires Valid()
      modifies strings
      ensures Valid() && Now() == old(Now()).(tab := Intern(old(strings.Contents()), s))
      ensures id == IndexOf(strings.Contents(), s)
    {
      hide WellFormed;
      EmitKeeps(Now(), [], Intern(strings.Contents(), s));
      id := strings.GetID(s);
    }

    method AllocateLabel() returns (l: string)
      requires Valid()
      modifies this
      ensures Valid() && Now() == AfterAllocate(old(Now()))
      ensures l == LabelName(LabelCount(old(Now()))) && l !in old(fixups) && l !in labels
    {
      hide WellFormed;
      FreshLabel(Now());
      AllocateKeeps(Now());
      l := LabelName(|labels| + |fixups|);
      fixups := fixups[l := []];
    }

    /** The places to fix up lie within the body; labels may have any names. */
    ghost predicate Fits()
      reads this, strings
    {
      strings.Valid() && Within(fixups, |body|)
    }

    /** Sets a label to the current position, and fixes up the jumps that wait for it; to set one twice is a panic. */
    method SetLabelPos(l: string) returns (ok: bool)
      requires Fits()
      modifies this
      ensures Fits() && ok == (l !in old(labels))
      ensures PositionsBelow(Waiting(old(Now()), l), |old(body)|)
      ensures Now() == if ok then AfterAnySet(old(Now()), l) else old(Now())
    {
      WaitingWithin(Now(), l);
      if l in labels { return false; }
      var adr := |body|;
      labels := labels[l := adr];
      if l in fixups {
        var ps, k := fixups[l], 0;
        while k < |ps|
          invariant k <= |ps| && ps == old(fixups[l]) && fixups == old(fixups) && labels == old(labels)[l := adr]
          invariant strings.Contents() == old(strings.Contents())
          invariant |body| == adr && body == Patch(old(body), ps[..k], adr)
        {
          assert ps[..k + 1][..k] == ps[..k] && ps[..k + 1][k] == ps[k];
          body := body[ps[k] := adr];
          k := k + 1;
        }
        assert ps[..k] == ps;
        fixups := fixups - {l};
      } else {
        assert fixups == fixups - {l};
      }
      ok := true;
    }

    /** A jump to a label: to its position if it has one, otherwise to be fixed up. */
    method Jump(op: nat, l: string)
      requires Fits()
      modifies this
      ensures Fits() && Now() == AfterAnyJump(old(Now()), op, l)
    {
      AnyJumpFits(Now(), op, l);
      var adr := if l in labels then labels[l] else 0;
      body := body + [op];
      body := body + [adr];
      assert body == old(body) + [op, adr];
      if adr == 0 {
        fixups := fixups[l := (if l in fixups then fixups[l] else []) + [|body| - 1]];
      }
    }

    // As the generator uses them, on labels that were allocated and are not set yet.

    method SetAllocated(l: string)
      requires Valid() && l in fixups
      modifies this
      ensures Valid() && Now() == AfterSetLabel(old(Now()), l)
    {
      hide Patch, Within, Numbered;
      SetLabelKeeps(Now(), l);
      InOneTable(Now(), l);
      var ok := SetLabelPos(l);
    }

    method JumpTo(op: nat, l: string)
      requires Valid() && l in fixups
      modifies this
      ensures Valid() && Now() == AfterJump(old(Now()), op, l)
    {
      hide Within, Numbered;
      JumpKeeps(Now(), op, l);
      InOneTable(Now(), l);
      Jump(op, l);
    }
  }
}

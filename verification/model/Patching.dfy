/** What back-patching does to emitted code. */
module Patching {
  import opened Values
  import opened StringTables
  import opened Code
  import opened Expressions
  import opened CodeGen
  import opened Builders

  /** The positions of the operands that wait for the open label. */
  function Exits(c: Code, base: nat): seq<nat> {
    match c
    case Nil => []
    case One(it) => if it.Exit? then [base + 1] else []
    case Cat(a, b) => Exits(a, base) + Exits(b, base + Size(a))
  }

  lemma {:induction false} ExitsWithin(c: Code, base: nat, n: nat)
    requires base + Size(c) <= n
    ensures PositionsBelow(Exits(c, base), n)
    ensures Closed(c) ==> Exits(c, base) == []
    decreases c
  {
    if c.Cat? {
      ExitsWithin(c.a, base, n);
      ExitsWithin(c.b, base + Size(c.a), n);
    }
  }

  lemma {:induction false} PatchConcat(ws: seq<nat>, p: seq<nat>, q: seq<nat>, adr: nat)
    requires PositionsBelow(p, |ws|) && PositionsBelow(q, |ws|)
    ensures PositionsBelow(p + q, |ws|)
    ensures Patch(ws, p + q, adr) == Patch(Patch(ws, p, adr), q, adr)
    decreases |q|
  {
    if q == [] {
      assert p + q == p;
    } else {
      var q' := q[..|q| - 1];
      assert (p + q)[..|p + q| - 1] == p + q' && (p + q)[|p + q| - 1] == q[|q| - 1];
      PatchConcat(ws, p, q', adr);
    }
  }

  /** Two sequences of words agree on a stretch. */
  ghost predicate Same(ws: seq<nat>, ws': seq<nat>, from: nat, to: nat) {
    to <= |ws| && to <= |ws'| && forall i :: from <= i < to ==> ws[i] == ws'[i]
  }

  /** Code stays where it is while other words change. */
  lemma {:induction false} AtSame(ws: seq<nat>, ws': seq<nat>, base: nat, c: Code)
    requires At(ws, base, c) && Same(ws, ws', base, base + Size(c))
    ensures At(ws', base, c)
    decreases c
  {
    if c.Cat? {
      AtSame(ws, ws', base, c.a);
      AtSame(ws, ws', base + Size(c.a), c.b);
    }
  }

  /** Writing an address into the exits of a piece of code closes it, and changes nothing else. */
  lemma {:induction false} PatchCloses(ws: seq<nat>, base: nat, c: Code, k: nat)
    requires At(ws, base, c) && base + Size(c) <= |ws|
    ensures PositionsBelow(Exits(c, base), |ws|)
    ensures var r := Patch(ws, Exits(c, base), base + Size(c) + k);
      At(r, base, Close(c, k)) && Same(ws, r, 0, base) && Same(ws, r, base + Size(c), |ws|)
    decreases c
  {
    hide Patch, PositionsBelow, At, Same, Exits, Close, Size;
    match c
    case Nil => PatchNothing(ws, base, k);
    case One(it) => PatchItem(ws, base, it, k);
    case Cat(a, b) =>
      var mid, adr := base + Size(a), base + Size(c) + k;
      CatParts(a, b, base, k);
      AtPair(ws, base, a, b);
      PatchCloses(ws, base, a, Size(b) + k);
      var r := Patch(ws, Exits(a, base), adr);
      SameParts(ws, r, mid, base + Size(c), |ws|);
      AtSame(ws, r, mid, b);
      PatchCloses(r, mid, b, k);
      var r' := Patch(r, Exits(b, mid), adr);
      SameParts(r, r', 0, base, mid);
      AtSame(r, r', base, Close(a, Size(b) + k));
      SameTrans(ws, r, r', 0, base);
      SameTrans(ws, r, r', base + Size(c), |ws|);
      ExitsWithin(b, mid, |ws|);
      PatchConcat(ws, Exits(a, base), Exits(b, mid), adr);
      AtCat(r', base, Close(a, Size(b) + k), Close(b, k));
  }

  lemma CatParts(a: Code, b: Code, base: nat, k: nat)
    ensures Size(Cat(a, b)) == Size(a) + Size(b)
    ensures Exits(Cat(a, b), base) == Exits(a, base) + Exits(b, base + Size(a))
    ensures Close(Cat(a, b), k) == Cat(Close(a, Size(b) + k), Close(b, k))
  {
  }

  lemma PatchNothing(ws: seq<nat>, base: nat, k: nat)
    requires base <= |ws|
    ensures PositionsBelow(Exits(Nil, base), |ws|) && Patch(ws, Exits(Nil, base), base + Size(Nil) + k) == ws
    ensures Same(ws, ws, 0, base) && Same(ws, ws, base + Size(Nil), |ws|) && At(ws, base, Close(Nil, k))
  {
  }

  lemma SameParts(ws: seq<nat>, ws': seq<nat>, i: nat, j: nat, k: nat)
    requires Same(ws, ws', i, k) && i <= j <= k
    ensures Same(ws, ws', i, j) && Same(ws, ws', j, k)
  {
  }

  lemma SameTrans(ws: seq<nat>, ws': seq<nat>, ws'': seq<nat>, i: nat, j: nat)
    requires Same(ws, ws', i, j) && Same(ws', ws'', i, j)
    ensures Same(ws, ws'', i, j)
  {
  }

  lemma PatchItem(ws: seq<nat>, base: nat, it: Item, k: nat)
    requires At(ws, base, One(it))
    ensures PositionsBelow(Exits(One(it), base), |ws|)
    ensures var r := Patch(ws, Exits(One(it), base), base + Size(One(it)) + k);
      At(r, base, Close(One(it), k)) && Same(ws, r, 0, base) && Same(ws, r, base + Size(One(it)), |ws|)
  {
    if it.Exit? {
      var ps := [base + 1];
      assert ps[..|ps| - 1] == [];
      assert Patch(ws, ps, base + 2 + k) == ws[base + 1 := base + 2 + k];
    }
  }

  /** The code only depends on the ids of the strings in the expression. */
  lemma {:induction false} GenStable(e: Expr, types: Vocabulary, tab: seq<string>, tab': seq<string>, depth: nat,
          mode: Mode)
    requires EvalType(e, types).Some? && tab <= tab' && forall x :: x in StringsOf(e) ==> x in tab
    ensures Gen(e, Context(types, tab), depth, mode) == Gen(e, Context(types, tab'), depth, mode)
    decreases e, 1
  {
    if e.Fn? {
      StringsOfParts(e, tab);
      if e.op.OR? {
        GenStable(e.l, types, tab, tab', depth + 1, NmJmpOnValue);
        GenStable(e.r, types, tab, tab', depth + 1, OrRightMode(e.r, mode));
        OrStable(e, types, tab, tab', depth, mode);
      } else if e.op.INDEX? {
        GenStable(e.l, types, tab, tab', depth + 1, mode);
        GenStable(e.r, types, tab, tab', depth + 1, mode);
        IndexStable(e, types, tab, tab', depth, mode);
      } else if e.op in {EQ, NEQ} {
        EqStable(e, types, tab, tab', if e.op.EQ? then depth else depth + 1);
      } else {
        GenStable(e.l, types, tab, tab', depth + 1, NmNone);
        GenStable(e.r, types, tab, tab', depth + 1, NmNone);
        LogicStable(e, types, tab, tab', depth, mode);
      }
    } else if e.Var? {
      IdStable(tab, tab', e.name);
    } else if e.v.Str? {
      IdStable(tab, tab', e.v.s);
    }
  }

  lemma StringsOfParts(e: Expr, tab: seq<string>)
    requires e.Fn? && forall x :: x in StringsOf(e) ==> x in tab
    ensures forall x :: x in StringsOf(e.l) || x in StringsOf(e.r) ==> x in tab
  {
    assert forall x :: x in StringsOf(e.l) || x in StringsOf(e.r) ==> x in StringsOf(e);
  }

  lemma OrStable(e: Expr, types: Vocabulary, tab: seq<string>, tab': seq<string>, depth: nat, mode: Mode)
    requires EvalType(e, types).Some? && e.Fn? && e.op.OR?
    requires Gen(e.l, Context(types, tab), depth + 1, NmJmpOnValue) ==
      Gen(e.l, Context(types, tab'), depth + 1, NmJmpOnValue)
    requires Gen(e.r, Context(types, tab), depth + 1, OrRightMode(e.r, mode)) ==
      Gen(e.r, Context(types, tab'), depth + 1, OrRightMode(e.r, mode))
    ensures Gen(e, Context(types, tab), depth, mode) == Gen(e, Context(types, tab'), depth, mode)
  {
    hide Close;
  }

  lemma IndexStable(e: Expr, types: Vocabulary, tab: seq<string>, tab': seq<string>, depth: nat, mode: Mode)
    requires EvalType(e, types).Some? && e.Fn? && e.op.INDEX? && tab <= tab'
    requires Gen(e.l, Context(types, tab), depth + 1, mode) == Gen(e.l, Context(types, tab'), depth + 1, mode)
    requires Gen(e.r, Context(types, tab), depth + 1, mode) == Gen(e.r, Context(types, tab'), depth + 1, mode)
    requires forall x :: x in StringsOf(e.r) ==> x in tab
    ensures Gen(e, Context(types, tab), depth, mode) == Gen(e, Context(types, tab'), depth, mode)
  {
    hide Close;
    if mode.NmNone? {
      if e.r.Const? && e.r.v.Str? { assert e.r.v.s in StringsOf(e.r); IdStable(tab, tab', e.r.v.s); }
    } else {
      assert KeyCode(e, Context(types, tab), depth) == KeyCode(e, Context(types, tab'), depth);
    }
  }

  lemma LogicStable(e: Expr, types: Vocabulary, tab: seq<string>, tab': seq<string>, depth: nat, mode: Mode)
    requires EvalType(e, types).Some? && e.Fn? && e.op in {LAND, LOR}
    requires Gen(e.l, Context(types, tab), depth + 1, NmNone) == Gen(e.l, Context(types, tab'), depth + 1, NmNone)
    requires Gen(e.r, Context(types, tab), depth + 1, NmNone) == Gen(e.r, Context(types, tab'), depth + 1, NmNone)
    ensures Gen(e, Context(types, tab), depth, mode) == Gen(e, Context(types, tab'), depth, mode)
  {
  }

  lemma {:induction false} EqStable(e: Expr, types: Vocabulary, tab: seq<string>, tab': seq<string>, depth: nat)
    requires EvalType(e, types).Some? && tab <= tab' && e.Fn? && e.op in {EQ, NEQ}
    requires forall x :: x in StringsOf(e.l) || x in StringsOf(e.r) ==> x in tab
    ensures GenEq(e, Context(types, tab), depth) == GenEq(e, Context(types, tab'), depth)
    decreases e, 0
  {
    if e.r.Const? && e.r.v.Str? { assert e.r.v.s in StringsOf(e.r); IdStable(tab, tab', e.r.v.s); }
    GenStable(e.l, types, tab, tab', depth + 1, NmNone);
    GenStable(e.r, types, tab, tab', depth + 1, NmNone);
  }
}

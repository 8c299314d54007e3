/** How the operations of a builder place code, and how that composes. */
module Placing {
  import opened Code
  import opened Builders
  import opened Patching

  /** From `b` to `b'` exactly the code `c` was appended. */
  ghost predicate Placed(b: View, b': View, c: Code) {
    && |b'.body| == |b.body| + Size(c) && Same(b.body, b'.body, 0, |b.body|)
    && At(b'.body, |b.body|, c) && b.tab <= b'.tab
  }

  /** The labels that were waiting still are, and only `l` waits at more places, `ps`. */
  ghost predicate Waits(b: View, b': View, l: string, ps: seq<nat>) {
    forall x :: x in b.fixups ==> x in b'.fixups && b'.fixups[x] == b.fixups[x] + (if x == l then ps else [])
  }

  /** Code was appended whose exits wait for `l`. */
  ghost predicate Grew(b: View, b': View, c: Code, l: string) {
    Placed(b, b', c) && Waits(b, b', l, Exits(c, |b.body|))
  }

  lemma PlacedCat(b: View, b1: View, b2: View, c1: Code, c2: Code)
    requires Placed(b, b1, c1) && Placed(b1, b2, c2)
    ensures Placed(b, b2, Cat(c1, c2))
  {
    hide At, Same, Size, Exits, Close;
    CatParts(c1, c2, 0, 0);
    PrefixTrans(b.tab, b1.tab, b2.tab);
    SameParts(b1.body, b2.body, 0, |b.body|, |b1.body|);
    SameTrans(b.body, b1.body, b2.body, 0, |b.body|);
    AtSame(b1.body, b2.body, |b.body|, c1);
    AtCat(b2.body, |b.body|, c1, c2);
  }

  lemma PrefixTrans(x: seq<string>, y: seq<string>, z: seq<string>)
    requires x <= y && y <= z
    ensures x <= z
  {
  }

  lemma WaitsTwice(b: View, b1: View, b2: View, l: string, p: seq<nat>, q: seq<nat>)
    requires Waits(b, b1, l, p) && Waits(b1, b2, l, q)
    ensures Waits(b, b2, l, p + q)
  {
    forall x | x in b.fixups ensures x in b2.fixups && b2.fixups[x] == b.fixups[x] + (if x == l then p + q else []) {
      if x == l {
        assert b.fixups[x] + p + q == b.fixups[x] + (p + q);
      } else {
        assert b.fixups[x] + [] == b.fixups[x];
      }
    }
  }

  lemma WaitsNothing(b: View, b': View, l: string, l': string)
    requires Waits(b, b', l, [])
    ensures Waits(b, b', l', [])
  {
  }

  lemma PlacedSize(b: View, b': View, c: Code)
    requires Placed(b, b', c)
    ensures |b'.body| == |b.body| + Size(c) && b.tab <= b'.tab
  {
  }

  lemma GrewCat(b: View, b1: View, b2: View, c1: Code, c2: Code, l: string)
    requires Grew(b, b1, c1, l) && Grew(b1, b2, c2, l)
    ensures Grew(b, b2, Cat(c1, c2), l)
  {
    hide Placed, Waits, Size, Exits, Close;
    PlacedSize(b, b1, c1);
    PlacedCat(b, b1, b2, c1, c2);
    CatParts(c1, c2, |b.body|, 0);
    WaitsTwice(b, b1, b2, l, Exits(c1, |b.body|), Exits(c2, |b1.body|));
  }

  /** Closed code waits for no label, so the label does not matter. */
  lemma GrewClosed(b: View, b': View, c: Code, l: string, l': string)
    requires Grew(b, b', c, l) && Closed(c)
    ensures Grew(b, b', c, l')
  {
    hide At, Same, Waits;
    ExitsWithin(c, |b.body|, |b.body| + Size(c));
    WaitsNothing(b, b', l, l');
  }

  lemma GrewItem(b: View, ws: seq<nat>, it: Item, l: string)
    requires !it.Exit? && !it.Jump? && ws == Encode(it, 0)
    ensures Grew(b, b.(body := b.body + ws), One(it), l)
  {
  }

  lemma GrewIntern(b: View, tab: seq<string>, l: string)
    requires b.tab <= tab
    ensures Grew(b, b.(tab := tab), Nil, l)
  {
  }

  lemma GrewJump(b: View, op: nat, l: string)
    requires l in b.fixups
    ensures Grew(b, AfterJump(b, op, l), One(Exit(op)), l)
  {
  }

  /** Seen from another label, a jump that waits is an instruction with operand 0. */
  lemma JumpElsewhere(b: View, op: nat, l: string)
    requires l in b.fixups
    ensures Placed(b, AfterJump(b, op, l), One(Op1(op, 0)))
    ensures AfterJump(b, op, l).fixups == b.fixups[l := b.fixups[l] + [|b.body| + 1]]
  {
  }

  lemma HoleIsExit(ws: seq<nat>, base: nat, op: nat)
    ensures At(ws, base, One(Op1(op, 0))) <==> At(ws, base, One(Exit(op)))
  {
  }

  /** Setting a label closes the code that waits for it. */
  lemma SetPlaced(b: View, b1: View, c: Code, l: string)
    requires Placed(b, b1, c) && l in b1.fixups && b1.fixups[l] == Exits(c, |b.body|)
    ensures PositionsBelow(b1.fixups[l], |b1.body|)
    ensures Placed(b, AfterSetLabel(b1, l), Close(c, 0))
    ensures AfterSetLabel(b1, l).fixups == b1.fixups - {l}
  {
    hide At, Patch, PositionsBelow, Same, Size, Exits;
    PatchCloses(b1.body, |b.body|, c, 0);
    SameTrans(b.body, b1.body, Patch(b1.body, b1.fixups[l], |b1.body|), 0, |b.body|);
  }

  /** How code is bracketed does not matter. */
  lemma PlacedAssoc(b: View, b': View, x: Code, y: Code, z: Code, w: Code)
    requires Placed(b, b', Cat(Cat(x, Cat(y, z)), w))
    ensures Placed(b, b', Cat(x, Cat(y, Cat(z, w))))
  {
    hide Same, At;
    var ws, base := b'.body, |b.body|;
    AtPair(ws, base, Cat(x, Cat(y, z)), w);
    AtParts(ws, base, x, y, z);
    AtCat(ws, base + Size(x) + Size(y), z, w);
    AtCat(ws, base + Size(x), y, Cat(z, w));
    AtCat(ws, base, x, Cat(y, Cat(z, w)));
    SizeAssoc(x, y, z, w);
  }

  lemma SizeAssoc(x: Code, y: Code, z: Code, w: Code)
    ensures Size(Cat(x, Cat(y, Cat(z, w)))) == Size(Cat(Cat(x, Cat(y, z)), w)) == Size(x) + Size(y) + Size(z) + Size(w)
  {
    assert Size(Cat(z, w)) == Size(z) + Size(w) && Size(Cat(y, z)) == Size(y) + Size(z);
    assert Size(Cat(y, Cat(z, w))) == Size(y) + Size(Cat(z, w));
    assert Size(Cat(x, Cat(y, z))) == Size(x) + Size(Cat(y, z));
  }
}

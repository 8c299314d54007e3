/** The code generator (pkg/il/compiler/compiler.go). */
module Compilers {
  import opened Values
  import opened Words
  import opened StringTables
  import opened Opcodes
  import opened Code
  import opened Expressions
  import opened CodeGen
  import opened Builders
  import opened Patching
  import opened Placing

  /** From `b` to `b'` the strings and the code of `e` were added, its exits waiting for `l`. */
  ghost predicate Generated(b: View, b': View, e: Expr, types: Vocabulary, depth: nat, mode: Mode, l: string)
    requires EvalType(e, types).Some?
  {
    && b'.tab == InternAll(b.tab, StringsOf(e))
    && Grew(b, b', Gen(e, Context(types, b'.tab), depth, mode), l)
  }

  /** Code generated earlier is the same seen with the final string table. */
  lemma Restable(b: View, b1: View, e: Expr, types: Vocabulary, depth: nat, mode: Mode, l: string, tab: seq<string>)
    requires EvalType(e, types).Some? && Generated(b, b1, e, types, depth, mode, l) && b1.tab <= tab
    ensures Grew(b, b1, Gen(e, Context(types, tab), depth, mode), l)
  {
    hide Grew, Gen;
    GenStable(e, types, b1.tab, tab, depth, mode);
  }

  /** Two operands generated one after the other. */
  lemma Operands(b: View, b1: View, b2: View, e: Expr, types: Vocabulary, depth: nat, m1: Mode, m2: Mode, l1: string,
          l2: string)
    requires e.Fn? && EvalType(e.l, types).Some? && EvalType(e.r, types).Some?
    requires Generated(b, b1, e.l, types, depth, m1, l1) && Generated(b1, b2, e.r, types, depth, m2, l2)
    ensures b2.tab == InternAll(b.tab, StringsOf(e))
    ensures Grew(b, b1, Gen(e.l, Context(types, b2.tab), depth, m1), l1)
    ensures Grew(b1, b2, Gen(e.r, Context(types, b2.tab), depth, m2), l2)
  {
    hide Gen, Grew;
    InternAllConcat(b.tab, StringsOf(e.l), StringsOf(e.r));
    Restable(b, b1, e.l, types, depth, m1, l1, b2.tab);
  }

  /** Two value operands and the instruction that combines them. */
  lemma Combined(b: View, b1: View, b2: View, e: Expr, types: Vocabulary, depth: nat, op: nat, l: string)
    requires e.Fn? && EvalType(e.l, types).Some? && EvalType(e.r, types).Some?
    requires Generated(b, b1, e.l, types, depth, NmNone, l) && Generated(b1, b2, e.r, types, depth, NmNone, l)
    ensures var b3, cx := b2.(body := b2.body + [op]), Context(types, b2.tab);
      && b3.tab == InternAll(b.tab, StringsOf(e))
      && Grew(b, b3, Cat(Gen(e.l, cx, depth, NmNone), Cat(Gen(e.r, cx, depth, NmNone), I0(op))), l)
  {
    hide Gen, Grew, Generated;
    var b3, cx := b2.(body := b2.body + [op]), Context(types, b2.tab);
    Operands(b, b1, b2, e, types, depth, NmNone, NmNone, l, l);
    GrewItem(b2, [op], Op0(op), l);
    GrewCat(b1, b2, b3, Gen(e.r, cx, depth, NmNone), I0(op), l);
    GrewCat(b, b1, b3, Gen(e.l, cx, depth, NmNone), Cat(Gen(e.r, cx, depth, NmNone), I0(op)), l);
  }

  // ----- leaves -----

  lemma ConstDone(b: View, b': View, v: Value, types: Vocabulary, depth: nat, mode: Mode, l: string)
    requires !v.StrMap? && b'.tab == (if v.Str? then Intern(b.tab, v.s) else b.tab)
    requires b' == b.(tab := b'.tab, body := b.body + Encode(PushInstr(v, b'.tab).item, 0))
    ensures Generated(b, b', Const(v), types, depth, mode, l)
  {
    hide Grew;
    var b1 := b.(tab := b'.tab);
    GrewIntern(b, b'.tab, l);
    GrewItem(b1, Encode(PushInstr(v, b'.tab).item, 0), PushInstr(v, b'.tab).item, l);
    GrewAfterNil(b, b1, b', PushInstr(v, b'.tab), l);
    if v.Str? { InternOne(b.tab, v.s); }
  }

  lemma InternOne(tab: seq<string>, s: string)
    ensures InternAll(tab, [s]) == Intern(tab, s)
  {
    assert [s][..0] == [];
  }

  lemma GrewAfterNil(b: View, b1: View, b2: View, c: Code, l: string)
    requires Grew(b, b1, Nil, l) && Grew(b1, b2, c, l)
    ensures Grew(b, b2, c, l)
  {
    hide Placed, Waits;
    PlacedSize(b, b1, Nil);
    PlacedAfterNil(b, b1, b2, c);
    WaitsTwice(b, b1, b2, l, [], Exits(c, |b.body|));
    assert [] + Exits(c, |b.body|) == Exits(c, |b.body|);
  }

  lemma PlacedAfterNil(b: View, b1: View, b2: View, c: Code)
    requires Placed(b, b1, Nil) && Placed(b1, b2, c)
    ensures Placed(b, b2, c)
  {
    hide At;
  }

  /** The view after a variable was generated. */
  function AfterVariable(b: View, name: string, t: Type, mode: Mode, l: string): View
    requires mode.NmJmpOnValue? ==> l in b.fixups
  {
    var tab := Intern(b.tab, name);
    var op := if mode.NmNone? then ResolveOp(t) else TResolveOp(t);
    var b1 := b.(tab := tab, body := b.body + [op, IndexOf(tab, name)]);
    if mode.NmNone? then b1 else AfterJump(b1, JNZ, l)
  }

  lemma VarDone(b: View, name: string, types: Vocabulary, depth: nat, mode: Mode, l: string)
    requires name in types && (mode.NmJmpOnValue? ==> l in b.fixups)
    ensures Generated(b, AfterVariable(b, name, types[name], mode, l), Var(name), types, depth, mode, l)
  {
    hide Grew;
    var t, tab := types[name], Intern(b.tab, name);
    var it := Op1(if mode.NmNone? then ResolveOp(t) else TResolveOp(t), IndexOf(tab, name));
    var b1 := b.(tab := tab);
    var b2 := b1.(body := b1.body + [it.op, it.x]);
    GrewIntern(b, tab, l);
    GrewItem(b1, [it.op, it.x], it, l);
    GrewAfterNil(b, b1, b2, One(it), l);
    InternOne(b.tab, name);
    if mode.NmJmpOnValue? {
      GrewJump(b2, JNZ, l);
      GrewCat(b, b2, AfterJump(b2, JNZ, l), One(it), One(Exit(JNZ)), l);
    }
  }

  // ----- EQ and NEQ -----

  ghost predicate GeneratedEq(b: View, b': View, e: Expr, types: Vocabulary, depth: nat, l: string)
    requires EvalType(e, types).Some? && e.Fn? && e.op in {EQ, NEQ}
  {
    && b'.tab == InternAll(b.tab, StringsOf(e))
    && Grew(b, b', GenEq(e, Context(types, b'.tab), depth), l)
  }

  /** The words of a comparison with a constant; none for a type that cannot be compared. */
  function AEqWords(v: Value, tab: seq<string>): seq<nat> {
    match v
    case Str(s) => [AEQ_S, IndexOf(tab, s)]
    case Boolean(x) => [AEQ_B, BoolToByteCode(x)]
    case Int(i) => [AEQ_I, Low(i), High(i)]
    case _ => []
  }

  lemma EqConstDone(b: View, b1: View, b2: View, e: Expr, types: Vocabulary, depth: nat, l: string)
    requires EvalType(e, types).Some? && e.Fn? && e.op in {EQ, NEQ} && e.r.Const? && EvalType(e.l, types).Some?
    requires Generated(b, b1, e.l, types, depth + 1, NmNone, l)
    requires b2.tab == (if e.r.v.Str? then Intern(b1.tab, e.r.v.s) else b1.tab)
    requires b2 == b1.(tab := b2.tab, body := b1.body + AEqWords(e.r.v, b2.tab))
    ensures GeneratedEq(b, b2, e, types, depth, l)
  {
    hide Grew, Gen;
    var v := e.r.v;
    assert StringsOf(e) == StringsOf(e.l) + StringsOf(e.r);
    InternAllConcat(b.tab, StringsOf(e.l), StringsOf(e.r));
    if v.Str? { InternOne(b1.tab, v.s); }
    Restable(b, b1, e.l, types, depth + 1, NmNone, l, b2.tab);
    var b1' := b1.(tab := b2.tab);
    GrewIntern(b1, b2.tab, l);
    if v.Str? || v.Boolean? || v.Int? {
      GrewItem(b1', AEqWords(v, b2.tab), AEqInstr(v, b2.tab).item, l);
      GrewAfterNil(b1, b1', b2, AEqInstr(v, b2.tab), l);
    } else {
      assert b2 == b1';
    }
    GrewCat(b, b1, b2, Gen(e.l, Context(types, b2.tab), depth + 1, NmNone), AEqInstr(v, b2.tab), l);
  }

  function EqWords(t: Type): seq<nat> {
    match t
    case STRING => [EQ_S]
    case BOOL => [EQ_B]
    case INT64 => [EQ_I]
    case _ => []
  }

  lemma EqBothDone(b: View, b1: View, b2: View, e: Expr, types: Vocabulary, depth: nat, l: string)
    requires EvalType(e, types).Some? && e.Fn? && e.op in {EQ, NEQ} && !e.r.Const?
    requires EvalType(e.l, types).Some? && EvalType(e.r, types).Some?
    requires Generated(b, b1, e.l, types, depth + 1, NmNone, l) && Generated(b1, b2, e.r, types, depth + 1, NmNone, l)
    ensures GeneratedEq(b, b2.(body := b2.body + EqWords(EvalType(e.l, types).value)), e, types, depth, l)
  {
    hide Grew, Gen;
    var t := EvalType(e.l, types).value;
    var b3, cx := b2.(body := b2.body + EqWords(t)), Context(types, b2.tab);
    Operands(b, b1, b2, e, types, depth + 1, NmNone, NmNone, l, l);
    if Comparable(t) {
      GrewItem(b2, EqWords(t), EqInstr(t).item, l);
    } else {
      GrewIntern(b2, b2.tab, l);
      assert b3 == b2;
    }
    GrewCat(b1, b2, b3, Gen(e.r, cx, depth + 1, NmNone), EqInstr(t), l);
    GrewCat(b, b1, b3, Gen(e.l, cx, depth + 1, NmNone), Cat(Gen(e.r, cx, depth + 1, NmNone), EqInstr(t)), l);
  }

  lemma NeqDone(b: View, b1: View, e: Expr, types: Vocabulary, depth: nat, mode: Mode, l: string)
    requires EvalType(e, types).Some? && e.Fn? && e.op.NEQ? && GeneratedEq(b, b1, e, types, depth + 1, l)
    ensures Generated(b, b1.(body := b1.body + [NOT]), e, types, depth, mode, l)
  {
    hide Grew, GenEq;
    GrewItem(b1, [NOT], Op0(NOT), l);
    GrewCat(b, b1, b1.(body := b1.body + [NOT]), GenEq(e, Context(types, b1.tab), depth + 1), I0(NOT), l);
  }

  // ----- LAND and LOR -----

  lemma LandDone(b: View, b1: View, b2: View, e: Expr, types: Vocabulary, depth: nat, mode: Mode, l: string)
    requires EvalType(e, types).Some? && e.Fn? && e.op.LAND? && EvalType(e.l, types).Some? && EvalType(e.r, types).Some?
    requires Generated(b, b1, e.l, types, depth + 1, NmNone, l) && Generated(b1, b2, e.r, types, depth + 1, NmNone, l)
    ensures Generated(b, b2.(body := b2.body + [AND]), e, types, depth, mode, l)
  {
    hide Grew;
    Combined(b, b1, b2, e, types, depth + 1, AND, l);
  }

  /** The last of the three instructions between the operands of a LOR; it may wait for a label. */
  function LorLeave(depth: nat): Item {
    if depth == 0 then Op0(RET) else Op1(JMP, 0)
  }

  function LorMiddle(depth: nat): Code {
    Cat(One(Jump(JZ, 2 + ItemSize(LorLeave(depth)))), Cat(I1(APUSH_B, 1), One(LorLeave(depth))))
  }

  lemma LorMiddleClosed(depth: nat, base: nat)
    ensures var c := Cat(One(Exit(JZ)), Cat(I1(APUSH_B, 1), One(LorLeave(depth))));
      Close(c, 0) == LorMiddle(depth) && Exits(c, base) == [base + 1]
  {
    assert Close(Cat(I1(APUSH_B, 1), One(LorLeave(depth))), 0) == Cat(I1(APUSH_B, 1), One(LorLeave(depth)));
    assert Exits(Cat(I1(APUSH_B, 1), One(LorLeave(depth))), base + 2) == [];
  }

  /** What the three instructions do to the state, up to setting the label of the right operand. */
  function AfterMiddle(b: View, depth: nat, lr: string, le: string): View
    requires lr in b.fixups && le in b.fixups && lr != le
  {
    var j := AfterJump(b, JZ, lr);
    var z := j.(body := j.body + [APUSH_B, 1]);
    if depth == 0 then z.(body := z.body + [RET]) else AfterJump(z, JMP, le)
  }

  lemma LorMiddlePlaced(y: View, depth: nat, lr: string, le: string)
    requires lr in y.fixups && le in y.fixups && lr != le && y.fixups[lr] == []
    ensures var v := AfterMiddle(y, depth, lr, le);
      && PositionsBelow(v.fixups[lr], |v.body|)
      && Placed(y, AfterSetLabel(v, lr), LorMiddle(depth))
      && AfterSetLabel(v, lr).fixups ==
         (if depth == 0 then y.fixups else y.fixups[le := y.fixups[le] + [|y.body| + 5]]) - {lr}
  {
    hide Placed, Close, Exits, At, Patch, PositionsBelow;
    var j := AfterJump(y, JZ, lr);
    var z := j.(body := j.body + [APUSH_B, 1]);
    var v := AfterMiddle(y, depth, lr, le);
    var c := Cat(One(Exit(JZ)), Cat(I1(APUSH_B, 1), One(LorLeave(depth))));
    GrewJump(y, JZ, lr);
    GrewItem(j, [APUSH_B, 1], Op1(APUSH_B, 1), "");
    if depth == 0 { GrewItem(z, [RET], Op0(RET), ""); } else { JumpElsewhere(z, JMP, le); }
    PlacedCat(j, z, v, I1(APUSH_B, 1), One(LorLeave(depth)));
    PlacedCat(y, j, v, One(Exit(JZ)), Cat(I1(APUSH_B, 1), One(LorLeave(depth))));
    LorMiddleClosed(depth, |y.body|);
    SetPlaced(y, v, c, lr);
  }

  lemma TwoLabels(b: View, lr: string, le: string)
    requires WellFormed(b) && lr == LabelName(LabelCount(b)) && le == LabelName(LabelCount(AfterAllocate(b)))
    ensures var y := AfterAllocate(AfterAllocate(b));
      && lr != le && lr !in b.fixups && le !in b.fixups && y == b.(fixups := b.fixups[lr := []][le := []])
      && Placed(b, y, Nil)
  {
    hide LabelName;
    FreshLabel(b);
    AllocateKeeps(b);
    FreshLabel(AfterAllocate(b));
  }

  /** The middle of a LOR with the jump over the right operand waiting. */
  function LorWaiting(): Code {
    Cat(One(Jump(JZ, 4)), Cat(I1(APUSH_B, 1), One(Exit(JMP))))
  }

  lemma LorWaitingClosed(r: Code, base: nat)
    requires Closed(r)
    ensures var c := Cat(LorWaiting(), r);
      && Close(c, 0) == Cat(Cat(One(Jump(JZ, 4)), Cat(I1(APUSH_B, 1), One(Jump(JMP, Size(r))))), r)
      && Exits(c, base) == [base + 5]
  {
    hide Close, Exits, Size, Closed;
    CloseCloses(r, 0);
    ExitsWithin(r, base + 6, base + 6 + Size(r));
    CatParts(LorWaiting(), r, base, 0);
    LorWaitingParts(base, Size(r));
  }

  lemma LorWaitingParts(base: nat, k: nat)
    ensures Close(LorWaiting(), k) == Cat(One(Jump(JZ, 4)), Cat(I1(APUSH_B, 1), One(Jump(JMP, k))))
    ensures Exits(LorWaiting(), base) == [base + 5] && Size(LorWaiting()) == 6
  {
    hide Close, Exits;
    var jz, push, jmp := One(Jump(JZ, 4)), I1(APUSH_B, 1), One(Exit(JMP));
    CatParts(jz, Cat(push, jmp), base, k);
    CatParts(push, jmp, base + 2, k);
    PlainItem(jz, base, Size(Cat(push, jmp)) + k);
    PlainItem(push, base + 2, 2 + k);
    WaitingItem(JMP, base + 4, k);
  }

  lemma WaitingItem(op: nat, base: nat, k: nat)
    ensures Exits(One(Exit(op)), base) == [base + 1] && Close(One(Exit(op)), k) == One(Jump(op, k))
  {
  }

  lemma LorMiddleWaits(ws: seq<nat>, base: nat, depth: nat, r: Code)
    requires depth > 0 && At(ws, base, Cat(LorMiddle(depth), r))
    ensures At(ws, base, Cat(LorWaiting(), r)) && Size(LorWaiting()) == Size(LorMiddle(depth)) == 6
  {
    HoleIsExit(ws, base + 4, JMP);
    assert At(ws, base, LorMiddle(depth));
    assert At(ws, base + 2, Cat(I1(APUSH_B, 1), One(LorLeave(depth))));
    assert At(ws, base + 2, Cat(I1(APUSH_B, 1), One(Exit(JMP))));
    assert At(ws, base, LorWaiting());
  }

  /** From the left operand on: the middle, the right operand, and the label of the end. */
  lemma LorTail(b1: View, u: View, b2: View, b3: View, r: Code, depth: nat, le: string)
    requires Placed(b1, u, LorMiddle(depth)) && Placed(u, b2, r) && Closed(r)
    requires le in b2.fixups && b2.fixups[le] == (if depth == 0 then [] else [|b1.body| + 5])
    requires PositionsBelow(b2.fixups[le], |b2.body|)
    requires b3 == if depth == 0 then b2 else AfterSetLabel(b2, le)
    ensures var leave := if depth == 0 then Op0(RET) else Jump(JMP, Size(r));
      Placed(b1, b3, Cat(One(Jump(JZ, 2 + ItemSize(leave))), Cat(I1(APUSH_B, 1), Cat(One(leave), r))))
  {
    hide At, Same, Close, Exits, Patch, PositionsBelow;
    var jz, push := One(Jump(JZ, 2 + ItemSize(LorLeave(depth)))), I1(APUSH_B, 1);
    PlacedCat(b1, u, b2, LorMiddle(depth), r);
    if depth == 0 {
      PlacedAssoc(b1, b3, jz, push, I0(RET), r);
    } else {
      LorMiddleWaits(b2.body, |b1.body|, depth, r);
      LorWaitingClosed(r, |b1.body|);
      SetPlaced(b1, b2, Cat(LorWaiting(), r), le);
      PlacedAssoc(b1, b3, jz, push, One(Jump(JMP, Size(r))), r);
    }
  }

  lemma LorCodeShape(e: Expr, cx: Context, depth: nat, mode: Mode)
    requires EvalType(e, cx.types).Some? && e.Fn? && e.op.LOR?
    ensures EvalType(e.l, cx.types).Some? && EvalType(e.r, cx.types).Some?
    ensures var r := Gen(e.r, cx, depth + 1, NmNone);
      var leave := if depth == 0 then Op0(RET) else Jump(JMP, Size(r));
      Gen(e, cx, depth, mode) ==
      Cat(Gen(e.l, cx, depth + 1, NmNone),
          Cat(One(Jump(JZ, 2 + ItemSize(leave))), Cat(I1(APUSH_B, 1), Cat(One(leave), r))))
    ensures Gen(e, cx, depth, mode) == Gen(e, cx, depth, NmNone)
  {
    hide Size;
  }

  lemma UnmovedLabel(u: View, b: View, l: string)
    requires Waits(u, b, "", []) && l in u.fixups
    ensures l in b.fixups && b.fixups[l] == u.fixups[l]
  {
  }

  lemma WaitsFewer(b: View, b1: View, b2: View, b3: View, l: string, le: string)
    requires Waits(b, b1, "", []) && Waits(b1, b2, "", []) && le !in b1.fixups
    requires b3.fixups == b2.fixups || b3.fixups == b2.fixups - {le}
    ensures Waits(b, b3, l, [])
  {
  }

  /** The right operand follows, and the label of the end is set. */
  lemma LorDone(b: View, b1: View, u: View, b2: View, b3: View, e: Expr, types: Vocabulary, depth: nat, mode: Mode,
          l: string, le: string)
    requires EvalType(e, types).Some? && e.Fn? && e.op.LOR? && EvalType(e.l, types).Some? && EvalType(e.r, types).Some?
    requires Generated(b, b1, e.l, types, depth + 1, NmNone, "")
    requires Placed(b1, u, LorMiddle(depth)) && Waits(b1, u, "", []) && u.tab == b1.tab
    requires le !in b1.fixups && le in u.fixups && u.fixups[le] == if depth == 0 then [] else [|b1.body| + 5]
    requires Generated(u, b2, e.r, types, depth + 1, NmNone, "") && le != ""
    requires le in b2.fixups && PositionsBelow(b2.fixups[le], |b2.body|)
    requires b3 == if depth == 0 then b2 else AfterSetLabel(b2, le)
    ensures Generated(b, b3, e, types, depth, mode, l)
  {
    hide At, Same, Close, Exits, Patch, PositionsBelow, Gen, Placed, LorMiddle, Closed, EvalType, Size, Waits,
      InternAll, Intern;
    var cx := Context(types, b2.tab);
    var a, r := Gen(e.l, cx, depth + 1, NmNone), Gen(e.r, cx, depth + 1, NmNone);
    LorCodeShape(e, cx, depth, mode);
    InternAllConcat(b.tab, StringsOf(e.l), StringsOf(e.r));
    Restable(b, b1, e.l, types, depth + 1, NmNone, "", b2.tab);
    ValueCodeClosed(e.l, cx, depth + 1);
    ValueCodeClosed(e.r, cx, depth + 1);
    ValueCodeClosed(e, cx, depth);
    ExitsWithin(a, |b.body|, |b.body| + Size(a));
    ExitsWithin(r, |u.body|, |u.body| + Size(r));
    ExitsWithin(Gen(e, cx, depth, mode), |b.body|, |b.body| + Size(Gen(e, cx, depth, mode)));
    UnmovedLabel(u, b2, le);
    LorTail(b1, u, b2, b3, r, depth, le);
    var leave := if depth == 0 then Op0(RET) else Jump(JMP, Size(r));
    PlacedCat(b, b1, b3, a, Cat(One(Jump(JZ, 2 + ItemSize(leave))), Cat(I1(APUSH_B, 1), Cat(One(leave), r))));
    WaitsTwice(b1, u, b2, "", [], []);
    WaitsFewer(b, b1, b2, b3, l, le);
  }

  // ----- INDEX -----

  lemma IndexCodeShape(e: Expr, cx: Context, depth: nat)
    requires EvalType(e, cx.types).Some? && e.Fn? && e.op.INDEX?
    ensures EvalType(e.l, cx.types).Some? && EvalType(e.r, cx.types).Some? && (e.r.Const? ==> e.r.v.Str?)
    ensures StringsOf(e) == StringsOf(e.l) + StringsOf(e.r)
    ensures var a, r := Gen(e.l, cx, depth + 1, NmNone), Gen(e.r, cx, depth + 1, NmNone);
      Gen(e, cx, depth, NmNone) ==
      if e.r.Const? then Cat(a, I1(ANLOOKUP, IndexOf(cx.tab, e.r.v.s))) else Cat(a, Cat(r, I0(NLOOKUP)))
  {
  }

  lemma IndexConstDone(b: View, b1: View, b2: View, e: Expr, types: Vocabulary, depth: nat, l: string)
    requires EvalType(e, types).Some? && e.Fn? && e.op.INDEX? && e.r.Const? && e.r.v.Str? && EvalType(e.l, types).Some?
    requires Generated(b, b1, e.l, types, depth + 1, NmNone, l)
    requires b2.tab == Intern(b1.tab, e.r.v.s)
    requires b2 == b1.(tab := b2.tab, body := b1.body + [ANLOOKUP, IndexOf(b2.tab, e.r.v.s)])
    ensures Generated(b, b2, e, types, depth, NmNone, l)
  {
    hide Grew, EvalType, Gen;
    IndexCodeShape(e, Context(types, b2.tab), depth);
    var it := Op1(ANLOOKUP, IndexOf(b2.tab, e.r.v.s));
    InternAllConcat(b.tab, StringsOf(e.l), StringsOf(e.r));
    InternOne(b1.tab, e.r.v.s);
    Restable(b, b1, e.l, types, depth + 1, NmNone, l, b2.tab);
    var b1' := b1.(tab := b2.tab);
    GrewIntern(b1, b2.tab, l);
    GrewItem(b1', [ANLOOKUP, it.x], it, l);
    GrewAfterNil(b1, b1', b2, One(it), l);
    GrewCat(b, b1, b2, Gen(e.l, Context(types, b2.tab), depth + 1, NmNone), One(it), l);
  }

  lemma IndexBothDone(b: View, b1: View, b2: View, e: Expr, types: Vocabulary, depth: nat, l: string)
    requires EvalType(e, types).Some? && e.Fn? && e.op.INDEX? && !e.r.Const? && EvalType(e.l, types).Some?
      && EvalType(e.r, types).Some?
    requires Generated(b, b1, e.l, types, depth + 1, NmNone, l) && Generated(b1, b2, e.r, types, depth + 1, NmNone, l)
    ensures Generated(b, b2.(body := b2.body + [NLOOKUP]), e, types, depth, NmNone, l)
  {
    hide Grew, Gen, EvalType;
    IndexCodeShape(e, Context(types, b2.tab), depth);
    Combined(b, b1, b2, e, types, depth + 1, NLOOKUP, l);
  }

  /** Code that leaves through its own label `l`, and falls through to a jump to `le`. */
  lemma Resolved(b: View, t: View, c: Code, l: string, le: string)
    requires l !in b.fixups && le in b.fixups && Grew(b.(fixups := b.fixups[l := []]), t, c, l)
    ensures le in t.fixups && l in AfterJump(t, JMP, le).fixups
    ensures var j := AfterJump(t, JMP, le);
      && PositionsBelow(j.fixups[l], |j.body|)
      && Placed(b, AfterSetLabel(j, l), Cat(Close(c, 2), I1(JMP, 0)))
      && Waits(b, AfterSetLabel(j, l), le, [|b.body| + Size(c) + 1])
      && AfterSetLabel(j, l).tab == t.tab
  {
    hide Close, Exits, At, Patch, PositionsBelow, Same;
    var y, j := b.(fixups := b.fixups[l := []]), AfterJump(t, JMP, le);
    var whole := Cat(c, I1(JMP, 0));
    JumpElsewhere(t, JMP, le);
    PlacedCat(y, t, j, c, I1(JMP, 0));
    NoExits(c, |b.body|);
    assert j.fixups[l] == [] + Exits(c, |b.body|) == Exits(whole, |b.body|);
    SetPlaced(y, j, whole, l);
  }

  lemma NoExits(c: Code, base: nat)
    ensures Exits(Cat(c, I1(JMP, 0)), base) == Exits(c, base)
    ensures Close(Cat(c, I1(JMP, 0)), 0) == Cat(Close(c, 2), I1(JMP, 0))
  {
    assert Exits(I1(JMP, 0), base + Size(c)) == [];
  }

  /** The key of an INDEX, with `away` as the jump past the lookup. */
  function KeyWith(e: Expr, cx: Context, depth: nat, away: Item): Code
    requires EvalType(e, cx.types).Some? && e.Fn? && e.op.INDEX?
  {
    if e.r.Const? then Gen(e.r, cx, depth + 1, NmJmpOnValue)
    else Cat(Close(Gen(e.r, cx, depth + 1, NmJmpOnValue), 2), One(away))
  }

  function KeyExits(e: Expr, cx: Context, depth: nat, base: nat): seq<nat>
    requires EvalType(e, cx.types).Some? && e.Fn? && e.op.INDEX?
  {
    if e.r.Const? then [] else [base + Size(Gen(e.r, cx, depth + 1, NmJmpOnValue)) + 1]
  }

  /** Target, key and lookup, with the given jumps past the lookup and to the outer label. */
  function LookupWith(target: Code, away: Item, key: Code, leave: Item): Code {
    Cat(Cat(target, One(away)), Cat(key, Cat(I0(TLOOKUP), One(leave))))
  }

  lemma KeyHole(ws: seq<nat>, base: nat, e: Expr, cx: Context, depth: nat)
    requires EvalType(e, cx.types).Some? && e.Fn? && e.op.INDEX? && EvalType(e.r, cx.types).Some?
    requires At(ws, base, KeyWith(e, cx, depth, Op1(JMP, 0)))
    ensures At(ws, base, KeyWith(e, cx, depth, Exit(JMP)))
    ensures Size(KeyWith(e, cx, depth, Exit(JMP))) == Size(KeyWith(e, cx, depth, Op1(JMP, 0))) ==
      Size(KeyCode(e, cx, depth))
    ensures Exits(KeyWith(e, cx, depth, Exit(JMP)), base) == KeyExits(e, cx, depth, base)
    ensures Close(KeyWith(e, cx, depth, Exit(JMP)), 3) == KeyCode(e, cx, depth)
  {
    hide Gen, EvalType, At, Exits, Close, Size;
    if e.r.Const? {
      ConstCode(e.r, cx, depth + 1);
      PlainItem(Gen(e.r, cx, depth + 1, NmJmpOnValue), base, 3);
    } else {
      var r := Gen(e.r, cx, depth + 1, NmJmpOnValue);
      CloseCloses(r, 2);
      AtPair(ws, base, Close(r, 2), I1(JMP, 0));
      HoleIsExit(ws, base + Size(r), JMP);
      AtCat(ws, base, Close(r, 2), One(Exit(JMP)));
      CatParts(Close(r, 2), One(Exit(JMP)), base, 3);
      CatParts(Close(r, 2), I1(JMP, 0), base, 3);
      CatParts(Close(r, 2), One(Jump(JMP, 3)), base, 3);
      TargetParts(Close(r, 2), base, 3);
      JumpSizes(3);
    }
  }

  lemma PlainItem(c: Code, base: nat, k: nat)
    requires c.One? && !c.item.Exit?
    ensures Exits(c, base) == [] && Close(c, k) == c
  {
  }

  lemma JumpSizes(k: nat)
    ensures Size(One(Exit(JMP))) == Size(I1(JMP, 0)) == Size(One(Jump(JMP, k))) == 2
  {
  }

  lemma ConstCode(e: Expr, cx: Context, depth: nat)
    requires EvalType(e, cx.types).Some? && e.Const?
    ensures var c := Gen(e, cx, depth, NmJmpOnValue); c.One? && !c.item.Exit? && !c.item.Jump?
  {
  }

  /** Setting the end label gives both jumps past the lookup their target. */
  lemma LookupCloses(ws: seq<nat>, base: nat, target: Code, e: Expr, cx: Context, depth: nat)
    requires EvalType(e, cx.types).Some? && e.Fn? && e.op.INDEX? && EvalType(e.r, cx.types).Some? && Closed(target)
    requires At(ws, base, LookupWith(target, Op1(JMP, 0), KeyWith(e, cx, depth, Op1(JMP, 0)), Op1(JNZ, 0)))
    ensures var c := LookupWith(target, Exit(JMP), KeyWith(e, cx, depth, Exit(JMP)), Op1(JNZ, 0));
      var key := KeyCode(e, cx, depth);
      && At(ws, base, c)
      && Size(c) == Size(LookupWith(target, Op1(JMP, 0), KeyWith(e, cx, depth, Op1(JMP, 0)), Op1(JNZ, 0)))
      && Exits(c, base) == [base + Size(target) + 1] + KeyExits(e, cx, depth, base + Size(target) + 2)
      && Close(c, 0) == LookupWith(target, Jump(JMP, Size(key) + 3), key, Op1(JNZ, 0))
  {
    hide KeyWith, KeyCode, KeyExits, EvalType, At, Close, Exits, Closed, Size;
    JumpSizes(0);
    var end := Cat(I0(TLOOKUP), One(Op1(JNZ, 0)));
    var k0, k1 := KeyWith(e, cx, depth, Op1(JMP, 0)), KeyWith(e, cx, depth, Exit(JMP));
    var mid := base + Size(target) + 2;
    CatParts(target, I1(JMP, 0), base, 0);
    AtPair(ws, base, Cat(target, I1(JMP, 0)), Cat(k0, end));
    AtPair(ws, base, target, I1(JMP, 0));
    AtPair(ws, mid, k0, end);
    KeyHole(ws, mid, e, cx, depth);
    HoleIsExit(ws, base + Size(target), JMP);
    AtCat(ws, base, target, One(Exit(JMP)));
    AtCat(ws, mid, k1, end);
    CatParts(target, One(Exit(JMP)), base, Size(Cat(k1, end)));
    AtCat(ws, base, Cat(target, One(Exit(JMP))), Cat(k1, end));
    EndParts(mid + Size(k1));
    CatParts(k1, end, mid, 0);
    CatParts(Cat(target, One(Exit(JMP))), Cat(k1, end), base, 0);
    TargetParts(target, base, Size(Cat(k1, end)));
    CatParts(k0, end, mid, 0);
    CatParts(Cat(target, I1(JMP, 0)), Cat(k0, end), base, 0);
  }

  lemma EndParts(base: nat)
    ensures var end := Cat(I0(TLOOKUP), One(Op1(JNZ, 0)));
      Exits(end, base) == [] && Close(end, 0) == end && Size(end) == 3
  {
  }

  lemma TargetParts(target: Code, base: nat, k: nat)
    requires Closed(target)
    ensures Exits(target, base) == [] && Close(target, 2 + k) == target
    ensures Exits(One(Exit(JMP)), base + Size(target)) == [base + Size(target) + 1]
    ensures Close(One(Exit(JMP)), k) == One(Jump(JMP, k))
  {
    CloseCloses(target, 2 + k);
    ExitsWithin(target, base, base + Size(target));
  }

  lemma LookupSizes(target: Code, away: Item, key: Code)
    ensures Size(Cat(target, One(away))) == Size(target) + ItemSize(away) && Size(One(away)) == ItemSize(away)
    ensures Size(I0(TLOOKUP)) == 1
    ensures Size(Cat(target, Cat(One(away), Cat(key, Cat(I0(TLOOKUP), One(Exit(JNZ)))))))
      == Size(LookupWith(target, away, key, Op1(JNZ, 0))) == Size(target) + ItemSize(away) + Size(key) + 3
  {
    assert Size(Cat(I0(TLOOKUP), One(Exit(JNZ)))) == 3 && Size(Cat(I0(TLOOKUP), I1(JNZ, 0))) == 3;
    assert Size(Cat(key, Cat(I0(TLOOKUP), One(Exit(JNZ))))) == Size(key) + 3;
    assert Size(Cat(key, Cat(I0(TLOOKUP), I1(JNZ, 0)))) == Size(key) + 3;
  }

  /** The finished lookup, bracketed as the specification has it, its last jump waiting. */
  lemma LookupPlaced(b: View, b': View, target: Code, away: Item, key: Code)
    requires Placed(b, b', LookupWith(target, away, key, Op1(JNZ, 0)))
    ensures Placed(b, b', Cat(target, Cat(One(away), Cat(key, Cat(I0(TLOOKUP), One(Exit(JNZ)))))))
  {
    hide At, Same, Size;
    var ws, base, end := b'.body, |b.body|, Cat(I0(TLOOKUP), One(Exit(JNZ)));
    LookupSizes(target, away, key);
    var mid := base + Size(target) + ItemSize(away);
    AtPair(ws, base, Cat(target, One(away)), Cat(key, Cat(I0(TLOOKUP), I1(JNZ, 0))));
    AtPair(ws, base, target, One(away));
    AtParts(ws, mid, key, I0(TLOOKUP), I1(JNZ, 0));
    HoleIsExit(ws, mid + Size(key) + 1, JNZ);
    AtCat(ws, mid + Size(key), I0(TLOOKUP), One(Exit(JNZ)));
    AtCat(ws, mid, key, end);
    AtCat(ws, base + Size(target), One(away), Cat(key, end));
    AtCat(ws, base, target, Cat(One(away), Cat(key, end)));
  }

  /** Code in jump mode was placed whose values lead past a jump to `le` that follows it. */
  ghost predicate ResolvedTo(b: View, u: View, e: Expr, types: Vocabulary, depth: nat, le: string)
    requires EvalType(e, types).Some?
  {
    var c := Gen(e, Context(types, u.tab), depth, NmJmpOnValue);
    && u.tab == InternAll(b.tab, StringsOf(e))
    && Placed(b, u, Cat(Close(c, 2), I1(JMP, 0)))
    && Waits(b, u, le, [|b.body| + Size(c) + 1])
  }

  ghost predicate KeyPlaced(u: View, k: View, e: Expr, types: Vocabulary, depth: nat, le: string)
    requires EvalType(e, types).Some? && e.Fn? && e.op.INDEX?
  {
    var cx := Context(types, k.tab);
    && k.tab == InternAll(u.tab, StringsOf(e.r))
    && Placed(u, k, KeyWith(e, cx, depth, Op1(JMP, 0)))
    && Waits(u, k, le, KeyExits(e, cx, depth, |u.body|))
  }

  lemma OwnLabelDone(b: View, t: View, e: Expr, types: Vocabulary, depth: nat, l: string, le: string)
    requires EvalType(e, types).Some? && l !in b.fixups && le in b.fixups
    requires Generated(b.(fixups := b.fixups[l := []]), t, e, types, depth, NmJmpOnValue, l)
    ensures le in t.fixups && l in AfterJump(t, JMP, le).fixups
    ensures var j := AfterJump(t, JMP, le);
      && PositionsBelow(j.fixups[l], |j.body|)
      && ResolvedTo(b, AfterSetLabel(j, l), e, types, depth, le) && le in AfterSetLabel(j, l).fixups
  {
    hide Grew, Gen, EvalType, Close, Size, Placed, PositionsBelow, Patch;
    Resolved(b, t, Gen(e, Context(types, t.tab), depth, NmJmpOnValue), l, le);
  }

  lemma KeyConstDone(u: View, k: View, e: Expr, types: Vocabulary, depth: nat, le: string)
    requires EvalType(e, types).Some? && e.Fn? && e.op.INDEX? && e.r.Const? && EvalType(e.r, types).Some?
    requires Generated(u, k, e.r, types, depth + 1, NmJmpOnValue, le)
    ensures KeyPlaced(u, k, e, types, depth, le)
  {
    hide Gen, EvalType, Close, Size, Placed, Waits;
    ConstCode(e.r, Context(types, k.tab), depth + 1);
    PlainItem(Gen(e.r, Context(types, k.tab), depth + 1, NmJmpOnValue), |u.body|, 3);
  }

  lemma KeyDone(u: View, k: View, e: Expr, types: Vocabulary, depth: nat, le: string)
    requires EvalType(e, types).Some? && e.Fn? && e.op.INDEX? && !e.r.Const? && EvalType(e.r, types).Some?
    requires ResolvedTo(u, k, e.r, types, depth + 1, le)
    ensures KeyPlaced(u, k, e, types, depth, le)
  {
    hide Gen, EvalType, Close, Size, Placed, Waits;
  }

  lemma ResolvedStable(b: View, u: View, e: Expr, types: Vocabulary, depth: nat, le: string, tab: seq<string>)
    requires EvalType(e, types).Some? && ResolvedTo(b, u, e, types, depth, le) && u.tab <= tab
    ensures var c := Gen(e, Context(types, tab), depth, NmJmpOnValue);
      && Placed(b, u, Cat(Close(c, 2), I1(JMP, 0)))
      && |u.body| == |b.body| + Size(c) + 2
      && Waits(b, u, le, [|b.body| + Size(c) + 1]) && u.tab == InternAll(b.tab, StringsOf(e))
  {
    hide Gen, EvalType, Close, Size, Placed, Waits;
    GenStable(e, types, u.tab, tab, depth, NmJmpOnValue);
    var c := Gen(e, Context(types, u.tab), depth, NmJmpOnValue);
    PlacedSize(b, u, Cat(Close(c, 2), I1(JMP, 0)));
    CatParts(Close(c, 2), I1(JMP, 0), 0, 0);
    CloseCloses(c, 2);
    JumpSizes(0);
  }

  /** Target and key together, seen with the final string table. */
  lemma TargetAndKey(b: View, u: View, k: View, e: Expr, types: Vocabulary, depth: nat, le: string)
    requires EvalType(e, types).Some? && e.Fn? && e.op.INDEX? && EvalType(e.l, types).Some?
      && EvalType(e.r, types).Some?
    requires ResolvedTo(b, u, e.l, types, depth + 1, le) && KeyPlaced(u, k, e, types, depth, le)
    ensures var cx := Context(types, k.tab);
      var target := Gen(e.l, cx, depth + 1, NmJmpOnValue);
      && k.tab == InternAll(b.tab, StringsOf(e))
      && Placed(b, u, Cat(Close(target, 2), I1(JMP, 0))) && Placed(u, k, KeyWith(e, cx, depth, Op1(JMP, 0)))
      && |u.body| == |b.body| + Size(target) + 2
      && Waits(b, k, le, [|b.body| + Size(target) + 1] + KeyExits(e, cx, depth, |u.body|))
  {
    hide Gen, EvalType, Close, Size, Placed, Waits, KeyExits, KeyWith, ResolvedTo, InternAll, Intern, StringsOf;
    var cx := Context(types, k.tab);
    IndexCodeShape(e, cx, depth);
    PlacedSize(u, k, KeyWith(e, cx, depth, Op1(JMP, 0)));
    ResolvedStable(b, u, e.l, types, depth + 1, le, k.tab);
    InternAllConcat(b.tab, StringsOf(e.l), StringsOf(e.r));
    WaitsTwice(b, u, k, le, [|b.body| + Size(Gen(e.l, cx, depth + 1, NmJmpOnValue)) + 1],
        KeyExits(e, cx, depth, |u.body|));
  }

  /** The state after the lookup and the jump to the outer label, before the end label is set. */
  function AfterLookup(k: View, l: string): View
    requires l in k.fixups
  {
    AfterJump(k.(body := k.body + [TLOOKUP]), JNZ, l)
  }

  lemma LookupDone(b: View, u: View, k: View, target: Code, key: Code, l: string)
    requires Placed(b, u, Cat(target, I1(JMP, 0))) && Placed(u, k, key) && l in k.fixups
    ensures Placed(b, AfterLookup(k, l), LookupWith(target, Op1(JMP, 0), key, Op1(JNZ, 0)))
  {
    hide Placed;
    var p := k.(body := k.body + [TLOOKUP]);
    GrewItem(k, [TLOOKUP], Op0(TLOOKUP), "");
    JumpElsewhere(p, JNZ, l);
    PlacedCat(k, p, AfterLookup(k, l), I0(TLOOKUP), I1(JNZ, 0));
    PlacedCat(u, k, AfterLookup(k, l), key, Cat(I0(TLOOKUP), I1(JNZ, 0)));
    PlacedCat(b, u, AfterLookup(k, l), Cat(target, I1(JMP, 0)), Cat(key, Cat(I0(TLOOKUP), I1(JNZ, 0))));
  }

  lemma IndexExits(e: Expr, cx: Context, depth: nat, base: nat)
    requires EvalType(e, cx.types).Some? && e.Fn? && e.op.INDEX? && EvalType(e.l, cx.types).Some?
      && EvalType(e.r, cx.types).Some?
    ensures var c := Gen(e, cx, depth, NmJmpOnValue);
      Size(c) > 0 && Exits(c, base) == [base + Size(c) - 1]
  {
    hide Gen, EvalType, KeyCode, Close, Exits, Size, Closed;
    var target, key := Close(Gen(e.l, cx, depth + 1, NmJmpOnValue), 2), KeyCode(e, cx, depth);
    IndexJumpGen(e, cx, depth);
    KeyClosed(e, cx, depth);
    CloseCloses(Gen(e.l, cx, depth + 1, NmJmpOnValue), 2);
    LookupExits(target, key, Size(key) + 3, base);
  }

  lemma LookupExits(target: Code, key: Code, skip: nat, base: nat)
    requires Closed(target) && Closed(key)
    ensures var c := Cat(target, Cat(One(Jump(JMP, skip)), Cat(key, Cat(I0(TLOOKUP), One(Exit(JNZ))))));
      Size(c) > 0 && Exits(c, base) == [base + Size(c) - 1]
  {
    hide *;
    var jmp, look := One(Jump(JMP, skip)), Cat(I0(TLOOKUP), One(Exit(JNZ)));
    JumpSizes(skip);
    LookParts(base + Size(target) + 2 + Size(key));
    AfterClosed(key, look, base + Size(target) + 2);
    assert Closed(jmp) by { JumpClosed(skip); }
    AfterClosed(jmp, Cat(key, look), base + Size(target));
    AfterClosed(target, Cat(jmp, Cat(key, look)), base);
  }

  lemma AfterClosed(a: Code, b: Code, base: nat)
    requires Closed(a)
    ensures Size(Cat(a, b)) == Size(a) + Size(b) && Exits(Cat(a, b), base) == Exits(b, base + Size(a))
  {
    hide Size, Closed, Exits;
    CatParts(a, b, base, 0);
    ExitsWithin(a, base, base + Size(a));
  }

  lemma JumpClosed(skip: nat)
    ensures Closed(One(Jump(JMP, skip)))
  {
  }

  lemma LookParts(base: nat)
    ensures var look := Cat(I0(TLOOKUP), One(Exit(JNZ))); Exits(look, base) == [base + 2] && Size(look) == 3
  {
  }

  /** The words of an INDEX in jump mode, once the end label is set. */
  lemma LookupEnd(x: View, u: View, k: View, e: Expr, types: Vocabulary, depth: nat, l: string, le: string)
    requires EvalType(e, types).Some? && e.Fn? && e.op.INDEX? && EvalType(e.l, types).Some?
      && EvalType(e.r, types).Some?
    requires le in k.fixups && l in k.fixups && l != le
    requires var cx := Context(types, k.tab);
      var target := Gen(e.l, cx, depth + 1, NmJmpOnValue);
      && Placed(x, u, Cat(Close(target, 2), I1(JMP, 0))) && Placed(u, k, KeyWith(e, cx, depth, Op1(JMP, 0)))
      && k.fixups[le] == [|x.body| + Size(target) + 1] + KeyExits(e, cx, depth, |x.body| + Size(target) + 2)
    ensures var q := AfterLookup(k, l);
      && PositionsBelow(q.fixups[le], |q.body|)
      && Placed(x, AfterSetLabel(q, le), Gen(e, Context(types, k.tab), depth, NmJmpOnValue))
  {
    hide Gen, EvalType, Close, Size, At, Exits, KeyExits, KeyWith, KeyCode, PositionsBelow, Patch, Same, Closed;
    var cx, q := Context(types, k.tab), AfterLookup(k, l);
    var target, key := Close(Gen(e.l, cx, depth + 1, NmJmpOnValue), 2), KeyCode(e, cx, depth);
    CloseCloses(Gen(e.l, cx, depth + 1, NmJmpOnValue), 2);
    LookupDone(x, u, k, target, KeyWith(e, cx, depth, Op1(JMP, 0)), l);
    LookupCloses(q.body, |x.body|, target, e, cx, depth);
    SetPlaced(x, q, LookupWith(target, Exit(JMP), KeyWith(e, cx, depth, Exit(JMP)), Op1(JNZ, 0)), le);
    LookupPlaced(x, AfterSetLabel(q, le), target, Jump(JMP, Size(key) + 3), key);
    IndexJumpGen(e, cx, depth);
  }

  lemma LookupWaits(b: View, k: View, f: View, l: string, le: string, ps: seq<nat>)
    requires le !in b.fixups && l in b.fixups && Waits(b.(fixups := b.fixups[le := []]), k, le, ps)
    ensures l in k.fixups && le in k.fixups && k.fixups[le] == ps
    ensures f.fixups == AfterLookup(k, l).fixups - {le} ==> Waits(b, f, l, [|k.body| + 2])
  {
    var x := b.(fixups := b.fixups[le := []]);
    assert le in x.fixups && l in x.fixups && [] + ps == ps;
  }

  lemma PlacedFrom(b: View, x: View, f: View, c: Code)
    requires Placed(x, f, c) && x.body == b.body && x.tab == b.tab
    ensures Placed(b, f, c)
  {
  }

  /** The end label is set: the whole INDEX in jump mode. */
  lemma IndexJumpDone(b: View, u: View, k: View, e: Expr, types: Vocabulary, depth: nat, l: string, le: string)
    requires EvalType(e, types).Some? && e.Fn? && e.op.INDEX? && EvalType(e.l, types).Some?
      && EvalType(e.r, types).Some?
    requires le !in b.fixups && l in b.fixups
    requires ResolvedTo(b.(fixups := b.fixups[le := []]), u, e.l, types, depth + 1, le)
      && KeyPlaced(u, k, e, types, depth, le)
    ensures l in k.fixups && le in AfterLookup(k, l).fixups
    ensures var q := AfterLookup(k, l);
      && PositionsBelow(q.fixups[le], |q.body|)
      && Generated(b, AfterSetLabel(q, le), e, types, depth, NmJmpOnValue, l)
  {
    hide Gen, EvalType, Close, Size, Placed, Exits, KeyExits, KeyWith, ResolvedTo, KeyPlaced, PositionsBelow, Patch,
      Waits;
    var x, cx := b.(fixups := b.fixups[le := []]), Context(types, k.tab);
    var target := Gen(e.l, cx, depth + 1, NmJmpOnValue);
    TargetAndKey(x, u, k, e, types, depth, le);
    LookupWaits(b, k, k, l, le, [|b.body| + Size(target) + 1] + KeyExits(e, cx, depth, |u.body|));
    LookupEnd(x, u, k, e, types, depth, l, le);
    var f := AfterSetLabel(AfterLookup(k, l), le);
    LookupWaits(b, k, f, l, le, k.fixups[le]);
    PlacedFrom(b, x, f, Gen(e, cx, depth, NmJmpOnValue));
    PlacedSize(b, f, Gen(e, cx, depth, NmJmpOnValue));
    IndexExits(e, cx, depth, |b.body|);
  }

  // ----- OR -----

  /** Jump mode: the exits of both operands wait for the same label. */
  lemma OrJumpDone(b: View, b1: View, b2: View, e: Expr, types: Vocabulary, depth: nat, l: string)
    requires EvalType(e, types).Some? && e.Fn? && e.op.OR? && EvalType(e.l, types).Some? && EvalType(e.r, types).Some?
    requires Generated(b, b1, e.l, types, depth + 1, NmJmpOnValue, l)
      && Generated(b1, b2, e.r, types, depth + 1, NmJmpOnValue, l)
    ensures Generated(b, b2, e, types, depth, NmJmpOnValue, l)
  {
    hide Grew, Close, Gen;
    Operands(b, b1, b2, e, types, depth + 1, NmJmpOnValue, NmJmpOnValue, l, l);
    var cx := Context(types, b2.tab);
    OrGen(e, cx, depth);
    GrewCat(b, b1, b2, Gen(e.l, cx, depth + 1, NmJmpOnValue), Gen(e.r, cx, depth + 1, NmJmpOnValue), l);
  }

  /** Value mode: the exits wait for a label of the OR itself, set after the right operand. */
  lemma OrDone(b: View, b1: View, b2: View, e: Expr, types: Vocabulary, depth: nat, l: string, le: string)
    requires EvalType(e, types).Some? && e.Fn? && e.op.OR? && EvalType(e.l, types).Some? && EvalType(e.r, types).Some?
    requires le !in b.fixups
    requires Generated(b.(fixups := b.fixups[le := []]), b1, e.l, types, depth + 1, NmJmpOnValue, le)
    requires Generated(b1, b2, e.r, types, depth + 1, OrRightMode(e.r, NmNone), le)
    ensures le in b2.fixups && PositionsBelow(b2.fixups[le], |b2.body|)
    ensures Generated(b, AfterSetLabel(b2, le), e, types, depth, NmNone, l)
  {
    hide At, Same, Close, Exits, Size, Patch, PositionsBelow, Gen, Closed, InternAll, Intern;
    var y, cx := b.(fixups := b.fixups[le := []]), Context(types, b2.tab);
    var a, r := Gen(e.l, cx, depth + 1, NmJmpOnValue), Gen(e.r, cx, depth + 1, OrRightMode(e.r, NmNone));
    Operands(y, b1, b2, e, types, depth + 1, NmJmpOnValue, OrRightMode(e.r, NmNone), le, le);
    GrewCat(y, b1, b2, a, r, le);
    assert b2.fixups[le] == [] + Exits(Cat(a, r), |b.body|) == Exits(Cat(a, r), |b.body|);
    SetPlaced(y, b2, Cat(a, r), le);
    OrGen(e, cx, depth);
    ValueCodeClosed(e, cx, depth);
    var c := Gen(e, cx, depth, NmNone);
    ExitsWithin(c, |b.body|, |b.body| + Size(c));
  }

  lemma OrGen(e: Expr, cx: Context, depth: nat)
    requires EvalType(e, cx.types).Some? && e.Fn? && e.op.OR? && EvalType(e.l, cx.types).Some?
      && EvalType(e.r, cx.types).Some?
    ensures Gen(e, cx, depth, NmNone) ==
      Close(Cat(Gen(e.l, cx, depth + 1, NmJmpOnValue), Gen(e.r, cx, depth + 1, OrRightMode(e.r, NmNone))), 0)
    ensures Gen(e, cx, depth, NmJmpOnValue) ==
      Cat(Gen(e.l, cx, depth + 1, NmJmpOnValue), Gen(e.r, cx, depth + 1, NmJmpOnValue))
  {
    hide Close;
  }

  // ----- the methods -----

  /** Neither the mode nor the label matters to a constant or a boolean function. */
  lemma ModeIgnored(b: View, b': View, e: Expr, types: Vocabulary, depth: nat, mode: Mode, l: string)
    requires EvalType(e, types).Some? && !e.Var? && (e.Fn? ==> e.op in {EQ, NEQ, LAND, LOR})
    requires Generated(b, b', e, types, depth, NmNone, "")
    ensures Generated(b, b', e, types, depth, mode, l)
  {
    hide Grew, Closed;
    ValueCodeClosed(e, Context(types, b'.tab), depth);
    GrewClosed(b, b', Gen(e, Context(types, b'.tab), depth, NmNone), "", l);
  }

  lemma LabelIgnored(b: View, b': View, e: Expr, types: Vocabulary, depth: nat, l: string)
    requires EvalType(e, types).Some? && Generated(b, b', e, types, depth, NmNone, "")
    ensures Generated(b, b', e, types, depth, NmNone, l)
  {
    hide Grew, Closed, Gen;
    ValueCodeClosed(e, Context(types, b'.tab), depth);
    GrewClosed(b, b', Gen(e, Context(types, b'.tab), depth, NmNone), "", l);
  }

  /** A label that waited before still waits after. */
  lemma StillWaits(b: View, b': View, e: Expr, types: Vocabulary, depth: nat, mode: Mode, l: string, x: string)
    requires EvalType(e, types).Some? && Generated(b, b', e, types, depth, mode, l) && x in b.fixups
    ensures x in b'.fixups
  {
    hide Placed, Gen, Exits;
  }

  /** After the middle of a LOR only the end label may wait, and no other label changed. */
  lemma LorMiddleDone(b: View, depth: nat, lr: string, le: string)
    requires WellFormed(b) && lr == LabelName(LabelCount(b)) && le == LabelName(LabelCount(AfterAllocate(b)))
    ensures var y := AfterAllocate(AfterAllocate(b));
      && lr in y.fixups && le in y.fixups && lr != le && le !in b.fixups && le != ""
      && var v := AfterMiddle(y, depth, lr, le);
         && PositionsBelow(v.fixups[lr], |v.body|)
         && var u := AfterSetLabel(v, lr);
            && Placed(b, u, LorMiddle(depth)) && Waits(b, u, "", []) && u.tab == b.tab
            && le in u.fixups && u.fixups[le] == if depth == 0 then [] else [|b.body| + 5]
  {
    hide LabelName, Placed, LorMiddle, WellFormed, PositionsBelow, Patch, Waits, LabelCount;
    var y := AfterAllocate(AfterAllocate(b));
    TwoLabels(b, lr, le);
    LabelNotEmpty(LabelCount(AfterAllocate(b)));
    LorMiddlePlaced(y, depth, lr, le);
    var u := AfterSetLabel(AfterMiddle(y, depth, lr, le), lr);
    PlacedAfterNil(b, y, u, LorMiddle(depth));
    MiddleWaits(b, y, u, lr, le, depth == 0, |b.body| + 5);
  }

  lemma MiddleWaits(b: View, y: View, u: View, lr: string, le: string, root: bool, p: nat)
    requires lr != le && lr !in b.fixups && le !in b.fixups && y.fixups == b.fixups[lr := []][le := []]
    requires u.fixups == (if root then y.fixups else y.fixups[le := y.fixups[le] + [p]]) - {lr}
    ensures Waits(b, u, "", []) && le in u.fixups && u.fixups[le] == if root then [] else [p]
  {
  }

  lemma LabelNotEmpty(n: nat)
    ensures LabelName(n) != ""
  {
    assert LabelName(n)[0] == 'L';
  }

  lemma OneLabel(b: View, l: string)
    requires WellFormed(b) && l == LabelName(LabelCount(b))
    ensures l !in b.fixups && AfterAllocate(b) == b.(fixups := b.fixups[l := []])
  {
    hide LabelName;
    FreshLabel(b);
  }

  lemma FunctionParts(e: Expr, types: Vocabulary)
    requires EvalType(e, types).Some? && e.Fn?
    ensures EvalType(e.l, types).Some? && EvalType(e.r, types).Some?
    ensures e.op.EQ? || e.op.NEQ? ==> EvalType(e.l, types) == EvalType(e.r, types)
    ensures e.op.INDEX? && e.r.Const? ==> e.r.v.Str?
    ensures !e.op.EQ? && !e.op.NEQ? ==> Supported(e, types) == (Supported(e.l, types) && Supported(e.r, types))
    ensures e.op.EQ? || e.op.NEQ? ==>
      Supported(e, types) == (Supported(e.l, types) && Supported(e.r, types) && Comparable(EvalType(e.l, types).value))
  {
  }

  class Generator {
    const builder: Builder
    const types: Vocabulary
    var failed: bool

    constructor (b: Builder, types: Vocabulary)
      ensures builder == b && this.types == types && !failed
    {
      builder, this.types, failed := b, types, false;
    }

    /** Adds the strings and the code of `e`; fails exactly for the types it cannot compare. */
    method Generate(e: Expr, depth: nat, mode: Mode, l: string)
      requires builder.Valid() && EvalType(e, types).Some? && (mode.NmJmpOnValue? ==> l in builder.fixups)
      modifies this, builder, builder.strings
      ensures builder.Valid() && Generated(old(builder.Now()), builder.Now(), e, types, depth, mode, l)
      ensures failed == (old(failed) || !Supported(e, types))
      decreases e, 1
    {
      hide Generated, EvalType, WellFormed, Gen, GeneratedEq, InternAll, Intern, StringsOf, IndexOf;
      ghost var b := builder.Now();
      if e.Const? {
        GenerateConstant(e.v, depth, mode, l);
      } else if e.Var? {
        GenerateVariable(e.name, depth, mode, l);
      } else {
        FunctionParts(e, types);
        if e.op.EQ? {
          GenerateEq(e, depth);
        } else if e.op.NEQ? {
          GenerateNeq(e, depth);
        } else if e.op.LOR? {
          GenerateLor(e, depth);
        } else if e.op.LAND? {
          GenerateLand(e, depth);
        } else if e.op.INDEX? {
          GenerateIndex(e, depth, mode, l);
        } else {
          GenerateOr(e, depth, mode, l);
        }
        if e.op.EQ? { EqIsGenerated(b, builder.Now(), e, types, depth); }
        if e.op in {EQ, NEQ, LOR, LAND} { ModeIgnored(b, builder.Now(), e, types, depth, mode, l); }
      }
    }

    method GenerateConstant(v: Value, ghost depth: nat, ghost mode: Mode, ghost l: string)
      requires builder.Valid() && EvalType(Const(v), types).Some?
      modifies builder, builder.strings
      ensures builder.Valid() && Generated(old(builder.Now()), builder.Now(), Const(v), types, depth, mode, l)
    {
      hide Generated, WellFormed, InternAll, Intern, StringsOf, IndexOf;
      ghost var b := builder.Now();
      match v {
        case Str(s) => var id := builder.Id(s); builder.Op1(APUSH_S, id);
        case Boolean(x) => builder.Op1(APUSH_B, BoolToByteCode(x));
        case Int(i) => builder.Op2(APUSH_I, Low(i), High(i));
        case Dur(d) => builder.Op2(APUSH_I, Low(d), High(d));
        case StrMap(_) => assert false;
      }
      ConstDone(b, builder.Now(), v, types, depth, mode, l);
    }

    method GenerateVariable(name: string, ghost depth: nat, mode: Mode, l: string)
      requires builder.Valid() && EvalType(Var(name), types).Some? && (mode.NmJmpOnValue? ==> l in builder.fixups)
      modifies builder, builder.strings
      ensures builder.Valid() && Generated(old(builder.Now()), builder.Now(), Var(name), types, depth, mode, l)
    {
      hide Generated, WellFormed, InternAll, Intern, StringsOf, IndexOf;
      ghost var b := builder.Now();
      var t := types[name];
      var id := builder.Id(name);
      if mode.NmNone? {
        builder.Op1(ResolveOp(t), id);
      } else {
        builder.Op1(TResolveOp(t), id);
        builder.JumpTo(JNZ, l);
      }
      VarDone(b, name, types, depth, mode, l);
    }

    method GenerateEq(e: Expr, depth: nat)
      requires builder.Valid() && EvalType(e, types).Some? && e.Fn? && e.op in {EQ, NEQ}
      modifies this, builder, builder.strings
      ensures builder.Valid() && GeneratedEq(old(builder.Now()), builder.Now(), e, types, depth, "")
      ensures failed == (old(failed) || !Supported(e, types))
      decreases e, 0, 0
    {
      hide Generated, EvalType, WellFormed, GeneratedEq, Supported, InternAll, Intern, StringsOf, IndexOf;
      FunctionParts(e, types);
      ghost var b := builder.Now();
      var t := EvalType(e.l, types).value;
      Generate(e.l, depth + 1, NmNone, "");
      ghost var b1 := builder.Now();
      if e.r.Const? {
        ConstParts(e.r, types);
        var v := e.r.v;
        if t.STRING? {
          var id := builder.Id(v.s);
          builder.Op1(AEQ_S, id);
        } else if t.BOOL? {
          builder.Op1(AEQ_B, BoolToByteCode(v.b));
        } else if t.INT64? {
          builder.Op2(AEQ_I, Low(v.i), High(v.i));
        } else {
          failed := true;
        }
        assert builder.Now().body == b1.body + AEqWords(v, builder.Now().tab);
        EqConstDone(b, b1, builder.Now(), e, types, depth, "");
      } else {
        Generate(e.r, depth + 1, NmNone, "");
        ghost var b2 := builder.Now();
        if t.STRING? {
          builder.Op0(EQ_S);
        } else if t.BOOL? {
          builder.Op0(EQ_B);
        } else if t.INT64? {
          builder.Op0(EQ_I);
        } else {
          failed := true;
        }
        assert builder.Now().body == b2.body + EqWords(t);
        EqBothDone(b, b1, b2, e, types, depth, "");
      }
    }

    method GenerateNeq(e: Expr, depth: nat)
      requires builder.Valid() && EvalType(e, types).Some? && e.Fn? && e.op.NEQ?
      modifies this, builder, builder.strings
      ensures builder.Valid() && Generated(old(builder.Now()), builder.Now(), e, types, depth, NmNone, "")
      ensures failed == (old(failed) || !Supported(e, types))
      decreases e, 0, 1
    {
      hide Generated, EvalType, WellFormed, GeneratedEq, Supported, InternAll, Intern, StringsOf, IndexOf;
      ghost var b := builder.Now();
      GenerateEq(e, depth + 1);
      NeqDone(b, builder.Now(), e, types, depth, NmNone, "");
      builder.Op0(NOT);
    }

    method GenerateLor(e: Expr, depth: nat)
      requires builder.Valid() && EvalType(e, types).Some? && e.Fn? && e.op.LOR?
      modifies this, builder, builder.strings
      ensures builder.Valid() && Generated(old(builder.Now()), builder.Now(), e, types, depth, NmNone, "")
      ensures failed == (old(failed) || !Supported(e, types))
      decreases e, 0
    {
      hide Generated, EvalType, WellFormed, Supported, Placed, Waits, Patch, PositionsBelow, LorMiddle,
        AfterSetLabel, InternAll, Intern, StringsOf, IndexOf;
      FunctionParts(e, types);
      ghost var b := builder.Now();
      Generate(e.l, depth + 1, NmNone, "");
      ghost var b1 := builder.Now();
      var le := LeaveIfTrue(depth);
      ghost var u := builder.Now();
      Generate(e.r, depth + 1, NmNone, "");
      ghost var b2 := builder.Now();
      StillWaits(u, b2, e.r, types, depth + 1, NmNone, "", le);
      SetLabelKeeps(b2, le);
      if depth != 0 {
        builder.SetAllocated(le);
      }
      LorDone(b, b1, u, b2, builder.Now(), e, types, depth, NmNone, "", le);
    }

    /** The instructions between the operands of a LOR, up to the label of the right operand. */
    method LeaveIfTrue(depth: nat) returns (le: string)
      requires builder.Valid()
      modifies builder
      ensures builder.Valid() && le !in old(builder.fixups) && le in builder.fixups && le != ""
      ensures builder.fixups[le] == if depth == 0 then [] else [|old(builder.body)| + 5]
      ensures Placed(old(builder.Now()), builder.Now(), LorMiddle(depth))
        && Waits(old(builder.Now()), builder.Now(), "", [])
      ensures builder.strings.Contents() == old(builder.strings.Contents())
    {
      hide WellFormed, LabelName, Placed, Waits, Patch, PositionsBelow, LorMiddle, AfterAllocate, AfterSetLabel;
      ghost var b := builder.Now();
      var lr := builder.AllocateLabel();
      le := builder.AllocateLabel();
      LorMiddleDone(b, depth, lr, le);
      builder.JumpTo(JZ, lr);
      builder.Op1(APUSH_B, BoolToByteCode(true));
      if depth == 0 {
        builder.Op0(RET);
      } else {
        builder.JumpTo(JMP, le);
      }
      builder.SetAllocated(lr);
    }

    method GenerateLand(e: Expr, depth: nat)
      requires builder.Valid() && EvalType(e, types).Some? && e.Fn? && e.op.LAND?
      modifies this, builder, builder.strings
      ensures builder.Valid() && Generated(old(builder.Now()), builder.Now(), e, types, depth, NmNone, "")
      ensures failed == (old(failed) || !Supported(e, types))
      decreases e, 0
    {
      hide Generated, EvalType, WellFormed, Supported, InternAll, Intern, StringsOf, IndexOf;
      FunctionParts(e, types);
      ghost var b := builder.Now();
      Generate(e.l, depth + 1, NmNone, "");
      ghost var b1 := builder.Now();
      Generate(e.r, depth + 1, NmNone, "");
      LandDone(b, b1, builder.Now(), e, types, depth, NmNone, "");
      builder.Op0(AND);
    }

    method GenerateIndex(e: Expr, depth: nat, mode: Mode, l: string)
      requires builder.Valid() && EvalType(e, types).Some? && e.Fn? && e.op.INDEX?
      requires mode.NmJmpOnValue? ==> l in builder.fixups
      modifies this, builder, builder.strings
      ensures builder.Valid() && Generated(old(builder.Now()), builder.Now(), e, types, depth, mode, l)
      ensures failed == (old(failed) || !Supported(e, types))
      decreases e, 0
    {
      hide Generated, EvalType, WellFormed, Supported, Gen, InternAll, Intern, StringsOf, IndexOf;
      FunctionParts(e, types);
      ghost var b := builder.Now();
      if mode.NmNone? {
        Generate(e.l, depth + 1, NmNone, "");
        ghost var b1 := builder.Now();
        if e.r.Const? {
          ConstParts(e.r, types);
          var id := builder.Id(e.r.v.s);
          builder.Op1(ANLOOKUP, id);
          IndexConstDone(b, b1, builder.Now(), e, types, depth, "");
        } else {
          Generate(e.r, depth + 1, NmNone, "");
          IndexBothDone(b, b1, builder.Now(), e, types, depth, "");
          builder.Op0(NLOOKUP);
        }
        LabelIgnored(b, builder.Now(), e, types, depth, l);
      } else {
        GenerateIndexJump(e, depth, l);
      }
    }

    method GenerateIndexJump(e: Expr, depth: nat, l: string)
      requires builder.Valid() && EvalType(e, types).Some? && e.Fn? && e.op.INDEX? && l in builder.fixups
      modifies this, builder, builder.strings
      ensures builder.Valid() && Generated(old(builder.Now()), builder.Now(), e, types, depth, NmJmpOnValue, l)
      ensures failed == (old(failed) || !Supported(e, types))
      decreases e, 0, 0
    {
      hide Generated, EvalType, WellFormed, Supported, LabelName, KeyPlaced, AfterSetLabel, PositionsBelow, Waits,
        Gen, Patch, ResolvedTo, InternAll, Intern, StringsOf, IndexOf;
      FunctionParts(e, types);
      ghost var b := builder.Now();
      var le := builder.AllocateLabel();
      OneLabel(b, le);
      ghost var x := builder.Now();
      GenerateOwnLabel(e.l, depth + 1, le);
      ghost var u := builder.Now();
      if e.r.Const? {
        ConstParts(e.r, types);
        GenerateConstant(e.r.v, depth + 1, NmJmpOnValue, le);
        KeyConstDone(u, builder.Now(), e, types, depth, le);
      } else {
        GenerateOwnLabel(e.r, depth + 1, le);
        KeyDone(u, builder.Now(), e, types, depth, le);
      }
      IndexJumpDone(b, u, builder.Now(), e, types, depth, l, le);
      builder.Op0(TLOOKUP);
      builder.JumpTo(JNZ, l);
      builder.SetAllocated(le);
    }

    /** An operand of an INDEX in jump mode: a value leads past the jump to `le` that follows. */
    method GenerateOwnLabel(e: Expr, depth: nat, le: string)
      requires builder.Valid() && EvalType(e, types).Some? && le in builder.fixups
      modifies this, builder, builder.strings
      ensures builder.Valid() && ResolvedTo(old(builder.Now()), builder.Now(), e, types, depth, le)
      ensures failed == (old(failed) || !Supported(e, types))
      ensures le in builder.fixups
      decreases e, 2
    {
      hide Generated, EvalType, WellFormed, Supported, LabelName, AfterSetLabel, PositionsBelow, Gen, Patch,
        ResolvedTo, InternAll, Intern, StringsOf, IndexOf;
      ghost var b := builder.Now();
      var l := builder.AllocateLabel();
      OneLabel(b, l);
      Generate(e, depth, NmJmpOnValue, l);
      OwnLabelDone(b, builder.Now(), e, types, depth, l, le);
      builder.JumpTo(JMP, le);
      builder.SetAllocated(l);
    }

    method GenerateOr(e: Expr, depth: nat, mode: Mode, l: string)
      requires builder.Valid() && EvalType(e, types).Some? && e.Fn? && e.op.OR?
      requires mode.NmJmpOnValue? ==> l in builder.fixups
      modifies this, builder, builder.strings
      ensures builder.Valid() && Generated(old(builder.Now()), builder.Now(), e, types, depth, mode, l)
      ensures failed == (old(failed) || !Supported(e, types))
      decreases e, 0
    {
      hide Generated, EvalType, WellFormed, Supported, LabelName, Gen, AfterSetLabel, PositionsBelow, Patch,
        InternAll, Intern, StringsOf, IndexOf;
      FunctionParts(e, types);
      ghost var b := builder.Now();
      if mode.NmNone? {
        var le := builder.AllocateLabel();
        OneLabel(b, le);
        Generate(e.l, depth + 1, NmJmpOnValue, le);
        ghost var b1 := builder.Now();
        StillWaits(AfterAllocate(b), b1, e.l, types, depth + 1, NmJmpOnValue, le, le);
        if e.r.Fn? && e.r.op.OR? {
          Generate(e.r, depth + 1, NmJmpOnValue, le);
        } else {
          Generate(e.r, depth + 1, NmNone, "");
          LabelIgnored(b1, builder.Now(), e.r, types, depth + 1, le);
        }
        OrDone(b, b1, builder.Now(), e, types, depth, l, le);
        builder.SetAllocated(le);
      } else {
        Generate(e.l, depth + 1, NmJmpOnValue, l);
        ghost var b1 := builder.Now();
        StillWaits(b, b1, e.l, types, depth + 1, NmJmpOnValue, l, l);
        Generate(e.r, depth + 1, NmJmpOnValue, l);
        OrJumpDone(b, b1, builder.Now(), e, types, depth, l);
      }
    }
  }

  lemma EqIsGenerated(b: View, b': View, e: Expr, types: Vocabulary, depth: nat)
    requires EvalType(e, types).Some? && e.Fn? && e.op.EQ? && GeneratedEq(b, b', e, types, depth, "")
    ensures Generated(b, b', e, types, depth, NmNone, "")
  {
  }

  lemma ConstParts(e: Expr, types: Vocabulary)
    requires EvalType(e, types).Some? && e.Const?
    ensures !e.v.StrMap? && EvalType(e, types).value == TypeOf(e.v) && Supported(e, types)
  {
  }
}

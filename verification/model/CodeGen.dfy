/** The code that the compiler emits, as a function of the expression (pkg/il/compiler/compiler.go). */
module CodeGen {
  import opened Values
  import opened Words
  import opened StringTables
  import opened Opcodes
  import opened Code
  import opened Expressions

  datatype Mode = NmNone | NmJmpOnValue

  /** The vocabulary, and the string table as it is once the code is complete. */
  datatype Context = Context(types: Vocabulary, tab: seq<string>)

  /** The types for which the generator knows an equality instruction. */
  predicate Comparable(t: Type) {
    t in {STRING, BOOL, INT64}
  }

  /** The expressions that generate without an internal compiler error. */
  predicate Supported(e: Expr, types: Vocabulary)
    requires EvalType(e, types).Some?
  {
    e.Fn? ==>
      && Supported(e.l, types) && Supported(e.r, types)
      && (e.op in {EQ, NEQ} ==> Comparable(EvalType(e.l, types).value))
  }

  /** The strings interned while generating, in order. */
  function StringsOf(e: Expr): seq<string> {
    match e
    case Const(v) => if v.Str? then [v.s] else []
    case Var(name) => [name]
    case Fn(_, l, r) => StringsOf(l) + StringsOf(r)
  }

  function PushInstr(v: Value, tab: seq<string>): Code
    requires !v.StrMap?
  {
    match v
    case Str(s) => I1(APUSH_S, IndexOf(tab, s))
    case Boolean(b) => I1(APUSH_B, BoolToByteCode(b))
    case Int(i) => I2(APUSH_I, Low(i), High(i))
    case Dur(d) => I2(APUSH_I, Low(d), High(d))
  }

  function ResolveOp(t: Type): nat {
    match t
    case STRING => RESOLVE_S
    case BOOL => RESOLVE_B
    case INT64 => RESOLVE_I
    case DURATION => RESOLVE_I
    case STRING_MAP => RESOLVE_F
  }

  /** The conditional variants are numbered ten above the plain ones. */
  function TResolveOp(t: Type): nat {
    ResolveOp(t) + 10
  }

  /** No instruction for the types that the generator cannot compare. */
  function EqInstr(t: Type): Code {
    match t
    case STRING => I0(EQ_S)
    case BOOL => I0(EQ_B)
    case INT64 => I0(EQ_I)
    case _ => Nil
  }

  function AEqInstr(v: Value, tab: seq<string>): Code {
    match v
    case Str(s) => I1(AEQ_S, IndexOf(tab, s))
    case Boolean(b) => I1(AEQ_B, BoolToByteCode(b))
    case Int(i) => I2(AEQ_I, Low(i), High(i))
    case _ => Nil
  }

  /** The code of an expression. Jump-on-value code leaves its exits open, to be given a label. */
  function Gen(e: Expr, cx: Context, depth: nat, mode: Mode): Code
    requires EvalType(e, cx.types).Some?
    decreases e, 1
  {
    match e
    case Const(v) => PushInstr(v, cx.tab)
    case Var(name) => GenVar(name, cx, mode)
    case Fn(op, l, r) =>
      match op
      case EQ => GenEq(e, cx, depth)
      case NEQ => Cat(GenEq(e, cx, depth + 1), I0(NOT))
      case LAND => Cat(Gen(l, cx, depth + 1, NmNone), Cat(Gen(r, cx, depth + 1, NmNone), I0(AND)))
      case LOR => GenLor(e, cx, depth)
      case INDEX => if mode.NmNone? then GenIndex(e, cx, depth) else GenIndexJump(e, cx, depth)
      case OR => GenOr(e, cx, depth, mode)
  }

  function GenVar(name: string, cx: Context, mode: Mode): Code
    requires name in cx.types
  {
    var t := cx.types[name];
    if mode.NmNone? then I1(ResolveOp(t), IndexOf(cx.tab, name))
    else Cat(I1(TResolveOp(t), IndexOf(cx.tab, name)), One(Exit(JNZ)))
  }

  function GenEq(e: Expr, cx: Context, depth: nat): Code
    requires EvalType(e, cx.types).Some? && e.Fn? && e.op in {EQ, NEQ}
    decreases e, 0
  {
    var a := Gen(e.l, cx, depth + 1, NmNone);
    if e.r.Const? then Cat(a, AEqInstr(e.r.v, cx.tab))
    else Cat(a, Cat(Gen(e.r, cx, depth + 1, NmNone), EqInstr(EvalType(e.l, cx.types).value)))
  }

  /** At depth 0 a true left operand returns; deeper it jumps over the right operand. */
  function GenLor(e: Expr, cx: Context, depth: nat): Code
    requires EvalType(e, cx.types).Some? && e.Fn? && e.op.LOR?
    decreases e, 0
  {
    var b := Gen(e.r, cx, depth + 1, NmNone);
    var leave := if depth == 0 then Op0(RET) else Jump(JMP, Size(b));
    Cat(Gen(e.l, cx, depth + 1, NmNone),
        Cat(One(Jump(JZ, 2 + ItemSize(leave))), Cat(I1(APUSH_B, 1), Cat(One(leave), b))))
  }

  function GenIndex(e: Expr, cx: Context, depth: nat): Code
    requires EvalType(e, cx.types).Some? && e.Fn? && e.op.INDEX?
    decreases e, 0
  {
    var a := Gen(e.l, cx, depth + 1, NmNone);
    if e.r.Const? && e.r.v.Str? then Cat(a, I1(ANLOOKUP, IndexOf(cx.tab, e.r.v.s)))
    else Cat(a, Cat(Gen(e.r, cx, depth + 1, NmNone), I0(NLOOKUP)))
  }

  /** The target falls through to a jump past the lookup. */
  function GenIndexJump(e: Expr, cx: Context, depth: nat): Code
    requires EvalType(e, cx.types).Some? && e.Fn? && e.op.INDEX?
    decreases e, 0
  {
    var key := KeyCode(e, cx, depth);
    Cat(Close(Gen(e.l, cx, depth + 1, NmJmpOnValue), 2),
        Cat(One(Jump(JMP, Size(key) + 3)), Cat(key, Cat(I0(TLOOKUP), One(Exit(JNZ))))))
  }

  /** A key that is not constant falls through to a jump past the lookup too. */
  function KeyCode(e: Expr, cx: Context, depth: nat): Code
    requires EvalType(e, cx.types).Some? && e.Fn? && e.op.INDEX?
    decreases e, 0, 0
  {
    if e.r.Const? then Gen(e.r, cx, depth + 1, NmJmpOnValue)
    else Cat(Close(Gen(e.r, cx, depth + 1, NmJmpOnValue), 2), One(Jump(JMP, 3)))
  }

  /** In value mode the exits of both operands lead to the end of the OR itself. */
  function GenOr(e: Expr, cx: Context, depth: nat, mode: Mode): Code
    requires EvalType(e, cx.types).Some? && e.Fn? && e.op.OR?
    decreases e, 0
  {
    var code :=
      Cat(Gen(e.l, cx, depth + 1, NmJmpOnValue), Gen(e.r, cx, depth + 1, OrRightMode(e.r, mode)));
    if mode.NmNone? then Close(code, 0) else code
  }

  /** The mode of the right operand of an OR: jump mode chains through a nested OR. */
  function OrRightMode(r: Expr, mode: Mode): Mode {
    if mode.NmJmpOnValue? || (r.Fn? && r.op.OR?) then NmJmpOnValue else NmNone
  }

  /** Value-mode code has no open exit. */
  lemma {:induction false} ValueCodeClosed(e: Expr, cx: Context, depth: nat)
    requires EvalType(e, cx.types).Some?
    ensures Closed(Gen(e, cx, depth, NmNone))
    decreases e, 1
  {
    if e.Fn? && e.op.OR? {
      CloseCloses(Cat(Gen(e.l, cx, depth + 1, NmJmpOnValue),
                      Gen(e.r, cx, depth + 1, OrRightMode(e.r, NmNone))), 0);
    } else if e.Fn? {
      var d := if e.op.NEQ? then depth + 2 else depth + 1;
      ValueCodeClosed(e.l, cx, d);
      ValueCodeClosed(e.r, cx, d);
      if e.op.LOR? {
        var b := Gen(e.r, cx, d, NmNone);
        var leave := One(if depth == 0 then Op0(RET) else Jump(JMP, Size(b)));
        assert Closed(leave) && Closed(Cat(leave, b));
        assert Closed(Cat(I1(APUSH_B, 1), Cat(leave, b)));
      } else if e.op in {EQ, NEQ} {
        var eq := GenEq(e, cx, d - 1);
        assert e.r.Const? ==> Closed(eq.b);
        assert !e.r.Const? ==> Closed(eq.b.b) && Closed(eq.b);
      }
    }
  }

  /** The operands of an OR one after the other, both labels at the same place. */
  lemma OrShape(e: Expr, cx: Context, depth: nat, mode: Mode, k: nat)
    requires EvalType(e, cx.types).Some? && e.Fn? && e.op.OR? && (mode.NmNone? ==> k == 0)
    requires EvalType(e.l, cx.types).Some? && EvalType(e.r, cx.types).Some?
    ensures var a, b := Gen(e.l, cx, depth + 1, NmJmpOnValue), Gen(e.r, cx, depth + 1, OrRightMode(e.r, mode));
      && (if mode.NmNone? then Gen(e, cx, depth, mode) else Close(Gen(e, cx, depth, mode), k))
         == Cat(Close(a, Size(b) + k), Close(b, k))
      && Size(Gen(e, cx, depth, mode)) == Size(a) + Size(b)
  {
  }

  /** Giving a position to the label of an INDEX changes its last jump only. */
  lemma IndexJumpShape(e: Expr, cx: Context, depth: nat, k: nat)
    requires EvalType(e, cx.types).Some? && e.Fn? && e.op.INDEX?
    requires EvalType(e.l, cx.types).Some? && EvalType(e.r, cx.types).Some?
    ensures var key := KeyCode(e, cx, depth);
      Close(Gen(e, cx, depth, NmJmpOnValue), k) ==
      Cat(Close(Gen(e.l, cx, depth + 1, NmJmpOnValue), 2),
          Cat(One(Jump(JMP, Size(key) + 3)), Cat(key, Cat(I0(TLOOKUP), One(Jump(JNZ, k))))))
  {
    hide EvalType, Gen, Close, Size, KeyCode;
    var m, key := Gen(e.l, cx, depth + 1, NmJmpOnValue), KeyCode(e, cx, depth);
    IndexJumpGen(e, cx, depth);
    KeyClosed(e, cx, depth);
    CloseCloses(m, 2);
    CloseLookup(Close(m, 2), key, k);
  }

  lemma IndexJumpGen(e: Expr, cx: Context, depth: nat)
    requires EvalType(e, cx.types).Some? && e.Fn? && e.op.INDEX? && EvalType(e.l, cx.types).Some?
    ensures var key := KeyCode(e, cx, depth);
      Gen(e, cx, depth, NmJmpOnValue) ==
      Cat(Close(Gen(e.l, cx, depth + 1, NmJmpOnValue), 2),
          Cat(One(Jump(JMP, Size(key) + 3)), Cat(key, Cat(I0(TLOOKUP), One(Exit(JNZ))))))
  {
    hide Close, Size, KeyCode;
  }

  lemma KeyClosed(e: Expr, cx: Context, depth: nat)
    requires EvalType(e, cx.types).Some? && e.Fn? && e.op.INDEX? && EvalType(e.r, cx.types).Some?
    ensures Closed(KeyCode(e, cx, depth))
  {
    if !e.r.Const? { CloseCloses(Gen(e.r, cx, depth + 1, NmJmpOnValue), 2); }
  }

  lemma CloseLookup(m: Code, key: Code, k: nat)
    requires Closed(m) && Closed(key)
    ensures var jmp := One(Jump(JMP, Size(key) + 3));
      Close(Cat(m, Cat(jmp, Cat(key, Cat(I0(TLOOKUP), One(Exit(JNZ)))))), k)
      == Cat(m, Cat(jmp, Cat(key, Cat(I0(TLOOKUP), One(Jump(JNZ, k))))))
  {
    hide Close;
    var jmp, look := One(Jump(JMP, Size(key) + 3)), Cat(I0(TLOOKUP), One(Exit(JNZ)));
    CloseExit(JNZ, k);
    CloseAfter(I0(TLOOKUP), One(Exit(JNZ)), k);
    CloseAfter(key, look, k);
    CloseAfter(jmp, Cat(key, look), k);
    CloseAfter(m, Cat(jmp, Cat(key, look)), k);
  }
}

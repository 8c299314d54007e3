/** The text of a compiled function. */
module CompiledText {
  import opened Values
  import opened Words
  import opened StringTables
  import opened Opcodes
  import opened Code
  import opened Expressions
  import opened CodeGen
  import opened Termination
  import opened Programs
  import opened Compilation
  import opened Scanners
  import opened Assembly
  import opened TextRoundTrip
  import opened Writing
  import opened WrittenText

  // ----- emitted items as instructions -----

  predicate TakesBool(op: nat) {
    op == APUSH_B || op == AEQ_B
  }

  /**
   Operand words that can be written: strings, truth values and integers; if `strict`, no high word is an opcode
   with operands.
   */
  predicate Spelled(it: Item, tab: seq<string>, strict: bool) {
    match it
    case Op1(op, x) => if TakesBool(op) then x <= 1 else x < |tab| && Quotable(tab[x])
    case Op2(_, x, y) => x < TWO32 && y < TWO32 && (strict ==> Args(y) == [])
    case _ => true
  }

  predicate AllSpelled(c: Code, tab: seq<string>, strict: bool) {
    match c
    case Nil => true
    case One(it) => Spelled(it, tab, strict)
    case Cat(a, b) => AllSpelled(a, tab, strict) && AllSpelled(b, tab, strict)
  }

  function InsFor(it: Item, pos: nat, tab: seq<string>): Ins
    requires Spelled(it, tab, false)
  {
    match it
    case Op0(op) => Ins(op, [])
    case Op1(op, x) => Ins(op, [if TakesBool(op) then OBool(x == 1) else OString(tab[x])])
    case Op2(op, x, y) => Ins(op, [OInt(ByteCodeToInteger(x, y))])
    case Jump(op, skip) => Ins(op, [OAddress(pos + 2 + skip)])
    case Exit(op) => Ins(op, [OAddress(0)])
  }

  function InssFor(c: Code, pos: nat, tab: seq<string>): seq<Ins>
    requires AllSpelled(c, tab, false)
  {
    match c
    case Nil => []
    case One(it) => [InsFor(it, pos, tab)]
    case Cat(a, b) => InssFor(a, pos, tab) + InssFor(b, pos + Size(a), tab)
  }

  lemma InsForOK(it: Item, pos: nat, tab: seq<string>)
    requires Emitted(it) && Spelled(it, tab, false)
    ensures InsOK(InsFor(it, pos, tab)) && InsSize(InsFor(it, pos, tab)) == ItemSize(it)
  {
    hide Quotable, ByteCodeToInteger;
    var ins := InsFor(it, pos, tab);
    if ins.operands != [] { OneSize(ins.operands[0]); }
    var a := Args(it.op);
    assert a == (match it
                 case Op0(_) => []
                 case Op1(op, _) => [if TakesBool(op) then ArgBool else ArgString]
                 case Op2(_, _, _) => [ArgInt]
                 case _ => [ArgAddress]);
  }

  lemma ItemIsThere(words: seq<nat>, base: nat, pos: nat, it: Item, tab: seq<string>)
    requires At(words, base + pos, One(it)) && !it.Exit? && Spelled(it, tab, false)
    ensures CodeAt(words, base + pos, [InsFor(it, pos, tab)], tab, base)
  {
    hide Quotable, ByteCodeToInteger;
    var ins, i := InsFor(it, pos, tab), base + pos;
    assert [ins][1..] == [];
    if it.Op2? { WordsRoundTrip(it.x, it.y); }
    if ins.operands != [] {
      OneSize(ins.operands[0]);
      assert ins.operands[1..] == [];
      assert OperandAt(words, i + 1, ins.operands[0], tab, base);
      assert OperandsAt(words, i + InsSize(ins), [], tab, base) && OperandsAt(words, i + 1, ins.operands, tab, base);
    }
    assert CodeAt(words, i + InsSize(ins), [], tab, base);
  }

  lemma {:induction false} CodeAtConcat(code: seq<nat>, i: nat, a: seq<Ins>, b: seq<Ins>, tab: seq<string>, base: nat)
    requires CodeAt(code, i, a, tab, base) && CodeAt(code, i + CodeSize(a), b, tab, base)
    ensures CodeAt(code, i, a + b, tab, base) && CodeSize(a + b) == CodeSize(a) + CodeSize(b)
    decreases |a|
  {
    hide OperandsAt, InsSize;
    if a == [] {
      assert a + b == b;
    } else {
      assert (a + b)[1..] == a[1..] + b && (a + b)[0] == a[0];
      CodeAtConcat(code, i + InsSize(a[0]), a[1..], b, tab, base);
    }
  }

  /** The instructions can be written. */
  lemma {:induction false} InssForOK(c: Code, pos: nat, tab: seq<string>)
    requires AllEmitted(c) && AllSpelled(c, tab, false)
    ensures InssOK(InssFor(c, pos, tab)) && AllKnown(InssFor(c, pos, tab))
    decreases c
  {
    hide InsOK, Emitted, Spelled, InsFor, Known;
    match c {
      case Nil => { }
      case One(it) => {
        InsForOK(it, pos, tab);
        OneIns(InsFor(it, pos, tab));
      }
      case Cat(a, b) => {
        InssForOK(a, pos, tab);
        InssForOK(b, pos + Size(a), tab);
      }
    }
  }

  /** The words of the code are the instructions. */
  lemma {:induction false} CodeIsThere(words: seq<nat>, base: nat, pos: nat, c: Code, tab: seq<string>)
    requires At(words, base + pos, c) && AllEmitted(c) && Closed(c) && AllSpelled(c, tab, false)
    ensures CodeAt(words, base + pos, InssFor(c, pos, tab), tab, base) && CodeSize(InssFor(c, pos, tab)) == Size(c)
    decreases c
  {
    hide At, CodeAt, CodeSize, InsOK, Emitted, Spelled, InsFor, InsSize, Known;
    match c {
      case Nil => {
        InCodeAt(words, base + pos);
        NothingThere(words, base + pos, tab, base);
      }
      case One(it) => {
        ItemIsThere(words, base, pos, it, tab);
        InsForOK(it, pos, tab);
        OneIns(InsFor(it, pos, tab));
      }
      case Cat(a, b) => {
        AtPair(words, base + pos, a, b);
        CodeIsThere(words, base, pos, a, tab);
        CodeIsThere(words, base, pos + Size(a), b, tab);
        CodeAtConcat(words, base + pos, InssFor(a, pos, tab), InssFor(b, pos + Size(a), tab), tab, base);
      }
    }
  }

  lemma InCodeAt(words: seq<nat>, i: nat)
    requires At(words, i, Nil)
    ensures i <= |words|
  {
  }

  lemma NothingThere(words: seq<nat>, i: nat, tab: seq<string>, base: nat)
    requires i <= |words|
    ensures CodeAt(words, i, [], tab, base) && CodeSize([]) == 0
  {
  }

  lemma OneIns(ins: Ins)
    ensures CodeSize([ins]) == InsSize(ins) && (InsOK(ins) ==> Known(ins.op))
  {
    assert [ins][1..] == [];
  }

  // ----- jumps -----

  lemma {:induction false} StartsConcat(a: seq<Ins>, b: seq<Ins>, pos: nat, t: int)
    ensures StartsAt(a + b, pos, t) <==> StartsAt(a, pos, t) || StartsAt(b, pos + CodeSize(a), t)
    decreases |a|
  {
    hide InsSize;
    if a == [] {
      assert a + b == b;
    } else {
      assert (a + b)[1..] == a[1..] + b && (a + b)[0] == a[0];
      StartsConcat(a[1..], b, pos + InsSize(a[0]), t);
    }
  }

  lemma {:induction false} AimedConcat(a: seq<Ins>, b: seq<Ins>, t: nat)
    ensures Aimed(a + b, t) <==> Aimed(a, t) || Aimed(b, t)
    decreases |a|
  {
    if a == [] {
      assert a + b == b;
    } else {
      assert (a + b)[1..] == a[1..] + b && (a + b)[0] == a[0];
      AimedConcat(a[1..], b, t);
    }
  }

  lemma {:induction false} SizeIs(c: Code, pos: nat, tab: seq<string>)
    requires AllEmitted(c) && AllSpelled(c, tab, false)
    ensures CodeSize(InssFor(c, pos, tab)) == Size(c)
    decreases c
  {
    hide InsOK, Emitted, Spelled, InsFor, InsSize;
    match c {
      case Nil =>
      case One(it) => {
        InsForOK(it, pos, tab);
        OneIns(InsFor(it, pos, tab));
      }
      case Cat(a, b) => {
        SizeIs(a, pos, tab);
        SizeIs(b, pos + Size(a), tab);
        SizeConcat(InssFor(a, pos, tab), InssFor(b, pos + Size(a), tab));
      }
    }
  }

  lemma {:induction false} SizeConcat(a: seq<Ins>, b: seq<Ins>)
    ensures CodeSize(a + b) == CodeSize(a) + CodeSize(b)
    decreases |a|
  {
    hide InsSize;
    if a == [] {
      assert a + b == b;
    } else {
      assert (a + b)[1..] == a[1..] + b && (a + b)[0] == a[0];
      SizeConcat(a[1..], b);
    }
  }

  lemma {:induction false} StartsKept(c: Code, pos: nat, tab: seq<string>, t: nat)
    requires AllEmitted(c) && AllSpelled(c, tab, false)
    ensures StartsAt(InssFor(c, pos, tab), pos, t) <==> t in Starts(c, pos)
    decreases c
  {
    hide InsFor, Emitted, Spelled, InsSize, CodeSize;
    match c {
      case Nil =>
      case One(it) => assert [InsFor(it, pos, tab)][1..] == [];
      case Cat(a, b) => {
        StartsKept(a, pos, tab, t);
        StartsKept(b, pos + Size(a), tab, t);
        SizeIs(a, pos, tab);
        StartsConcat(InssFor(a, pos, tab), InssFor(b, pos + Size(a), tab), pos, t);
      }
    }
  }

  lemma {:induction false} AimsLand(c: Code, pos: nat, tab: seq<string>, targets: set<nat>, t: nat)
    requires Closed(c) && AllSpelled(c, tab, false) && Lands(c, pos, targets) && Aimed(InssFor(c, pos, tab), t)
    ensures t in targets
    decreases c
  {
    hide Quotable, ByteCodeToInteger;
    match c {
      case Nil =>
      case One(it) => assert [InsFor(it, pos, tab)][1..] == [];
      case Cat(a, b) => {
        AimedConcat(InssFor(a, pos, tab), InssFor(b, pos + Size(a), tab), t);
        if Aimed(InssFor(a, pos, tab), t) { AimsLand(a, pos, tab, targets, t); }
        else { AimsLand(b, pos + Size(a), tab, targets, t); }
      }
    }
  }

  // ----- integers -----

  lemma {:induction false} StrictHighWords(c: Code, pos: nat, tab: seq<string>)
    requires AllSpelled(c, tab, true)
    ensures AllSpelled(c, tab, false) && HighWordsOK(InssFor(c, pos, tab))
    decreases c
  {
    hide Quotable, ByteCodeToInteger, Args;
    match c {
      case Nil =>
      case One(it) => if it.Op2? { WordsRoundTrip(it.x, it.y); }
      case Cat(a, b) => {
        StrictHighWords(a, pos, tab);
        StrictHighWords(b, pos + Size(a), tab);
      }
    }
  }

  // ----- what the generator emits is spelled -----

  lemma {:induction false} CloseSpelled(c: Code, k: nat, tab: seq<string>, strict: bool)
    requires AllSpelled(c, tab, strict)
    ensures AllSpelled(Close(c, k), tab, strict)
    decreases c
  {
    hide Quotable;
    if c.Cat? {
      CloseSpelled(c.a, Size(c.b) + k, tab, strict);
      CloseSpelled(c.b, k, tab, strict);
    }
  }

  /** The strings of the expression are in the table and can be written. */
  ghost predicate Spellable(e: Expr, tab: seq<string>) {
    forall s :: s in StringsOf(e) ==> s in tab && Quotable(s)
  }

  /** No constant has a high word that is an opcode with operands. */
  predicate IntegersOK(e: Expr) {
    match e
    case Const(v) => (v.Int? ==> HighWordOK(OInt(v.i))) && (v.Dur? ==> HighWordOK(OInt(v.d)))
    case Var(_) => true
    case Fn(_, l, r) => IntegersOK(l) && IntegersOK(r)
  }

  lemma SpellableParts(e: Expr, tab: seq<string>)
    requires Spellable(e, tab) && e.Fn?
    ensures Spellable(e.l, tab) && Spellable(e.r, tab)
  {
    hide Quotable;
    forall s | s in StringsOf(e.l) ensures s in StringsOf(e) { }
    forall s | s in StringsOf(e.r) ensures s in StringsOf(e) { }
  }

  lemma ConstantSpelled(v: Value, tab: seq<string>, strict: bool)
    requires !v.StrMap? && Spellable(Const(v), tab) && (strict ==> IntegersOK(Const(v)))
    ensures AllSpelled(PushInstr(v, tab), tab, strict) && AllSpelled(AEqInstr(v, tab), tab, strict)
  {
    hide Quotable, IndexOf, Args;
    if v.Str? { assert v.s in StringsOf(Const(v)); }
    if v.Int? { IntegerRoundTrip(v.i); }
    if v.Dur? { IntegerRoundTrip(v.d); }
  }

  lemma VariableSpelled(name: string, cx: Context, mode: Mode, strict: bool)
    requires name in cx.types && Spellable(Var(name), cx.tab)
    ensures AllSpelled(GenVar(name, cx, mode), cx.tab, strict)
  {
    hide Quotable, IndexOf;
    assert name in StringsOf(Var(name));
  }

  lemma {:induction false} GenSpelled(e: Expr, cx: Context, depth: nat, mode: Mode, strict: bool)
    requires EvalType(e, cx.types).Some? && Spellable(e, cx.tab) && (strict ==> IntegersOK(e))
    ensures AllSpelled(Gen(e, cx, depth, mode), cx.tab, strict)
    decreases e, 1
  {
    hide Spellable, Spelled, IndexOf, PushInstr, AEqInstr, EqInstr, GenVar;
    match e {
      case Const(v) => ConstantSpelled(v, cx.tab, strict);
      case Var(name) => VariableSpelled(name, cx, mode, strict);
      case Fn(op, l, r) => {
        SpellableParts(e, cx.tab);
        match op {
          case EQ => EqSpelled(e, cx, depth, strict);
          case NEQ => EqSpelled(e, cx, depth + 1, strict); PlainSpelled(NOT, 0, cx.tab, strict);
          case LAND => {
            GenSpelled(l, cx, depth + 1, NmNone, strict);
            GenSpelled(r, cx, depth + 1, NmNone, strict);
            PlainSpelled(AND, 0, cx.tab, strict);
            RowSpelled(Gen(l, cx, depth + 1, NmNone), Gen(r, cx, depth + 1, NmNone), I0(AND), cx.tab, strict);
          }
          case LOR => LorSpelled(e, cx, depth, strict);
          case INDEX => IndexSpelled(e, cx, depth, mode, strict);
          case OR => OrSpelled(e, cx, depth, mode, strict);
        }
      }
    }
  }

  /** Three codes in a row. */
  lemma RowSpelled(a: Code, b: Code, c: Code, tab: seq<string>, strict: bool)
    requires AllSpelled(a, tab, strict) && AllSpelled(b, tab, strict) && AllSpelled(c, tab, strict)
    ensures AllSpelled(Cat(a, Cat(b, c)), tab, strict)
  {
    hide Spelled;
    assert AllSpelled(Cat(b, c), tab, strict);
  }

  lemma PlainSpelled(op: nat, skip: nat, tab: seq<string>, strict: bool)
    ensures Spelled(Op0(op), tab, strict) && Spelled(Jump(op, skip), tab, strict) && Spelled(Exit(op), tab, strict)
    ensures Spelled(Op1(APUSH_B, 1), tab, strict)
  {
  }

  lemma EqSpelled(e: Expr, cx: Context, depth: nat, strict: bool)
    requires EvalType(e, cx.types).Some? && e.Fn? && e.op in {EQ, NEQ} && Spellable(e, cx.tab)
      && (strict ==> IntegersOK(e))
    ensures AllSpelled(GenEq(e, cx, depth), cx.tab, strict)
    decreases e, 0
  {
    hide Spellable, Spelled, Gen, AEqInstr;
    SpellableParts(e, cx.tab);
    GenSpelled(e.l, cx, depth + 1, NmNone, strict);
    if e.r.Const? {
      ConstantSpelled(e.r.v, cx.tab, strict);
    } else {
      GenSpelled(e.r, cx, depth + 1, NmNone, strict);
      PlainSpelled(EQ_S, 0, cx.tab, strict);
      PlainSpelled(EQ_B, 0, cx.tab, strict);
      PlainSpelled(EQ_I, 0, cx.tab, strict);
      var eq := EqInstr(EvalType(e.l, cx.types).value);
      RowSpelled(Gen(e.l, cx, depth + 1, NmNone), Gen(e.r, cx, depth + 1, NmNone), eq, cx.tab, strict);
    }
  }

  lemma LorSpelled(e: Expr, cx: Context, depth: nat, strict: bool)
    requires EvalType(e, cx.types).Some? && e.Fn? && e.op.LOR? && Spellable(e, cx.tab) && (strict ==> IntegersOK(e))
    ensures AllSpelled(GenLor(e, cx, depth), cx.tab, strict)
    decreases e, 0
  {
    hide Spellable, Spelled, Gen;
    SpellableParts(e, cx.tab);
    GenSpelled(e.l, cx, depth + 1, NmNone, strict);
    GenSpelled(e.r, cx, depth + 1, NmNone, strict);
    var b := Gen(e.r, cx, depth + 1, NmNone);
    var leave := if depth == 0 then Op0(RET) else Jump(JMP, Size(b));
    PlainSpelled(RET, 0, cx.tab, strict);
    PlainSpelled(JMP, Size(b), cx.tab, strict);
    PlainSpelled(JZ, 2 + ItemSize(leave), cx.tab, strict);
    var push, jz := I1(APUSH_B, 1), One(Jump(JZ, 2 + ItemSize(leave)));
    RowSpelled(push, One(leave), b, cx.tab, strict);
    RowSpelled(Gen(e.l, cx, depth + 1, NmNone), jz, Cat(push, Cat(One(leave), b)), cx.tab, strict);
  }

  lemma KeySpelled(e: Expr, cx: Context, depth: nat, strict: bool)
    requires EvalType(e, cx.types).Some? && e.Fn? && e.op.INDEX? && Spellable(e, cx.tab) && (strict ==> IntegersOK(e))
    ensures AllSpelled(KeyCode(e, cx, depth), cx.tab, strict)
    decreases e, 0, 0
  {
    hide Spellable, Spelled, Gen, Close;
    SpellableParts(e, cx.tab);
    GenSpelled(e.r, cx, depth + 1, NmJmpOnValue, strict);
    CloseSpelled(Gen(e.r, cx, depth + 1, NmJmpOnValue), 2, cx.tab, strict);
    PlainSpelled(JMP, 3, cx.tab, strict);
  }

  lemma IndexSpelled(e: Expr, cx: Context, depth: nat, mode: Mode, strict: bool)
    requires EvalType(e, cx.types).Some? && e.Fn? && e.op.INDEX? && Spellable(e, cx.tab) && (strict ==> IntegersOK(e))
    ensures AllSpelled(if mode.NmNone? then GenIndex(e, cx, depth) else GenIndexJump(e, cx, depth), cx.tab, strict)
    decreases e, 0
  {
    hide Spellable, Gen, Close, KeyCode, IndexOf, Quotable;
    SpellableParts(e, cx.tab);
    GenSpelled(e.l, cx, depth + 1, mode, strict);
    if mode.NmNone? {
      if e.r.Const? && e.r.v.Str? { KeyConstant(e, cx.tab); }
      else {
        GenSpelled(e.r, cx, depth + 1, NmNone, strict);
        RowSpelled(Gen(e.l, cx, depth + 1, NmNone), Gen(e.r, cx, depth + 1, NmNone), I0(NLOOKUP), cx.tab, strict);
      }
    } else {
      KeySpelled(e, cx, depth, strict);
      CloseSpelled(Gen(e.l, cx, depth + 1, NmJmpOnValue), 2, cx.tab, strict);
      var key := KeyCode(e, cx, depth);
      var target, look := Close(Gen(e.l, cx, depth + 1, NmJmpOnValue), 2), Cat(key, Cat(I0(TLOOKUP), One(Exit(JNZ))));
      RowSpelled(key, I0(TLOOKUP), One(Exit(JNZ)), cx.tab, strict);
      RowSpelled(target, One(Jump(JMP, Size(key) + 3)), look, cx.tab, strict);
    }
  }

  lemma KeyConstant(e: Expr, tab: seq<string>)
    requires e.Fn? && e.r.Const? && e.r.v.Str? && Spellable(e.r, tab)
    ensures IndexOf(tab, e.r.v.s) < |tab| && Quotable(tab[IndexOf(tab, e.r.v.s)])
  {
    hide IndexOf, Quotable;
    assert e.r.v.s in StringsOf(e.r);
  }

  lemma OrSpelled(e: Expr, cx: Context, depth: nat, mode: Mode, strict: bool)
    requires EvalType(e, cx.types).Some? && e.Fn? && e.op.OR? && Spellable(e, cx.tab) && (strict ==> IntegersOK(e))
    ensures AllSpelled(GenOr(e, cx, depth, mode), cx.tab, strict)
    decreases e, 0
  {
    hide Spellable, Spelled, Gen, Close;
    SpellableParts(e, cx.tab);
    GenSpelled(e.l, cx, depth + 1, NmJmpOnValue, strict);
    GenSpelled(e.r, cx, depth + 1, OrRightMode(e.r, mode), strict);
    var code := Cat(Gen(e.l, cx, depth + 1, NmJmpOnValue), Gen(e.r, cx, depth + 1, OrRightMode(e.r, mode)));
    CloseSpelled(code, 0, cx.tab, strict);
  }

  // ----- the compiled function -----

  /** The IL type of a result. */
  function ILTypeOf(t: Type): ILType {
    match t
    case STRING => StringT
    case BOOL => BoolT
    case INT64 => IntegerT
    case DURATION => DurationT
    case STRING_MAP => InterfaceT
  }

  lemma {:induction false} TableGrows(c: Code, tab: seq<string>, now: seq<string>, strict: bool)
    requires AllSpelled(c, tab, strict) && tab <= now
    ensures AllSpelled(c, now, strict)
    decreases c
  {
    hide Quotable;
    if c.Cat? {
      TableGrows(c.a, tab, now, strict);
      TableGrows(c.b, tab, now, strict);
    }
  }

  lemma {:induction false} Lenient(c: Code, tab: seq<string>, strict: bool)
    requires AllSpelled(c, tab, strict)
    ensures AllSpelled(c, tab, false)
    decreases c
  {
    hide Quotable;
    if c.Cat? {
      Lenient(c.a, tab, strict);
      Lenient(c.b, tab, strict);
    }
  }

  lemma BodySpelled(e: Expr, cx: Context, now: seq<string>, strict: bool)
    requires EvalType(e, cx.types).Some? && Spellable(e, cx.tab) && cx.tab <= now && (strict ==> IntegersOK(e))
    ensures AllSpelled(Body(e, cx), now, strict) && AllSpelled(Body(e, cx), now, false)
  {
    hide Spellable, Spelled, Gen;
    GenSpelled(e, cx, 0, NmNone, strict);
    PlainSpelled(RET, 0, cx.tab, strict);
    assert AllSpelled(Body(e, cx), cx.tab, strict);
    TableGrows(Body(e, cx), cx.tab, now, strict);
    Lenient(Body(e, cx), now, strict);
  }

  /** Its jumps lead to instructions. */
  lemma BodyJumpsWithin(e: Expr, cx: Context, now: seq<string>)
    requires EvalType(e, cx.types).Some? && Supported(e, cx.types) && AllSpelled(Body(e, cx), now, false)
    ensures AllEmitted(Body(e, cx)) && Closed(Body(e, cx)) && JumpsWithin(InssFor(Body(e, cx), 0, now))
  {
    hide Gen, Lands, Starts, Spelled, InssFor, StartsAt, Targets, Aimed, Emitted;
    var c := Body(e, cx);
    var inss := InssFor(c, 0, now);
    BodyForward(e, cx, 0);
    RetPart(Gen(e, cx, 0, NmNone));
    BodyLands(Gen(e, cx, 0, NmNone), Starts(c, 0));
    var ts := Targets(inss, []);
    forall i | 0 <= i < |ts| ensures StartsAt(inss, 0, ts[i]) {
      TargetsAre(inss, [], ts[i]);
      AimsLand(c, 0, now, Starts(c, 0), ts[i]);
      StartsKept(c, 0, now, ts[i]);
    }
  }

  lemma BodyLands(g: Code, targets: set<nat>)
    requires Lands(g, 0, targets)
    ensures Lands(Cat(g, I0(RET)), 0, targets)
  {
  }

  lemma EvalIsWord()
    ensures IsWord("eval")
  {
    assert |"eval"| == 4 && "eval"[0] == 'e' && "eval"[1] == 'v' && "eval"[2] == 'a' && "eval"[3] == 'l';
  }

  /**
   A compiled function whose strings can be quoted is one that the text form can hold, with jumps to
   instructions only. Its text reads back as it is exactly if the scan finds its targets, and so in
   particular if no integer constant has a high word that is an opcode with operands.
   */
  lemma CompiledRewrites(e: Expr, types: Vocabulary, code: seq<nat>, tab: seq<string>, f: Function, now: seq<string>,
          strings: seq<string>)
    requires Compiled(e, types, code, tab, f) && tab <= now && forall s :: s in StringsOf(e) ==> Quotable(s)
    ensures AllSpelled(Body(e, Context(types, tab)), now, false)
    ensures var g := Fun("eval", [], ILTypeOf(f.ret), InssFor(Body(e, Context(types, tab)), 0, now));
      && FnOK(g) && AllKnown(g.inss) && CodeAt(code, f.address, g.inss, now, f.address) && CodeSize(g.inss) == f.length
      && var text := Written(code, f.address, g);
         && (text.Some? && ReadsBack(text.value, g, strings) <==> TargetsFound(code, f.address, g.inss))
         && (IntegersOK(e) ==> text.Some? && ReadsBack(text.value, g, strings))
  {
    hide Body, At, Quotable, StringsOf, EvalType, Supported, Size, InssFor, AllSpelled, AllEmitted, Closed,
      JumpsWithin, InsOK, CodeAt, TargetsFound, Written, ReadsBack, IntegersOK, HighWordsOK, CodeSize, IsWord,
      Intern, InternAll;
    CompiledTable(e, types, code, tab, f);
    var cx := Context(types, tab);
    assert Spellable(e, tab);
    BodySpelled(e, cx, now, false);
    BodyJumpsWithin(e, cx, now);
    CodeIsThere(code, f.address, 0, Body(e, cx), now);
    InssForOK(Body(e, cx), 0, now);
    EvalIsWord();
    var g := Fun("eval", [], ILTypeOf(f.ret), InssFor(Body(e, cx), 0, now));
    assert FnOK(g);
    WrittenReadsBack(code, f.address, g, strings);
    if IntegersOK(e) {
      BodySpelled(e, cx, now, true);
      StrictHighWords(Body(e, cx), 0, now);
      ShapedParts(g);
      FoundIfHighWordsOK(code, f.address, g.inss, now);
    }
  }
}

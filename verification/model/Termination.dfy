/** Compiled code only moves forward: every run of it ends, and none reaches a Halt word. */
module Termination {
  import opened Values
  import opened StringTables
  import opened Opcodes
  import opened Code
  import opened Expressions
  import opened CodeGen
  import opened Machine

  /** The items that the generator emits. */
  predicate Emitted(it: Item) {
    match it
    case Op0(op) => op in {EQ_S, EQ_B, EQ_I, AND, NOT, RET, TLOOKUP, NLOOKUP}
    case Op1(op, _) => op in {APUSH_S, APUSH_B, AEQ_S, AEQ_B, ANLOOKUP, RESOLVE_S, RESOLVE_B, RESOLVE_I, RESOLVE_F,
                              TRESOLVE_S, TRESOLVE_B, TRESOLVE_I, TRESOLVE_F}
    case Op2(op, _, _) => op in {APUSH_I, AEQ_I}
    case Jump(op, _) => op in {JMP, JZ, JNZ}
    case Exit(op) => op == JNZ
  }

  predicate AllEmitted(c: Code) {
    match c
    case Nil => true
    case One(it) => Emitted(it)
    case Cat(a, b) => AllEmitted(a) && AllEmitted(b)
  }

  /** The addresses at which an instruction starts. */
  function Starts(c: Code, base: nat): set<nat> {
    match c
    case Nil => {}
    case One(_) => {base}
    case Cat(a, b) => Starts(a, base) + Starts(b, base + Size(a))
  }

  /** Every resolved jump leads to one of the addresses. */
  predicate Lands(c: Code, base: nat, targets: set<nat>) {
    match c
    case Nil => true
    case One(it) => it.Jump? ==> base + 2 + it.skip in targets
    case Cat(a, b) => Lands(a, base, targets) && Lands(b, base + Size(a), targets)
  }

  lemma {:induction false} LandsMore(c: Code, base: nat, small: set<nat>, big: set<nat>)
    requires Lands(c, base, small) && small <= big
    ensures Lands(c, base, big)
    decreases c
  {
    if c.Cat? {
      LandsMore(c.a, base, small, big);
      LandsMore(c.b, base + Size(c.a), small, big);
    }
  }

  /** Code that is not empty has an instruction at its base. */
  lemma {:induction false} BaseStarts(c: Code, base: nat)
    ensures Size(c) == 0 || base in Starts(c, base)
    decreases c
  {
    if c.Cat? {
      BaseStarts(c.a, base);
      BaseStarts(c.b, base + Size(c.a));
    }
  }

  /** The jumps of `c` stay within `c`, go to its end, or `k` words past it. */
  predicate Forward(c: Code, base: nat, k: nat) {
    AllEmitted(c) && Size(c) > 0 && Lands(c, base, Starts(c, base) + {base + Size(c), base + Size(c) + k})
  }

  /** Two codes in a row, the second of which the first one's label is in or past. */
  lemma ForwardCat(a: Code, b: Code, base: nat, ka: nat, kb: nat)
    requires Forward(a, base, ka) && Forward(b, base + Size(a), kb)
    requires base + Size(a) + ka in Starts(b, base + Size(a))
      + {base + Size(a), base + Size(a) + Size(b), base + Size(a) + Size(b) + kb}
    ensures Forward(Cat(a, b), base, kb)
  {
    hide Lands, AllEmitted, Starts;
    var mid, end := base + Size(a), base + Size(a) + Size(b);
    var all := Starts(a, base) + Starts(b, mid) + {end, end + kb};
    BaseStarts(b, mid);
    LandsMore(a, base, Starts(a, base) + {mid, mid + ka}, all);
    LandsMore(b, mid, Starts(b, mid) + {end, end + kb}, all);
    ForwardParts(a, b, base, all);
  }

  lemma ForwardParts(a: Code, b: Code, base: nat, all: set<nat>)
    requires Lands(a, base, all) && Lands(b, base + Size(a), all)
    ensures Lands(Cat(a, b), base, all)
    ensures AllEmitted(a) && AllEmitted(b) ==> AllEmitted(Cat(a, b))
    ensures Starts(Cat(a, b), base) == Starts(a, base) + Starts(b, base + Size(a))
  {
  }

  lemma ForwardOne(it: Item, base: nat, k: nat)
    requires Emitted(it) && (it.Jump? ==> it.skip == k || it.skip == 0)
    ensures Forward(One(it), base, k)
  {
  }

  /** Two operands and the instruction that combines them. */
  lemma {:induction false} OperandsForward(e: Expr, it: Item, cx: Context, d: nat, base: nat, k: nat)
    requires e.Fn? && EvalType(e.l, cx.types).Some? && EvalType(e.r, cx.types).Some? && Emitted(it) && !it.Jump?
    requires Supported(e.l, cx.types) && Supported(e.r, cx.types)
    ensures Forward(Cat(Gen(e.l, cx, d, NmNone), Cat(Gen(e.r, cx, d, NmNone), One(it))), base, k)
    decreases e, 0
  {
    hide Forward, Lands, AllEmitted, Gen, GenEq, GenVar, GenLor, GenIndex, GenOr;
    var a, b := Gen(e.l, cx, d, NmNone), Gen(e.r, cx, d, NmNone);
    ValueForward(e.l, cx, d, base, 0);
    ValueForward(e.r, cx, d, base + Size(a), 0);
    ForwardOne(it, base + Size(a) + Size(b), k);
    ForwardCat(b, One(it), base + Size(a), 0, k);
    ForwardCat(a, Cat(b, One(it)), base, 0, k);
  }

  /** One operand and an instruction after it. */
  lemma {:induction false} OperandForward(e: Expr, it: Item, cx: Context, d: nat, base: nat, k: nat)
    requires e.Fn? && EvalType(e.l, cx.types).Some? && Emitted(it) && !it.Jump? && Supported(e.l, cx.types)
    ensures Forward(Cat(Gen(e.l, cx, d, NmNone), One(it)), base, k)
    decreases e, 0
  {
    hide Forward, Lands, AllEmitted, Gen;
    ValueForward(e.l, cx, d, base, 0);
    ForwardOne(it, base + Size(Gen(e.l, cx, d, NmNone)), k);
    ForwardCat(Gen(e.l, cx, d, NmNone), One(it), base, 0, k);
  }

  lemma {:induction false} EqForward(e: Expr, cx: Context, depth: nat, base: nat, k: nat)
    requires EvalType(e, cx.types).Some? && Supported(e, cx.types) && e.Fn? && e.op in {EQ, NEQ}
    ensures Forward(GenEq(e, cx, depth), base, k)
    decreases e, 1
  {
    hide Forward, Lands, AllEmitted;
    if e.r.Const? {
      assert EvalType(e.r, cx.types) == Some(TypeOf(e.r.v));
      OperandForward(e, AEqInstr(e.r.v, cx.tab).item, cx, depth + 1, base, k);
    } else {
      OperandsForward(e, EqInstr(EvalType(e.l, cx.types).value).item, cx, depth + 1, base, k);
    }
  }

  lemma {:induction false} LorForward(e: Expr, cx: Context, depth: nat, base: nat, k: nat)
    requires EvalType(e, cx.types).Some? && Supported(e, cx.types) && e.Fn? && e.op.LOR?
    ensures Forward(GenLor(e, cx, depth), base, k)
    decreases e, 1
  {
    hide Forward, Lands, AllEmitted, Gen;
    var a, b := Gen(e.l, cx, depth + 1, NmNone), Gen(e.r, cx, depth + 1, NmNone);
    var leave := if depth == 0 then Op0(RET) else Jump(JMP, Size(b));
    var p := base + Size(a);
    var q := p + 4 + ItemSize(leave);
    ValueForward(e.l, cx, depth + 1, base, 0);
    ValueForward(e.r, cx, depth + 1, q, k);
    ForwardBegins(b, q, k);
    ForwardOne(leave, p + 4, if depth == 0 then 0 else Size(b));
    ForwardCat(One(leave), b, p + 4, if depth == 0 then 0 else Size(b), k);
    ForwardOne(Op1(APUSH_B, 1), p + 2, 0);
    ForwardCat(I1(APUSH_B, 1), Cat(One(leave), b), p + 2, 0, k);
    ForwardOne(Jump(JZ, 2 + ItemSize(leave)), p, 2 + ItemSize(leave));
    ForwardCat(One(Jump(JZ, 2 + ItemSize(leave))), Cat(I1(APUSH_B, 1), Cat(One(leave), b)), p, 2 + ItemSize(leave), k);
    ForwardCat(a, Cat(One(Jump(JZ, 2 + ItemSize(leave))), Cat(I1(APUSH_B, 1), Cat(One(leave), b))), base, 0, k);
  }

  lemma ForwardBegins(c: Code, base: nat, k: nat)
    requires Forward(c, base, k)
    ensures base in Starts(c, base)
  {
    BaseStarts(c, base);
  }

  lemma {:induction false} OrForward(e: Expr, cx: Context, depth: nat, mode: Mode, base: nat, k: nat)
    requires EvalType(e, cx.types).Some? && Supported(e, cx.types) && e.Fn? && e.op.OR?
    ensures var a, b := Gen(e.l, cx, depth + 1, NmJmpOnValue), Gen(e.r, cx, depth + 1, OrRightMode(e.r, mode));
      Forward(Cat(Close(a, Size(b) + k), Close(b, k)), base, k)
    decreases e, 1
  {
    hide Forward, Lands, AllEmitted, Gen;
    var a, b := Gen(e.l, cx, depth + 1, NmJmpOnValue), Gen(e.r, cx, depth + 1, OrRightMode(e.r, mode));
    JumpForward(e.l, cx, depth + 1, base, Size(b) + k);
    if OrRightMode(e.r, mode).NmNone? {
      ValueForward(e.r, cx, depth + 1, base + Size(a), k);
      ValueCodeClosed(e.r, cx, depth + 1);
      CloseCloses(b, k);
    } else {
      JumpForward(e.r, cx, depth + 1, base + Size(a), k);
    }
    ForwardCat(Close(a, Size(b) + k), Close(b, k), base, Size(b) + k, k);
  }

  lemma {:induction false} IndexJumpForward(e: Expr, cx: Context, depth: nat, base: nat, k: nat)
    requires EvalType(e, cx.types).Some? && Supported(e, cx.types) && e.Fn? && e.op.INDEX?
    ensures Forward(Close(Gen(e, cx, depth, NmJmpOnValue), k), base, k)
    decreases e, 1
  {
    hide Forward, Lands, AllEmitted, Gen, KeyCode, Starts;
    var m := Close(Gen(e.l, cx, depth + 1, NmJmpOnValue), 2);
    JumpForward(e.l, cx, depth + 1, base, 2);
    var key := KeyForward(e, cx, depth, base + Size(m) + 2);
    LookupForward(key, base + Size(m), k);
    ForwardCat(m, Cat(One(Jump(JMP, Size(key) + 3)), Cat(key, Cat(I0(TLOOKUP), One(Jump(JNZ, k))))), base, 2, k);
    IndexJumpShape(e, cx, depth, k);
    IndexJumpGen(e, cx, depth);
  }

  /** From the jump past the lookup to its end; the key begins where a resolved target jumps to. */
  lemma LookupForward(key: Code, p: nat, k: nat)
    requires Forward(key, p + 2, 3)
    ensures var tail := Cat(One(Jump(JMP, Size(key) + 3)), Cat(key, Cat(I0(TLOOKUP), One(Jump(JNZ, k)))));
      Forward(tail, p, k) && p + 2 in Starts(tail, p)
  {
    hide Forward, Lands, AllEmitted;
    var q := p + 2 + Size(key);
    var look := Cat(I0(TLOOKUP), One(Jump(JNZ, k)));
    ForwardBegins(key, p + 2, 3);
    ForwardOne(Op0(TLOOKUP), q, 0);
    ForwardOne(Jump(JNZ, k), q + 1, k);
    ForwardCat(I0(TLOOKUP), One(Jump(JNZ, k)), q, 0, k);
    ForwardCat(key, look, p + 2, 3, k);
    ForwardOne(Jump(JMP, Size(key) + 3), p, Size(key) + 3);
    ForwardCat(One(Jump(JMP, Size(key) + 3)), Cat(key, look), p, Size(key) + 3, k);
  }

  /** The key of an INDEX in jump mode, and the code for it. */
  lemma {:induction false} KeyForward(e: Expr, cx: Context, depth: nat, p: nat) returns (key: Code)
    requires EvalType(e, cx.types).Some? && Supported(e, cx.types) && e.Fn? && e.op.INDEX?
    ensures key == KeyCode(e, cx, depth) && Forward(key, p, 3) && Closed(key)
    decreases e, 0
  {
    hide Forward, Lands, AllEmitted, Gen;
    key := KeyCode(e, cx, depth);
    if e.r.Const? {
      ConstForward(e.r, cx, depth + 1, p, 3);
    } else {
      var kc := Gen(e.r, cx, depth + 1, NmJmpOnValue);
      JumpForward(e.r, cx, depth + 1, p, 2);
      ForwardOne(Jump(JMP, 3), p + Size(kc), 3);
      ForwardCat(Close(kc, 2), One(Jump(JMP, 3)), p, 2, 3);
      CloseCloses(kc, 2);
    }
  }

  lemma ConstForward(e: Expr, cx: Context, depth: nat, base: nat, k: nat)
    requires e.Const? && EvalType(e, cx.types).Some?
    ensures Forward(Gen(e, cx, depth, NmJmpOnValue), base, k) && Closed(Gen(e, cx, depth, NmJmpOnValue))
  {
    hide Forward;
    ForwardOne(PushInstr(e.v, cx.tab).item, base, k);
  }

  /** Jump-on-value code is forward once its label is placed. */
  lemma {:induction false} JumpForward(e: Expr, cx: Context, depth: nat, base: nat, k: nat)
    requires EvalType(e, cx.types).Some? && Supported(e, cx.types)
    ensures Forward(Close(Gen(e, cx, depth, NmJmpOnValue), k), base, k)
    decreases e, 3
  {
    hide Forward, Lands, AllEmitted;
    if e.Var? {
      var it := Op1(TResolveOp(cx.types[e.name]), IndexOf(cx.tab, e.name));
      ForwardOne(it, base, 0);
      ForwardOne(Jump(JNZ, k), base + 2, k);
      ForwardCat(One(it), One(Jump(JNZ, k)), base, 0, k);
    } else if e.Fn? && e.op.OR? {
      OrForward(e, cx, depth, NmJmpOnValue, base, k);
      OrShape(e, cx, depth, NmJmpOnValue, k);
    } else if e.Fn? && e.op.INDEX? {
      IndexJumpForward(e, cx, depth, base, k);
    } else {
      ValueForward(e, cx, depth, base, k);
      ValueCodeClosed(e, cx, depth);
      CloseCloses(Gen(e, cx, depth, NmNone), k);
    }
  }

  /** Value-mode code is forward, whatever follows it. */
  lemma {:induction false} ValueForward(e: Expr, cx: Context, depth: nat, base: nat, k: nat)
    requires EvalType(e, cx.types).Some? && Supported(e, cx.types)
    ensures Forward(Gen(e, cx, depth, NmNone), base, k)
    decreases e, 2
  {
    hide Forward, Gen, GenEq, GenLor, GenIndex, GenOr, Supported, EvalType, Size;
    if e.Fn? {
      PartsSupported(e, cx);
      match e.op
      case EQ => EqForward(e, cx, depth, base, k); EqGen(e, cx, depth);
      case NEQ =>
        EqForward(e, cx, depth + 1, base, 0); EqGen(e, cx, depth);
        ForwardOne(Op0(NOT), base + Size(GenEq(e, cx, depth + 1)), k);
        ForwardCat(GenEq(e, cx, depth + 1), I0(NOT), base, 0, k);
      case LAND => OperandsForward(e, Op0(AND), cx, depth + 1, base, k); LogicGen(e, cx, depth);
      case LOR => LorForward(e, cx, depth, base, k); LogicGen(e, cx, depth);
      case INDEX => IndexForward(e, cx, depth, base, k);
      case OR =>
        OrForward(e, cx, depth, NmNone, base, 0);
        OrShape(e, cx, depth, NmNone, 0);
        ForwardEnd(Gen(e, cx, depth, NmNone), base, k);
    } else {
      LeafForward(e, cx, depth, base, k);
    }
  }

  lemma PartsSupported(e: Expr, cx: Context)
    requires EvalType(e, cx.types).Some? && Supported(e, cx.types) && e.Fn?
    ensures EvalType(e.l, cx.types).Some? && EvalType(e.r, cx.types).Some?
    ensures Supported(e.l, cx.types) && Supported(e.r, cx.types)
  {
  }

  lemma LeafForward(e: Expr, cx: Context, depth: nat, base: nat, k: nat)
    requires EvalType(e, cx.types).Some? && !e.Fn?
    ensures Forward(Gen(e, cx, depth, NmNone), base, k)
  {
    hide Forward;
    if e.Const? {
      ForwardOne(PushInstr(e.v, cx.tab).item, base, k);
    } else {
      ForwardOne(GenVar(e.name, cx, NmNone).item, base, k);
    }
  }

  lemma EqGen(e: Expr, cx: Context, depth: nat)
    requires EvalType(e, cx.types).Some? && e.Fn? && e.op in {EQ, NEQ}
    ensures e.op.EQ? ==> Gen(e, cx, depth, NmNone) == GenEq(e, cx, depth)
    ensures e.op.NEQ? ==> Gen(e, cx, depth, NmNone) == Cat(GenEq(e, cx, depth + 1), I0(NOT))
  {
    hide GenEq;
  }

  lemma LogicGen(e: Expr, cx: Context, depth: nat)
    requires EvalType(e, cx.types).Some? && e.Fn? && e.op in {LAND, LOR}
    ensures e.op.LOR? ==> Gen(e, cx, depth, NmNone) == GenLor(e, cx, depth)
    ensures EvalType(e.l, cx.types).Some? && EvalType(e.r, cx.types).Some?
    ensures e.op.LAND? ==>
      Gen(e, cx, depth, NmNone) == Cat(Gen(e.l, cx, depth + 1, NmNone), Cat(Gen(e.r, cx, depth + 1, NmNone), I0(AND)))
  {
    hide GenLor;
  }

  lemma {:induction false} IndexForward(e: Expr, cx: Context, depth: nat, base: nat, k: nat)
    requires EvalType(e, cx.types).Some? && Supported(e, cx.types) && e.Fn? && e.op.INDEX?
    ensures Forward(Gen(e, cx, depth, NmNone), base, k)
    decreases e, 1
  {
    hide Forward;
    if e.r.Const? && e.r.v.Str? {
      OperandForward(e, Op1(ANLOOKUP, IndexOf(cx.tab, e.r.v.s)), cx, depth + 1, base, k);
    } else {
      OperandsForward(e, Op0(NLOOKUP), cx, depth + 1, base, k);
    }
  }

  lemma ForwardEnd(c: Code, base: nat, k: nat)
    requires Forward(c, base, 0)
    ensures Forward(c, base, k)
  {
    LandsMore(c, base, Starts(c, base) + {base + Size(c), base + Size(c)},
        Starts(c, base) + {base + Size(c), base + Size(c) + k});
  }

  // ----- running -----

  /** The instruction at one of the starts, and where it may lead. */
  lemma {:induction false} ItemAtStart(words: seq<nat>, base: nat, c: Code, targets: set<nat>, a: nat)
    returns (it: Item)
    requires At(words, base, c) && AllEmitted(c) && Closed(c) && Lands(c, base, targets) && a in Starts(c, base)
    ensures At(words, a, One(it)) && Emitted(it) && !it.Exit?
    ensures base <= a && a + ItemSize(it) in Starts(c, base) + {base + Size(c)}
    ensures it.Jump? ==> a + 2 + it.skip in targets
    decreases c
  {
    if c.One? {
      it := c.item;
    } else if a in Starts(c.a, base) {
      it := ItemAtStart(words, base, c.a, targets, a);
      BaseStarts(c.b, base + Size(c.a));
    } else {
      it := ItemAtStart(words, base + Size(c.a), c.b, targets, a);
    }
  }

  /** `o` moves from `ip` to the next instruction or along the jump, and is no halt of the machine. */
  ghost predicate Moves(ip: nat, it: Item, o: Outcome) {
    match o
    case Running(s) => it.op != RET && (s.ip == ip + ItemSize(it) || (it.Jump? && s.ip == ip + 2 + it.skip))
    case Failed(f) => f != Halted && !f.InvalidOpcode?
    case Returned(_) => true
  }

  lemma LookupMoves(s: State, op: nat)
    requires op in {TLOOKUP, NLOOKUP}
    ensures Moves(s.ip, Op0(op), StepLookup(s, op))
  {
  }

  lemma ResolveMoves(env: Env, s: State, op: nat, x: nat)
    ensures op in {RESOLVE_S, RESOLVE_B, RESOLVE_I, RESOLVE_F} ==> Moves(s.ip, Op1(op, x), StepResolve(env, s, op))
    ensures op in {TRESOLVE_S, TRESOLVE_B, TRESOLVE_I, TRESOLVE_F} ==> Moves(s.ip, Op1(op, x), StepTResolve(env, s, op))
  {
    hide Load, GetString;
  }

  /** A step of emitted code moves. */
  lemma StepMoves(env: Env, s: State, it: Item)
    requires At(env.code, s.ip, One(it)) && Emitted(it) && !it.Exit?
    ensures Moves(s.ip, it, Exec(env, s, 1))
  {
    hide Step, Exec, StepLookup, StepResolve, StepTResolve;
    var op := it.op;
    if op in {APUSH_S, APUSH_B, APUSH_I} { FetchPush(env, s, op); }
    else if op in {EQ_S, EQ_B, EQ_I, AND, NOT} { FetchBool(env, s, op); }
    else if op in {AEQ_S, AEQ_B, AEQ_I} { FetchAEq(env, s, op); }
    else if op in {RESOLVE_S, RESOLVE_B, RESOLVE_I, RESOLVE_F} {
      FetchResolve(env, s, op);
      ResolveMoves(env, s, op, it.x);
    }
    else if op in {TRESOLVE_S, TRESOLVE_B, TRESOLVE_I, TRESOLVE_F} {
      FetchTResolve(env, s, op);
      ResolveMoves(env, s, op, it.x);
    }
    else if op in {JMP, JZ, JNZ} { FetchJump(env, s, op); }
    else if op == RET { FetchRet(env, s); }
    else if op in {TLOOKUP, NLOOKUP} { FetchLookup(env, s, op); LookupMoves(s, op); }
    else { FetchANLookup(env, s); }
  }

  /** The body of a compiled function. */
  function Body(e: Expr, cx: Context): Code
    requires EvalType(e, cx.types).Some?
  {
    Cat(Gen(e, cx, 0, NmNone), I0(RET))
  }

  lemma BodyStarts(e: Expr, cx: Context, base: nat)
    requires EvalType(e, cx.types).Some?
    ensures var g := Gen(e, cx, 0, NmNone);
      Starts(Body(e, cx), base) == Starts(g, base) + {base + Size(g)} && Size(Body(e, cx)) == Size(g) + 1
  {
    hide Gen;
  }

  /** Every jump of a compiled body leads to a later instruction of it. */
  lemma BodyForward(e: Expr, cx: Context, base: nat)
    requires EvalType(e, cx.types).Some? && Supported(e, cx.types)
    ensures var g := Gen(e, cx, 0, NmNone);
      && AllEmitted(g) && Closed(g) && Lands(g, base, Starts(Body(e, cx), base))
      && base in Starts(Body(e, cx), base)
  {
    hide Gen, Lands, AllEmitted;
    var g := Gen(e, cx, 0, NmNone);
    BodyStarts(e, cx, base);
    ValueForward(e, cx, 0, base, 0);
    ValueCodeClosed(e, cx, 0);
    BaseStarts(g, base);
    LandsMore(g, base, Starts(g, base) + {base + Size(g), base + Size(g) + 0}, Starts(Body(e, cx), base));
  }

  /** A step within a compiled body stops, or leads to a later instruction of the body. */
  lemma BodyStep(e: Expr, cx: Context, base: nat, env: Env, s: State)
    requires EvalType(e, cx.types).Some? && Supported(e, cx.types)
    requires At(env.code, base, Body(e, cx)) && s.ip in Starts(Body(e, cx), base)
    ensures s.ip < base + Size(Body(e, cx))
    ensures match Exec(env, s, 1)
      case Running(s') => s'.ip in Starts(Body(e, cx), base) && s.ip < s'.ip
      case Failed(f) => f != Halted && !f.InvalidOpcode?
      case Returned(_) => true
  {
    hide Step, Exec, Gen, Emitted, Lands, AllEmitted, Starts;
    var g := Gen(e, cx, 0, NmNone);
    BodyForward(e, cx, base);
    BodyStarts(e, cx, base);
    AtPair(env.code, base, g, I0(RET));
    if s.ip in Starts(g, base) {
      var it := ItemAtStart(env.code, base, g, Starts(Body(e, cx), base), s.ip);
      StartsBefore(g, base, s.ip);
      StepMoves(env, s, it);
    } else {
      RetEmitted();
      StepMoves(env, s, Op0(RET));
    }
  }

  lemma RetEmitted()
    ensures Emitted(Op0(RET))
  {
  }

  lemma {:induction false} StartsBefore(c: Code, base: nat, a: nat)
    requires a in Starts(c, base)
    ensures base <= a < base + Size(c)
    decreases c
  {
    if c.Cat? {
      if a in Starts(c.a, base) { StartsBefore(c.a, base, a); } else { StartsBefore(c.b, base + Size(c.a), a); }
    }
  }

  /** Any run of a compiled body, from any of its instructions, ends, and not by a halt of the machine. */
  lemma {:induction false} CompiledCodeTerminates(e: Expr, cx: Context, base: nat, env: Env, s: State, n: nat)
    requires EvalType(e, cx.types).Some? && Supported(e, cx.types)
    requires At(env.code, base, Body(e, cx)) && s.ip in Starts(Body(e, cx), base)
    requires n + s.ip >= base + Size(Body(e, cx))
    ensures !Exec(env, s, n).Running?
    ensures Exec(env, s, n).Failed? ==> Exec(env, s, n).f != Halted && !Exec(env, s, n).f.InvalidOpcode?
    decreases n
  {
    hide Step, Exec, Body, At, Starts, Size;
    BodyStep(e, cx, base, env, s);
    if Exec(env, s, 1).Running? {
      CompiledCodeTerminates(e, cx, base, env, Exec(env, s, 1).s, n - 1);
      ExecAdd(env, s, 1, n - 1);
    } else {
      ExecStops(env, s, 1, n - 1);
    }
  }
}

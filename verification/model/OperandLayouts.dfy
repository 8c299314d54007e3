/** Where the operands of each operator lie, and that they can be simulated from there. */
module OperandLayouts {
  import opened Values
  import opened StringTables
  import opened Opcodes
  import opened Code
  import opened Expressions
  import opened CodeGen
  import opened Machine
  import opened Fragment
  import opened InstructionRuns

  /** Constants. */
  lemma ConstSim(e: Expr, cx: Context, depth: nat, mode: Mode, env: Env, s: State) returns (s': State)
    requires e.Const? && Ready(e, cx, s) && Room(e, cx.types, mode, s)
    requires At(env.code, s.ip, Gen(e, cx, depth, mode))
    ensures ValueRun(env, s, 1, s', s.ip + Size(Gen(e, cx, depth, mode)), TypeOf(e.v), Val(e.v), 0)
  {
    hide Step;
    hide Exec;
    var op := PushInstr(e.v, cx.tab).item.op;
    FetchPush(env, s, op);
    if e.v.Str? { assert e.v.s in StringsOf(e); }
    s' := StepPush(env, s, op).s;
  }

  /** Attributes, in value mode. */
  lemma VarSim(e: Expr, cx: Context, depth: nat, env: Env, s: State) returns (s': State)
    requires e.Var? && Ready(e, cx, s) && Room(e, cx.types, NmNone, s)
    requires At(env.code, s.ip, Gen(e, cx, depth, NmNone))
    ensures ValueRun(env, s, 1, s', s.ip + 2, cx.types[e.name],
                     Strict(e, cx.types, env.bag), HeapNeed(e, cx.types))
  {
    hide Step, Exec, Load, GetString, Convert;
    var t := cx.types[e.name];
    FetchResolve(env, s, ResolveOp(t));
    assert e.name in StringsOf(e);
    NameOperand(e.name, cx, s);
    s' := s;
    if e.name in env.bag {
      LoadEncodes(t, e.name, env.bag[e.name], s);
      var r := StepResolve(env, s, ResolveOp(t));
      if r.Running? { s' := r.s; }
    }
  }

  /** Attributes, in jump mode. */
  lemma VarJump(e: Expr, cx: Context, depth: nat, k: nat, env: Env, s: State) returns (n: nat, s': State)
    requires e.Var? && Ready(e, cx, s) && Room(e, cx.types, NmJmpOnValue, s)
    requires At(env.code, s.ip, Close(Gen(e, cx, depth, NmJmpOnValue), k))
    ensures JumpRun(env, s, n, s', s.ip + 4 + k, s.ip + 4, cx.types[e.name],
                    Present(e, cx.types, env.bag), HeapNeed(e, cx.types))
  {
    hide Step, Exec, Load, GetString, Convert;
    var t := cx.types[e.name];
    FetchTResolve(env, s, TResolveOp(t));
    assert e.name in StringsOf(e);
    NameOperand(e.name, cx, s);
    n, s' := 1, s;
    var r := StepTResolve(env, s, TResolveOp(t));
    if e.name !in env.bag {
      s' := JumpStep(env, r.s, JNZ, k, s.stack, 0);
      ExecAdd(env, s, 1, 1);
      n := 2;
    } else {
      LoadEncodes(t, e.name, env.bag[e.name], s);
      if r.Running? {
        s' := JumpStep(env, r.s, JNZ, k, r.s.stack[..|r.s.stack| - 1], 1);
        ExecAdd(env, s, 1, 1);
        n := 2;
      }
    }
  }

  lemma ReadyParts(e: Expr, cx: Context, s: State, s1: State, h: nat)
    requires e.Fn? && Ready(e, cx, s) && Extends(s, s1, h)
    ensures Ready(e.l, cx, s) && Ready(e.l, cx, s1) && Ready(e.r, cx, s1)
  {
    assert forall x :: x in StringsOf(e.l) || x in StringsOf(e.r) ==> x in StringsOf(e);
  }

  lemma EqLeft(e: Expr, cx: Context, depth: nat, env: Env, s: State)
    requires EqReady(e, cx, depth, env, s)
    ensures e.Fn? && EvalType(e.l, cx.types).Some? && EvalType(e.r, cx.types).Some?
    ensures ValueReady(e.l, cx, depth + 1, env, s)
  {
    ReadyParts(e, cx, s, s, 0);
  }

  lemma EqConst(e: Expr, cx: Context, depth: nat, env: Env, s: State)
    requires EqReady(e, cx, depth, env, s) && e.r.Const?
    ensures var c, mid := e.r.v, s.ip + Size(Gen(e.l, cx, depth + 1, NmNone));
      && EvalType(e.l, cx.types) == Some(TypeOf(c)) && Comparable(TypeOf(c))
      && (c.Str? ==> c.s in cx.tab && cx.tab <= s.tab)
      && At(env.code, mid, AEqInstr(c, cx.tab))
      && s.ip + Size(GenEq(e, cx, depth)) == mid + Size(AEqInstr(c, cx.tab))
      && Strict(e.r, cx.types, env.bag) == Val(c)
    ensures HeapNeed(e, cx.types) == HeapNeed(e.l, cx.types)
  {
    assert e.r.v.Str? ==> e.r.v.s in StringsOf(e.r) && e.r.v.s in StringsOf(e);
    assert EvalType(e.l, cx.types) == EvalType(e.r, cx.types) == Some(TypeOf(e.r.v));
  }

  lemma EqRight(e: Expr, cx: Context, depth: nat, env: Env, s: State, s1: State)
    requires EqReady(e, cx, depth, env, s) && !e.r.Const?
    requires Afterwards(s, s1, s.ip + Size(Gen(e.l, cx, depth + 1, NmNone)), EvalType(e.l, cx.types).value,
      HeapNeed(e.l, cx.types))
    ensures ValueReady(e.r, cx, depth + 1, env, s1)
  {
    hide At, Size, Strict, StringsOf, Distinct;
    ReadyParts(e, cx, s, s1, HeapNeed(e.l, cx.types));
    AtParts(env.code, s.ip, Gen(e.l, cx, depth + 1, NmNone), Gen(e.r, cx, depth + 1, NmNone),
            EqInstr(EvalType(e.l, cx.types).value));
    assert StackNeed(e, cx.types, NmNone) >= Width(EvalType(e.l, cx.types).value) + StackNeed(e.r, cx.types, NmNone);
  }

  lemma EqBoth(e: Expr, cx: Context, depth: nat, env: Env, s: State)
    requires EqReady(e, cx, depth, env, s) && !e.r.Const?
    ensures var t := EvalType(e.l, cx.types).value;
      var ip := s.ip + Size(Gen(e.l, cx, depth + 1, NmNone)) + Size(Gen(e.r, cx, depth + 1, NmNone));
      && EvalType(e.r, cx.types) == Some(t) && Comparable(t)
      && At(env.code, ip, EqInstr(t))
      && s.ip + Size(GenEq(e, cx, depth)) == ip + Size(EqInstr(t))
    ensures HeapNeed(e, cx.types) == HeapNeed(e.l, cx.types) + HeapNeed(e.r, cx.types)
  {
    hide At, Size, Strict, StackNeed, StringsOf, EqInstr, ValueOK, Distinct;
    AtParts(env.code, s.ip, Gen(e.l, cx, depth + 1, NmNone), Gen(e.r, cx, depth + 1, NmNone),
            EqInstr(EvalType(e.l, cx.types).value));
  }

  lemma NeqParts(e: Expr, cx: Context, depth: nat, env: Env, s: State)
    requires ValueReady(e, cx, depth, env, s) && e.Fn? && e.op.NEQ?
    ensures EqReady(e, cx, depth + 1, env, s) && EvalType(e.l, cx.types).Some? && EvalType(e.r, cx.types).Some?
    ensures At(env.code, s.ip + Size(GenEq(e, cx, depth + 1)), I0(NOT))
    ensures Size(Gen(e, cx, depth, NmNone)) == Size(GenEq(e, cx, depth + 1)) + 1
    ensures EvalType(e, cx.types) == Some(BOOL)
    ensures Strict(e, cx.types, env.bag) ==
      Negate(Compare(Strict(e.l, cx.types, env.bag), Strict(e.r, cx.types, env.bag)))
  {
    assert Gen(e, cx, depth, NmNone) == Cat(GenEq(e, cx, depth + 1), I0(NOT));
  }

  lemma EqParts(e: Expr, cx: Context, depth: nat, env: Env, s: State)
    requires ValueReady(e, cx, depth, env, s) && e.Fn? && e.op.EQ?
    ensures EqReady(e, cx, depth, env, s)
    ensures Gen(e, cx, depth, NmNone) == GenEq(e, cx, depth)
    ensures EvalType(e, cx.types) == Some(BOOL)
    ensures Strict(e, cx.types, env.bag) == Compare(Strict(e.l, cx.types, env.bag), Strict(e.r, cx.types, env.bag))
  {
  }

  lemma LandLeft(e: Expr, cx: Context, depth: nat, env: Env, s: State)
    requires ValueReady(e, cx, depth, env, s) && e.Fn? && e.op.LAND?
    ensures EvalType(e.l, cx.types) == EvalType(e.r, cx.types) == EvalType(e, cx.types) == Some(BOOL)
    ensures ValueReady(e.l, cx, depth + 1, env, s)
    ensures var ip := s.ip + Size(Gen(e.l, cx, depth + 1, NmNone)) + Size(Gen(e.r, cx, depth + 1, NmNone));
      At(env.code, ip, I0(AND)) && s.ip + Size(Gen(e, cx, depth, NmNone)) == ip + Size(I0(AND))
    ensures HeapNeed(e, cx.types) == HeapNeed(e.l, cx.types) + HeapNeed(e.r, cx.types)
  {
    hide At, Size, Strict, StringsOf, Distinct;
    ReadyParts(e, cx, s, s, 0);
    AtParts(env.code, s.ip, Gen(e.l, cx, depth + 1, NmNone), Gen(e.r, cx, depth + 1, NmNone), I0(AND));
  }

  lemma StrictLand(e: Expr, types: Vocabulary, bag: Bag)
    requires EvalType(e, types).Some? && e.Fn? && e.op.LAND?
    ensures EvalType(e.l, types).Some? && EvalType(e.r, types).Some?
    ensures Strict(e, types, bag) == Both(Strict(e.l, types, bag), Strict(e.r, types, bag))
  {
  }

  lemma LandRight(e: Expr, cx: Context, depth: nat, env: Env, s: State, s1: State)
    requires ValueReady(e, cx, depth, env, s) && e.Fn? && e.op.LAND?
    requires Afterwards(s, s1, s.ip + Size(Gen(e.l, cx, depth + 1, NmNone)), BOOL, HeapNeed(e.l, cx.types))
    ensures ValueReady(e.r, cx, depth + 1, env, s1)
  {
    hide At, Size, Strict, StringsOf, Distinct;
    ReadyParts(e, cx, s, s1, HeapNeed(e.l, cx.types));
    AtParts(env.code, s.ip, Gen(e.l, cx, depth + 1, NmNone), Gen(e.r, cx, depth + 1, NmNone), I0(AND));
    assert StackNeed(e, cx.types, NmNone) >= 1 + StackNeed(e.r, cx.types, NmNone);
  }

  lemma LorShape(e: Expr, cx: Context, depth: nat)
    requires EvalType(e, cx.types).Some? && e.Fn? && e.op.LOR? && depth > 0
    ensures var b := Gen(e.r, cx, depth + 1, NmNone);
      Gen(e, cx, depth, NmNone) ==
      Cat(Gen(e.l, cx, depth + 1, NmNone),
          Cat(One(Jump(JZ, 4)), Cat(I1(APUSH_B, 1), Cat(One(Jump(JMP, Size(b))), b))))
  {
    hide Size;
  }

  lemma LorCode(e: Expr, cx: Context, depth: nat, words: seq<nat>, base: nat)
    requires EvalType(e, cx.types).Some? && e.Fn? && e.op.LOR? && depth > 0
    requires At(words, base, Gen(e, cx, depth, NmNone))
    ensures At(words, base, Gen(e.l, cx, depth + 1, NmNone))
    ensures LorLayout(e, cx, depth, words, base)
  {
    hide At, Gen, GenLor;
    LorShape(e, cx, depth);
    var a, b := Gen(e.l, cx, depth + 1, NmNone), Gen(e.r, cx, depth + 1, NmNone);
    var jz, push, jmp := One(Jump(JZ, 4)), I1(APUSH_B, 1), One(Jump(JMP, Size(b)));
    AtParts(words, base, a, jz, Cat(push, Cat(jmp, b)));
    AtParts(words, base + Size(a) + 2, push, jmp, b);
  }

  lemma LorLeft(e: Expr, cx: Context, depth: nat, env: Env, s: State)
    requires ValueReady(e, cx, depth, env, s) && e.Fn? && e.op.LOR?
    ensures EvalType(e.l, cx.types) == EvalType(e.r, cx.types) == EvalType(e, cx.types) == Some(BOOL)
    ensures ValueReady(e.l, cx, depth + 1, env, s)
    ensures LorLayout(e, cx, depth, env.code, s.ip)
    ensures HeapNeed(e, cx.types) == HeapNeed(e.l, cx.types) + HeapNeed(e.r, cx.types)
  {
    hide At, Size, Gen, GenLor, LorLayout, Strict, StringsOf, Distinct;
    ReadyParts(e, cx, s, s, 0);
    LorCode(e, cx, depth, env.code, s.ip);
  }

  lemma LorRight(e: Expr, cx: Context, depth: nat, env: Env, s: State, s1: State)
    requires ValueReady(e, cx, depth, env, s) && e.Fn? && e.op.LOR?
    requires Extends(s, s1, HeapNeed(e.l, cx.types)) && s1.stack == s.stack
    requires At(env.code, s1.ip, Gen(e.r, cx, depth + 1, NmNone))
    ensures ValueReady(e.r, cx, depth + 1, env, s1)
  {
    hide At, Strict, StringsOf, Distinct;
    ReadyParts(e, cx, s, s1, HeapNeed(e.l, cx.types));
  }

  lemma StrictLor(e: Expr, types: Vocabulary, bag: Bag)
    requires EvalType(e, types).Some? && e.Fn? && e.op.LOR?
    ensures EvalType(e.l, types).Some? && EvalType(e.r, types).Some?
    ensures Strict(e, types, bag) == Either(Strict(e.l, types, bag), Strict(e.r, types, bag))
  {
    EvaluatedType(e.r, types, bag);
  }

  lemma LorRoom(e: Expr, cx: Context, depth: nat, env: Env, s: State, s1: State, n: nat, h: nat, ip: nat)
    requires ValueReady(e, cx, depth, env, s) && Fell(env, s, n, s1, ip, h)
    ensures |s1.stack| < OP_STACK_SIZE && Distinct(s1.tab) && s1.ip == ip
  {
    hide At, Strict, StringsOf, Exec, Step;
    StackNeedPositive(e, cx.types, NmNone);
  }

  lemma {:induction false} StackNeedPositive(e: Expr, types: Vocabulary, mode: Mode)
    requires EvalType(e, types).Some?
    ensures StackNeed(e, types, mode) > 0
  {
    if e.Fn? { StackNeedPositive(e.l, types, if e.op.OR? then NmJmpOnValue else if e.op.INDEX? then mode else NmNone); }
  }

  lemma LorTrue(e: Expr, cx: Context, depth: nat, env: Env, s: State, n1: nat, s1: State, h: nat)
    returns (n: nat, s': State)
    requires ValueReady(e, cx, depth, env, s) && e.Fn? && e.op.LOR? && LorLayout(e, cx, depth, env.code, s.ip)
    requires EvalType(e.l, cx.types).Some? && EvalType(e.r, cx.types).Some?
    requires ValueRun(env, s, n1, s1, s.ip + Size(Gen(e.l, cx, depth + 1, NmNone)), BOOL, Val(Boolean(true)), h)
    ensures ValueRun(env, s, n, s', s.ip + Size(Gen(e, cx, depth, NmNone)), BOOL, Val(Boolean(true)), h)
  {
    hide At, Size, Gen, GenLor, Step, Exec, ValueReady, ValueRun, Fell;
    var p := s.ip + Size(Gen(e.l, cx, depth + 1, NmNone));
    var s2 := PopJump(env, s, n1, s1, p, 4, Boolean(true), h);
    LorRoom(e, cx, depth, env, s, s2, n1 + 1, h, p + 2);
    s' := PushTrueAndLeave(env, s2, Size(Gen(e.r, cx, depth + 1, NmNone)));
    Continue(env, s, n1 + 1, s2, 2, s', p + 2, p + 6 + Size(Gen(e.r, cx, depth + 1, NmNone)), BOOL,
        Val(Boolean(true)), h, 0);
    n := n1 + 3;
  }

  lemma LorFalse(e: Expr, cx: Context, depth: nat, env: Env, s: State, n1: nat, s1: State, v: Value) returns (s2: State)
    requires ValueReady(e, cx, depth, env, s) && e.Fn? && e.op.LOR? && LorLayout(e, cx, depth, env.code, s.ip)
    requires EvalType(e.l, cx.types).Some? && EvalType(e.r, cx.types).Some?
    requires v != Boolean(true)
    requires ValueRun(env, s, n1, s1, s.ip + Size(Gen(e.l, cx, depth + 1, NmNone)), BOOL, Val(v),
      HeapNeed(e.l, cx.types))
    ensures Fell(env, s, n1 + 1, s2, s2.ip, HeapNeed(e.l, cx.types))
    ensures ValueReady(e.r, cx, depth + 1, env, s2)
    ensures s2.ip + Size(Gen(e.r, cx, depth + 1, NmNone)) == s.ip + Size(Gen(e, cx, depth, NmNone))
  {
    hide At, Size, Gen, GenLor, Step, Exec, ValueReady, ValueRun;
    s2 := PopJump(env, s, n1, s1, s.ip + Size(Gen(e.l, cx, depth + 1, NmNone)), 4, v, HeapNeed(e.l, cx.types));
    LorRight(e, cx, depth, env, s, s2);
  }

  lemma StrictIndex(e: Expr, types: Vocabulary, bag: Bag)
    requires EvalType(e, types).Some? && e.Fn? && e.op.INDEX?
    ensures EvalType(e.l, types) == Some(STRING_MAP) && EvalType(e.r, types) == Some(STRING)
      && EvalType(e, types) == Some(STRING)
    ensures Strict(e, types, bag) == IndexEv(Strict(e.l, types, bag), Strict(e.r, types, bag))
    ensures e.r.Const? ==> e.r.v.Str? && Strict(e.r, types, bag) == Present(e.r, types, bag) == Val(e.r.v)
  {
  }

  lemma IndexShape(e: Expr, cx: Context, depth: nat)
    requires EvalType(e, cx.types).Some? && e.Fn? && e.op.INDEX?
    requires EvalType(e.r, cx.types) == Some(STRING)
    ensures Gen(e, cx, depth, NmNone) ==
      if e.r.Const? then Cat(Gen(e.l, cx, depth + 1, NmNone), I1(ANLOOKUP, IndexOf(cx.tab, e.r.v.s)))
      else Cat(Gen(e.l, cx, depth + 1, NmNone), Cat(Gen(e.r, cx, depth + 1, NmNone), I0(NLOOKUP)))
  {
  }

  lemma IndexLeft(e: Expr, cx: Context, depth: nat, env: Env, s: State)
    requires ValueReady(e, cx, depth, env, s) && e.Fn? && e.op.INDEX?
    requires EvalType(e.l, cx.types).Some? && EvalType(e.r, cx.types) == Some(STRING)
    ensures ValueReady(e.l, cx, depth + 1, env, s)
    ensures HeapNeed(e, cx.types) == HeapNeed(e.l, cx.types) + HeapNeed(e.r, cx.types)
    ensures var mid := s.ip + Size(Gen(e.l, cx, depth + 1, NmNone));
      if e.r.Const? then
        && e.r.v.Str? && e.r.v.s in cx.tab && cx.tab <= s.tab
        && At(env.code, mid, I1(ANLOOKUP, IndexOf(cx.tab, e.r.v.s)))
        && s.ip + Size(Gen(e, cx, depth, NmNone)) == mid + 2 && HeapNeed(e.r, cx.types) == 0
      else
        var ip := mid + Size(Gen(e.r, cx, depth + 1, NmNone));
        At(env.code, ip, I0(NLOOKUP)) && s.ip + Size(Gen(e, cx, depth, NmNone)) == ip + 1
  {
    hide At, Gen, GenIndex, Strict, Distinct;
    ReadyParts(e, cx, s, s, 0);
    IndexShape(e, cx, depth);
    if e.r.Const? {
      assert e.r.v.s in StringsOf(e.r);
      AtPair(env.code, s.ip, Gen(e.l, cx, depth + 1, NmNone), I1(ANLOOKUP, IndexOf(cx.tab, e.r.v.s)));
    } else {
      AtParts(env.code, s.ip, Gen(e.l, cx, depth + 1, NmNone), Gen(e.r, cx, depth + 1, NmNone), I0(NLOOKUP));
    }
  }

  lemma IndexRight(e: Expr, cx: Context, depth: nat, env: Env, s: State, s1: State)
    requires ValueReady(e, cx, depth, env, s) && e.Fn? && e.op.INDEX? && !e.r.Const?
    requires EvalType(e.l, cx.types).Some? && EvalType(e.r, cx.types) == Some(STRING)
    requires Afterwards(s, s1, s.ip + Size(Gen(e.l, cx, depth + 1, NmNone)), STRING_MAP, HeapNeed(e.l, cx.types))
    ensures ValueReady(e.r, cx, depth + 1, env, s1)
  {
    hide At, Gen, GenIndex, Strict, Distinct, StringsOf;
    ReadyParts(e, cx, s, s1, HeapNeed(e.l, cx.types));
    IndexShape(e, cx, depth);
    AtParts(env.code, s.ip, Gen(e.l, cx, depth + 1, NmNone), Gen(e.r, cx, depth + 1, NmNone), I0(NLOOKUP));
  }

  lemma PresentIndex(e: Expr, types: Vocabulary, bag: Bag)
    requires EvalType(e, types).Some? && e.Fn? && e.op.INDEX? && e.r.Const?
    ensures EvalType(e.l, types) == Some(STRING_MAP) && e.r.v.Str? && EvalType(e, types) == Some(STRING)
    ensures Present(e, types, bag) == IndexPresent(Present(e.l, types, bag), e.r.v.s)
    ensures HeapNeed(e, types) == HeapNeed(e.l, types)
  {
    assert EvalType(e.r, types) == Some(STRING);
  }

  lemma IndexJumpCode(e: Expr, cx: Context, depth: nat, k: nat, words: seq<nat>, base: nat)
    requires EvalType(e, cx.types).Some? && e.Fn? && e.op.INDEX? && e.r.Const? && e.r.v.Str?
    requires EvalType(e.l, cx.types).Some? && At(words, base, Close(Gen(e, cx, depth, NmJmpOnValue), k))
    ensures At(words, base, Close(Gen(e.l, cx, depth + 1, NmJmpOnValue), 2))
    ensures IndexJumpLayout(words, base + Size(Gen(e.l, cx, depth + 1, NmJmpOnValue)), IndexOf(cx.tab, e.r.v.s), k)
    ensures Size(Gen(e, cx, depth, NmJmpOnValue)) == Size(Gen(e.l, cx, depth + 1, NmJmpOnValue)) + 7
  {
    hide At, Gen, Close, EvalType;
    ConstKey(e, cx, depth);
    IndexJumpShape(e, cx, depth, k);
    var a, key := Close(Gen(e.l, cx, depth + 1, NmJmpOnValue), 2), I1(APUSH_S, IndexOf(cx.tab, e.r.v.s));
    var look := Cat(I0(TLOOKUP), One(Jump(JNZ, k)));
    AtParts(words, base, a, One(Jump(JMP, 5)), Cat(key, look));
    AtParts(words, base + Size(a) + 2, key, I0(TLOOKUP), One(Jump(JNZ, k)));
  }

  lemma IndexJumpLeft(e: Expr, cx: Context, depth: nat, k: nat, env: Env, s: State)
    requires JumpReady(e, cx, depth, k, env, s) && e.Fn? && e.op.INDEX?
    ensures e.r.Const? && EvalType(e, cx.types).Some? && EvalType(e.l, cx.types).Some? && e.r.v.Str?
    ensures JumpReady(e.l, cx, depth + 1, 2, env, s)
    ensures IndexJumpLayout(env.code, s.ip + Size(Gen(e.l, cx, depth + 1, NmJmpOnValue)), IndexOf(cx.tab, e.r.v.s), k)
    ensures Size(Gen(e, cx, depth, NmJmpOnValue)) == Size(Gen(e.l, cx, depth + 1, NmJmpOnValue)) + 7
    ensures e.r.v.s in cx.tab && cx.tab <= s.tab && |s.stack| + 2 <= OP_STACK_SIZE
  {
    hide At, Gen, Size, Strict, Distinct, Close, IndexJumpLayout;
    PresentIndex(e, cx.types, env.bag);
    ReadyParts(e, cx, s, s, 0);
    IndexJumpCode(e, cx, depth, k, env.code, s.ip);
    assert e.r.v.s in StringsOf(e.r) && StackNeed(e.r, cx.types, NmJmpOnValue) == 1;
  }

  /** The target is absent: jump past the lookup. */
  lemma IndexAbsent(env: Env, s: State, n: nat, s1: State, p: nat, id: nat, k: nat, h: nat) returns (s': State)
    requires Fell(env, s, n, s1, p, h) && IndexJumpLayout(env.code, p, id, k)
    ensures Fell(env, s, n + 1, s', p + 7, h)
  {
    hide Step, Exec, At;
    s' := JmpStep(env, s1, 5);
    ExecAdd(env, s, n, 1);
  }

  /** The target is present: push the key and look it up. */
  lemma IndexPresentLookup(c: string, cx: Context, env: Env, s: State, n: nat, s1: State, p: nat, k: nat, v: Value,
          h: nat)
    returns (s2: State, o: Outcome)
    requires ValueRun(env, s, n, s1, p + 2, STRING_MAP, Val(v), h)
      && IndexJumpLayout(env.code, p, IndexOf(cx.tab, c), k)
    requires c in cx.tab && cx.tab <= s.tab && |s.stack| + 2 <= OP_STACK_SIZE
    ensures Exec(env, s, n + 2) == o
    ensures match IndexPresent(Val(v), c)
      case Bad(f) => o == Failed(f)
      case Val(x) => o == PushString(s2, p + 5, s.stack, x.s, [1]) && Extends(s, s2, h)
      case Absent => o == Running(s2.(ip := p + 5, stack := s.stack + [0])) && Extends(s, s2, h)
  {
    hide Step, Exec, PushString, Distinct, GetString;
    FetchPush(env, s1, APUSH_S);
    s2 := StepPush(env, s1, APUSH_S).s;
    FetchLookup(env, s2, TLOOKUP);
    ExecAdd(env, s, n, 1);
    ExecAdd(env, s, n + 1, 1);
    NameOperand(c, cx, s1);
    assert s2.stack[..|s2.stack| - 2] == s.stack;
    o := StepLookup(s2, TLOOKUP);
  }

  lemma IndexPresentRun(c: string, cx: Context, env: Env, s: State, n: nat, s1: State, p: nat, k: nat, v: Value, h: nat)
    returns (n': nat, s': State)
    requires ValueRun(env, s, n, s1, p + 2, STRING_MAP, Val(v), h)
      && IndexJumpLayout(env.code, p, IndexOf(cx.tab, c), k)
    requires c in cx.tab && cx.tab <= s.tab && |s.stack| + 2 <= OP_STACK_SIZE
    ensures JumpRun(env, s, n', s', p + 7 + k, p + 7, STRING, IndexPresent(Val(v), c), h)
  {
    hide Step, Exec, PushString, Distinct, At, EncodesValue, Pushes;
    var s2, o := IndexPresentLookup(c, cx, env, s, n, s1, p, k, v, h);
    n', s' := n + 2, s1;
    var ev := IndexPresent(Val(v), c);
    if ev.Val? {
      PushStringFlag(s, s2, p + 5, p + 7 + k, ev.v.s, h);
      s' := JumpStep(env, o.s, JNZ, k, o.s.stack[..|o.s.stack| - 1], 1);
      ExecAdd(env, s, n + 2, 1);
      n' := n + 3;
    } else if ev.Absent? {
      s' := JumpStep(env, o.s, JNZ, k, s.stack, 0);
      ExecAdd(env, s, n + 2, 1);
      n' := n + 3;
    }
  }

  lemma OrTypes(e: Expr, types: Vocabulary, bag: Bag)
    requires EvalType(e, types).Some? && e.Fn? && e.op.OR?
    ensures EvalType(e.l, types) == EvalType(e.r, types) == EvalType(e, types)
    ensures Present(e, types, bag) == First(Present(e.l, types, bag), Present(e.r, types, bag))
    ensures Strict(e, types, bag) == First(Present(e.l, types, bag), Strict(e.r, types, bag))
    ensures HeapNeed(e, types) == HeapNeed(e.l, types) + HeapNeed(e.r, types)
  {
  }

  lemma OrLeft(e: Expr, cx: Context, depth: nat, mode: Mode, k: nat, env: Env, s: State)
    requires OrReady(e, cx, depth, mode, k, env, s)
    requires EvalType(e.l, cx.types).Some? && EvalType(e.r, cx.types).Some?
    ensures var b := Gen(e.r, cx, depth + 1, OrRightMode(e.r, mode));
      && JumpReady(e.l, cx, depth + 1, Size(b) + k, env, s)
      && Size(Gen(e, cx, depth, mode)) == Size(Gen(e.l, cx, depth + 1, NmJmpOnValue)) + Size(b)
  {
    hide At, Gen, GenOr, Close, Strict, StringsOf, Distinct, OrRightMode, JumpOK;
    OrShape(e, cx, depth, mode, k);
    ReadyParts(e, cx, s, s, 0);
    var a, b := Gen(e.l, cx, depth + 1, NmJmpOnValue), Gen(e.r, cx, depth + 1, OrRightMode(e.r, mode));
    AtPair(env.code, s.ip, Close(a, Size(b) + k), Close(b, k));
  }

  lemma OrRight(e: Expr, cx: Context, depth: nat, mode: Mode, k: nat, env: Env, s: State, n: nat, s1: State)
    requires OrReady(e, cx, depth, mode, k, env, s)
    requires EvalType(e.l, cx.types).Some? && EvalType(e.r, cx.types).Some?
    requires Fell(env, s, n, s1, s.ip + Size(Gen(e.l, cx, depth + 1, NmJmpOnValue)), HeapNeed(e.l, cx.types))
    ensures OrRightReady(e, cx, depth, mode, k, env, s1)
    ensures s1.ip == s.ip + Size(Gen(e.l, cx, depth + 1, NmJmpOnValue))
  {
    hide At, Gen, GenOr, Close, Strict, StringsOf, Distinct, OrRightMode, JumpOK, Exec, Step;
    OrShape(e, cx, depth, mode, k);
    ReadyParts(e, cx, s, s1, HeapNeed(e.l, cx.types));
    var a, b := Gen(e.l, cx, depth + 1, NmJmpOnValue), Gen(e.r, cx, depth + 1, OrRightMode(e.r, mode));
    AtPair(env.code, s.ip, Close(a, Size(b) + k), Close(b, k));
  }

  lemma JumpParts(e: Expr, cx: Context, depth: nat, k: nat, env: Env, s: State)
    requires JumpReady(e, cx, depth, k, env, s) && e.Fn? && e.op.OR?
    ensures OrReady(e, cx, depth, NmJmpOnValue, k, env, s) && JumpOK(e.r)
  {
    hide At, Gen, Close;
  }

  lemma JumpRight(e: Expr, cx: Context, depth: nat, k: nat, env: Env, s: State)
    requires e.Fn? && JumpOK(e.r) && OrRightReady(e, cx, depth, NmJmpOnValue, k, env, s)
    ensures OrRightMode(e.r, NmJmpOnValue) == NmJmpOnValue && JumpReady(e.r, cx, depth + 1, k, env, s)
  {
    hide At, Gen, Close;
  }

  lemma JumpKinds(e: Expr, cx: Context, depth: nat, k: nat, env: Env, s: State)
    requires JumpReady(e, cx, depth, k, env, s)
    ensures e.Var? || (e.Fn? && (e.op.OR? || e.op.INDEX?))
    ensures e.Var? ==>
      && Ready(e, cx, s) && Room(e, cx.types, NmJmpOnValue, s)
      && At(env.code, s.ip, Close(Gen(e, cx, depth, NmJmpOnValue), k))
      && EvalType(e, cx.types) == Some(cx.types[e.name])
      && Size(Gen(e, cx, depth, NmJmpOnValue)) == 4
  {
    hide At, Close;
  }

  /** Constants and boolean functions ignore jump mode. */
  lemma FallRunsAsValue(e: Expr, cx: Context, depth: nat, k: nat, env: Env, s: State)
    requires FallReady(e, cx, depth, k, env, s) && !(e.Fn? && e.op.OR?)
    ensures ValueReady(e, cx, depth, env, s)
    ensures EvalType(e, cx.types).Some? && Gen(e, cx, depth, NmJmpOnValue) == Gen(e, cx, depth, NmNone)
  {
    hide At, Strict, StringsOf, Distinct;
    ValueCodeClosed(e, cx, depth);
    CloseCloses(Gen(e, cx, depth, NmNone), k);
  }

  lemma FallParts(e: Expr, cx: Context, depth: nat, k: nat, env: Env, s: State)
    requires FallReady(e, cx, depth, k, env, s) && e.Fn? && e.op.OR?
    ensures OrReady(e, cx, depth, NmJmpOnValue, k, env, s) && FallOK(e.r) && EvalType(e, cx.types).Some?
  {
    hide At, Gen, Close;
  }

  lemma FallRight(e: Expr, cx: Context, depth: nat, mode: Mode, k: nat, env: Env, s: State)
    requires e.Fn? && FallOK(e.r) && OrRightReady(e, cx, depth, mode, k, env, s)
    requires mode.NmJmpOnValue? || (e.r.Fn? && e.r.op.OR?)
    ensures OrRightMode(e.r, mode) == NmJmpOnValue && FallReady(e.r, cx, depth + 1, k, env, s)
  {
    hide At, Gen, Close;
  }

  lemma OrParts(e: Expr, cx: Context, depth: nat, env: Env, s: State)
    requires ValueReady(e, cx, depth, env, s) && e.Fn? && e.op.OR?
    ensures OrReady(e, cx, depth, NmNone, 0, env, s) && EvalType(e, cx.types).Some?
    ensures if e.r.Fn? && e.r.op.OR? then FallOK(e.r) else ValueOK(e.r)
  {
    hide At, Gen;
  }

  lemma OrValueRight(e: Expr, cx: Context, depth: nat, env: Env, s: State)
    requires e.Fn? && ValueOK(e.r) && !(e.r.Fn? && e.r.op.OR?) && OrRightReady(e, cx, depth, NmNone, 0, env, s)
    ensures OrRightMode(e.r, NmNone) == NmNone && ValueReady(e.r, cx, depth + 1, env, s)
  {
    hide At, Gen, Close;
    ValueCodeClosed(e.r, cx, depth + 1);
    CloseCloses(Gen(e.r, cx, depth + 1, NmNone), 0);
  }

  lemma LeafParts(e: Expr, cx: Context, depth: nat, env: Env, s: State)
    requires ValueReady(e, cx, depth, env, s)
    ensures e.Const? ==>
      && Ready(e, cx, s) && Room(e, cx.types, NmNone, s) && At(env.code, s.ip, Gen(e, cx, depth, NmNone))
      && EvalType(e, cx.types) == Some(TypeOf(e.v)) && Strict(e, cx.types, env.bag) == Val(e.v)
          && HeapNeed(e, cx.types) == 0
    ensures e.Var? ==>
      && Ready(e, cx, s) && Room(e, cx.types, NmNone, s) && At(env.code, s.ip, Gen(e, cx, depth, NmNone))
      && EvalType(e, cx.types) == Some(cx.types[e.name]) && Size(Gen(e, cx, depth, NmNone)) == 2
  {
    hide At;
  }
}

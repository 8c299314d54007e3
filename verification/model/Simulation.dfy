/** Compiler correctness: the code of an expression does on the machine what the strict evaluator does on the tree. */
module Simulation {
  import opened Values
  import opened StringTables
  import opened Code
  import opened Expressions
  import opened CodeGen
  import opened Machine
  import opened Fragment
  import opened InstructionRuns
  import opened OperandLayouts

  /** EQ and the comparison within NEQ. */
  lemma {:induction false} EqSim(e: Expr, cx: Context, depth: nat, env: Env, s: State) returns (n: nat, s': State)
    requires EqReady(e, cx, depth, env, s)
    ensures ValueRun(env, s, n, s', s.ip + Size(GenEq(e, cx, depth)), BOOL,
                     Compare(Strict(e.l, cx.types, env.bag), Strict(e.r, cx.types, env.bag)),
                     HeapNeed(e, cx.types))
    decreases e, 0
  {
    hide *;
    EqLeft(e, cx, depth, env, s);
    var t, h := EvalType(e.l, cx.types).value, HeapNeed(e.l, cx.types);
    var a, b := Strict(e.l, cx.types, env.bag), Strict(e.r, cx.types, env.bag);
    var mid := s.ip + Size(Gen(e.l, cx, depth + 1, NmNone));
    var n1, s1 := ValueSim(e.l, cx, depth + 1, env, s);
    if e.r.Const? {
      EqConst(e, cx, depth, env, s);
      n, s' := EqConstRun(e.r.v, cx, env, s, n1, s1, mid, a, h);
    } else {
      EqBoth(e, cx, depth, env, s);
      var m, s2 := 0, s1;
      if a.Val? {
        RunFacts(env, s, n1, s1, mid, t, a, h);
        EqRight(e, cx, depth, env, s, s1);
        m, s2 := ValueSim(e.r, cx, depth + 1, env, s1);
        AfterIp(s, s1, mid, t, h);
      }
      var ip := mid + Size(Gen(e.r, cx, depth + 1, NmNone));
      n, s' := EqRun(t, env, s, n1, s1, m, s2, mid, ip, a, b, h, HeapNeed(e.r, cx.types));
    }
  }

  lemma {:induction false} LandSim(e: Expr, cx: Context, depth: nat, env: Env, s: State) returns (n: nat, s': State)
    requires ValueReady(e, cx, depth, env, s) && e.Fn? && e.op.LAND?
    ensures ValueRun(env, s, n, s', s.ip + Size(Gen(e, cx, depth, NmNone)), BOOL,
                     Strict(e, cx.types, env.bag), HeapNeed(e, cx.types))
    decreases e, 0
  {
    hide *;
    LandLeft(e, cx, depth, env, s);
    StrictLand(e, cx.types, env.bag);
    var h := HeapNeed(e.l, cx.types);
    var a, b := Strict(e.l, cx.types, env.bag), Strict(e.r, cx.types, env.bag);
    var mid := s.ip + Size(Gen(e.l, cx, depth + 1, NmNone));
    var n1, s1 := ValueSim(e.l, cx, depth + 1, env, s);
    var m, s2 := 0, s1;
    if a.Val? {
      RunFacts(env, s, n1, s1, mid, BOOL, a, h);
      LandRight(e, cx, depth, env, s, s1);
      m, s2 := ValueSim(e.r, cx, depth + 1, env, s1);
      AfterIp(s, s1, mid, BOOL, h);
    }
    var ip := mid + Size(Gen(e.r, cx, depth + 1, NmNone));
    n, s' := AndRun(env, s, n1, s1, m, s2, mid, ip, a, b, h, HeapNeed(e.r, cx.types));
  }

  lemma {:induction false} LorSim(e: Expr, cx: Context, depth: nat, env: Env, s: State) returns (n: nat, s': State)
    requires ValueReady(e, cx, depth, env, s) && e.Fn? && e.op.LOR?
    ensures ValueRun(env, s, n, s', s.ip + Size(Gen(e, cx, depth, NmNone)), BOOL,
                     Strict(e, cx.types, env.bag), HeapNeed(e, cx.types))
    decreases e, 0
  {
    hide *;
    LorLeft(e, cx, depth, env, s);
    StrictLor(e, cx.types, env.bag);
    var n1, s1 := ValueSim(e.l, cx, depth + 1, env, s);
    var a, b := Strict(e.l, cx.types, env.bag), Strict(e.r, cx.types, env.bag);
    var h1, h2 := HeapNeed(e.l, cx.types), HeapNeed(e.r, cx.types);
    if !a.Val? {
      RunFailed(env, s, n1, s1, s.ip + Size(Gen(e.l, cx, depth + 1, NmNone)), s.ip + Size(Gen(e, cx, depth, NmNone)),
          BOOL, BOOL, a, h1, h1 + h2);
      n, s' := n1, s1;
    } else if a.v == Boolean(true) {
      n, s' := LorTrue(e, cx, depth, env, s, n1, s1, h1);
      RunMore(env, s, n, s', s.ip + Size(Gen(e, cx, depth, NmNone)), BOOL, a, h1, h1 + h2);
    } else {
      var s2 := LorFalse(e, cx, depth, env, s, n1, s1, a.v);
      var m;
      m, s' := ValueSim(e.r, cx, depth + 1, env, s2);
      Continue(env, s, n1 + 1, s2, m, s', s2.ip, s.ip + Size(Gen(e, cx, depth, NmNone)), BOOL, b, h1, h2);
      n := n1 + 1 + m;
    }
    EitherCases(a, b);
  }

  lemma {:induction false} IndexSim(e: Expr, cx: Context, depth: nat, env: Env, s: State) returns (n: nat, s': State)
    requires ValueReady(e, cx, depth, env, s) && e.Fn? && e.op.INDEX? && EvalType(e, cx.types).Some?
    ensures ValueRun(env, s, n, s', s.ip + Size(Gen(e, cx, depth, NmNone)), STRING,
                     Strict(e, cx.types, env.bag), HeapNeed(e, cx.types))
    decreases e, 0
  {
    hide *;
    StrictIndex(e, cx.types, env.bag);
    IndexLeft(e, cx, depth, env, s);
    var h := HeapNeed(e.l, cx.types);
    var a, b := Strict(e.l, cx.types, env.bag), Strict(e.r, cx.types, env.bag);
    var mid := s.ip + Size(Gen(e.l, cx, depth + 1, NmNone));
    var n1, s1 := ValueSim(e.l, cx, depth + 1, env, s);
    if e.r.Const? {
      n, s' := IndexConstRun(e.r.v.s, cx, env, s, n1, s1, mid, a, h);
    } else {
      var m, s2 := 0, s1;
      if a.Val? {
        RunFacts(env, s, n1, s1, mid, STRING_MAP, a, h);
        IndexRight(e, cx, depth, env, s, s1);
        m, s2 := ValueSim(e.r, cx, depth + 1, env, s1);
        AfterIp(s, s1, mid, STRING_MAP, h);
      }
      var ip := mid + Size(Gen(e.r, cx, depth + 1, NmNone));
      n, s' := IndexRun(env, s, n1, s1, m, s2, mid, ip, a, b, h, HeapNeed(e.r, cx.types));
    }
  }

  lemma {:induction false} IndexJump(e: Expr, cx: Context, depth: nat, k: nat, env: Env, s: State)
    returns (n: nat, s': State)
    requires JumpReady(e, cx, depth, k, env, s) && e.Fn? && e.op.INDEX? && EvalType(e, cx.types).Some?
    ensures var end := s.ip + Size(Gen(e, cx, depth, NmJmpOnValue));
      JumpRun(env, s, n, s', end + k, end, STRING, Present(e, cx.types, env.bag), HeapNeed(e, cx.types))
    decreases e, 0
  {
    hide *;
    IndexJumpLeft(e, cx, depth, k, env, s);
    PresentIndex(e, cx.types, env.bag);
    var p := s.ip + Size(Gen(e.l, cx, depth + 1, NmJmpOnValue));
    var a, h := Present(e.l, cx.types, env.bag), HeapNeed(e.l, cx.types);
    var n1, s1 := JumpSim(e.l, cx, depth + 1, 2, env, s);
    JumpRunCases(env, s, n1, s1, p + 2, p, STRING_MAP, a, h);
    IndexPresentCases(a, e.r.v.s);
    if a.Val? {
      n, s' := IndexPresentRun(e.r.v.s, cx, env, s, n1, s1, p, k, a.v, h);
    } else if a.Absent? {
      s' := IndexAbsent(env, s, n1, s1, p, IndexOf(cx.tab, e.r.v.s), k, h);
      n := n1 + 1;
      JumpRunFell(env, s, n, s', p + 7 + k, p + 7, STRING, h);
    } else {
      RunFailed(env, s, n1, s1, p + 2, p + 7 + k, STRING_MAP, STRING, a, h, h);
      n, s' := n1, s1;
      JumpRunValue(env, s, n, s', p + 7 + k, p + 7, STRING, a, h);
    }
  }

  lemma {:induction false} OrJump(e: Expr, cx: Context, depth: nat, k: nat, env: Env, s: State)
    returns (n: nat, s': State)
    requires JumpReady(e, cx, depth, k, env, s) && e.Fn? && e.op.OR? && EvalType(e, cx.types).Some?
    ensures var end := s.ip + Size(Gen(e, cx, depth, NmJmpOnValue));
      JumpRun(env, s, n, s', end + k, end, EvalType(e, cx.types).value, Present(e, cx.types, env.bag),
          HeapNeed(e, cx.types))
    decreases e, 0
  {
    hide *;
    OrTypes(e, cx.types, env.bag);
    JumpParts(e, cx, depth, k, env, s);
    OrLeft(e, cx, depth, NmJmpOnValue, k, env, s);
    var t := EvalType(e, cx.types).value;
    var b := Gen(e.r, cx, depth + 1, OrRightMode(e.r, NmJmpOnValue));
    var mid, end := s.ip + Size(Gen(e.l, cx, depth + 1, NmJmpOnValue)), s.ip + Size(Gen(e, cx, depth, NmJmpOnValue));
    var x, y := Present(e.l, cx.types, env.bag), Present(e.r, cx.types, env.bag);
    var h1, h2 := HeapNeed(e.l, cx.types), HeapNeed(e.r, cx.types);
    n, s' := JumpSim(e.l, cx, depth + 1, Size(b) + k, env, s);
    JumpRunCases(env, s, n, s', end + k, mid, t, x, h1);
    FirstCases(x, y);
    if x.Absent? {
      OrRight(e, cx, depth, NmJmpOnValue, k, env, s, n, s');
      JumpRight(e, cx, depth, k, env, s');
      var m, s2 := JumpSim(e.r, cx, depth + 1, k, env, s');
      JumpRunCases(env, s', m, s2, end + k, end, t, y, h2);
      if y.Absent? {
        ContinueFell(env, s, n, s', m, s2, mid, end, h1, h2);
        JumpRunFell(env, s, n + m, s2, end + k, end, t, h1 + h2);
      } else {
        Continue(env, s, n, s', m, s2, mid, end + k, t, y, h1, h2);
        JumpRunValue(env, s, n + m, s2, end + k, end, t, y, h1 + h2);
      }
      n, s' := n + m, s2;
    } else {
      RunMore(env, s, n, s', end + k, t, x, h1, h1 + h2);
      JumpRunValue(env, s, n, s', end + k, end, t, x, h1 + h2);
    }
  }

  lemma {:induction false} JumpSim(e: Expr, cx: Context, depth: nat, k: nat, env: Env, s: State)
    returns (n: nat, s': State)
    requires JumpReady(e, cx, depth, k, env, s) && EvalType(e, cx.types).Some?
    ensures var end := s.ip + Size(Gen(e, cx, depth, NmJmpOnValue));
      JumpRun(env, s, n, s', end + k, end, EvalType(e, cx.types).value, Present(e, cx.types, env.bag),
          HeapNeed(e, cx.types))
    decreases e, 1
  {
    hide *;
    JumpKinds(e, cx, depth, k, env, s);
    if e.Var? {
      n, s' := VarJump(e, cx, depth, k, env, s);
    } else if e.op.OR? {
      n, s' := OrJump(e, cx, depth, k, env, s);
    } else {
      StrictIndex(e, cx.types, env.bag);
      n, s' := IndexJump(e, cx, depth, k, env, s);
    }
  }

  lemma {:induction false} FallSim(e: Expr, cx: Context, depth: nat, k: nat, env: Env, s: State)
    returns (n: nat, s': State)
    requires FallReady(e, cx, depth, k, env, s) && EvalType(e, cx.types).Some?
    ensures var end := s.ip + Size(Gen(e, cx, depth, NmJmpOnValue));
      FallRun(env, s, n, s', end + k, end, EvalType(e, cx.types).value, Strict(e, cx.types, env.bag),
          HeapNeed(e, cx.types))
    decreases e, 4
  {
    hide *;
    var t := EvalType(e, cx.types).value;
    var end := s.ip + Size(Gen(e, cx, depth, NmJmpOnValue));
    if e.Fn? && e.op.OR? {
      OrTypes(e, cx.types, env.bag);
      FallParts(e, cx, depth, k, env, s);
      OrLeft(e, cx, depth, NmJmpOnValue, k, env, s);
      var b := Gen(e.r, cx, depth + 1, OrRightMode(e.r, NmJmpOnValue));
      var mid := s.ip + Size(Gen(e.l, cx, depth + 1, NmJmpOnValue));
      var x, y := Present(e.l, cx.types, env.bag), Strict(e.r, cx.types, env.bag);
      var h1, h2 := HeapNeed(e.l, cx.types), HeapNeed(e.r, cx.types);
      n, s' := JumpSim(e.l, cx, depth + 1, Size(b) + k, env, s);
      JumpRunCases(env, s, n, s', end + k, mid, t, x, h1);
      FirstCases(x, y);
      if x.Absent? {
        OrRight(e, cx, depth, NmJmpOnValue, k, env, s, n, s');
        FallRight(e, cx, depth, NmJmpOnValue, k, env, s');
        var m, s2 := FallSim(e.r, cx, depth + 1, k, env, s');
        FallContinue(env, s, n, s', m, s2, mid, end + k, end, t, y, h1, h2);
        n, s' := n + m, s2;
      } else {
        RunMore(env, s, n, s', end + k, t, x, h1, h1 + h2);
        FallRunValue(env, s, n, s', end + k, end, t, x, h1 + h2);
      }
    } else {
      FallRunsAsValue(e, cx, depth, k, env, s);
      n, s' := ValueSim(e, cx, depth, env, s);
      FallRunValue(env, s, n, s', end + k, end, t, Strict(e, cx.types, env.bag), HeapNeed(e, cx.types));
    }
  }

  lemma {:induction false} OrSim(e: Expr, cx: Context, depth: nat, env: Env, s: State) returns (n: nat, s': State)
    requires ValueReady(e, cx, depth, env, s) && e.Fn? && e.op.OR? && EvalType(e, cx.types).Some?
    ensures ValueRun(env, s, n, s', s.ip + Size(Gen(e, cx, depth, NmNone)), EvalType(e, cx.types).value,
                     Strict(e, cx.types, env.bag), HeapNeed(e, cx.types))
    decreases e, 0
  {
    hide *;
    OrTypes(e, cx.types, env.bag);
    OrParts(e, cx, depth, env, s);
    OrLeft(e, cx, depth, NmNone, 0, env, s);
    var t := EvalType(e, cx.types).value;
    var b := Gen(e.r, cx, depth + 1, OrRightMode(e.r, NmNone));
    var mid, end := s.ip + Size(Gen(e.l, cx, depth + 1, NmJmpOnValue)), s.ip + Size(Gen(e, cx, depth, NmNone));
    var x, y := Present(e.l, cx.types, env.bag), Strict(e.r, cx.types, env.bag);
    var h1, h2 := HeapNeed(e.l, cx.types), HeapNeed(e.r, cx.types);
    n, s' := JumpSim(e.l, cx, depth + 1, Size(b) + 0, env, s);
    JumpRunCases(env, s, n, s', end, mid, t, x, h1);
    FirstCases(x, y);
    if x.Absent? {
      OrRight(e, cx, depth, NmNone, 0, env, s, n, s');
      var m, s2;
      if e.r.Fn? && e.r.op.OR? {
        FallRight(e, cx, depth, NmNone, 0, env, s');
        m, s2 := FallSim(e.r, cx, depth + 1, 0, env, s');
        FallRunSame(env, s', m, s2, end, t, y, h2);
      } else {
        OrValueRight(e, cx, depth, env, s');
        m, s2 := ValueSim(e.r, cx, depth + 1, env, s');
      }
      Continue(env, s, n, s', m, s2, mid, end, t, y, h1, h2);
      n, s' := n + m, s2;
    } else {
      RunMore(env, s, n, s', end, t, x, h1, h1 + h2);
    }
  }

  /**
   Value-mode code pushes exactly the encoding of the value that the strict evaluator gives, on an
   otherwise unchanged stack, or fails as the strict evaluator does.
   */
  lemma {:induction false} ValueSim(e: Expr, cx: Context, depth: nat, env: Env, s: State) returns (n: nat, s': State)
    requires ValueReady(e, cx, depth, env, s) && EvalType(e, cx.types).Some?
    ensures ValueRun(env, s, n, s', s.ip + Size(Gen(e, cx, depth, NmNone)), EvalType(e, cx.types).value,
                     Strict(e, cx.types, env.bag), HeapNeed(e, cx.types))
    decreases e, 3
  {
    hide *;
    LeafParts(e, cx, depth, env, s);
    if e.Const? {
      s' := ConstSim(e, cx, depth, NmNone, env, s);
      n := 1;
    } else if e.Var? {
      s' := VarSim(e, cx, depth, env, s);
      n := 1;
    } else {
      match e.op
      case EQ =>
        EqParts(e, cx, depth, env, s);
        n, s' := EqSim(e, cx, depth, env, s);
      case NEQ =>
        NeqParts(e, cx, depth, env, s);
        n, s' := EqSim(e, cx, depth + 1, env, s);
        n, s' := NotRun(env, s, n, s', s.ip + Size(GenEq(e, cx, depth + 1)),
                        Compare(Strict(e.l, cx.types, env.bag), Strict(e.r, cx.types, env.bag)), HeapNeed(e, cx.types));
      case LAND =>
        LandLeft(e, cx, depth, env, s);
        n, s' := LandSim(e, cx, depth, env, s);
      case LOR =>
        LorLeft(e, cx, depth, env, s);
        n, s' := LorSim(e, cx, depth, env, s);
      case INDEX =>
        StrictIndex(e, cx.types, env.bag);
        n, s' := IndexSim(e, cx, depth, env, s);
      case OR => n, s' := OrSim(e, cx, depth, env, s);
    }
  }
}

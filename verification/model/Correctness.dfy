/** The compiled function as a whole, from its first instruction to its result. */
module Correctness {
  import opened Values
  import opened Words
  import opened StringTables
  import opened Opcodes
  import opened Code
  import opened Expressions
  import opened CodeGen
  import opened Machine
  import opened Fragment
  import opened InstructionRuns
  import opened OperandLayouts
  import opened Simulation
  import opened Termination

  /** Running a function: an empty stack and heap, until the run ends. */
  function Evaluate(env: Env, base: nat, tab: seq<string>): Outcome {
    Exec(env, State(base, [], [], tab), |env.code|)
  }

  /** A result stands for a value. */
  ghost predicate Denotes(r: Result, t: Type, v: Value) {
    && r.t == t
    && match t
       case STRING => v == Str(r.vs)
       case BOOL => v == Boolean(ByteCodeToBool(r.v1))
       case INT64 => v == Int(ByteCodeToInteger(r.v1, r.v2))
       case DURATION => v == Dur(ByteCodeToInteger(r.v1, r.v2))
       case STRING_MAP => r.vi == Some(v)
  }

  /** An outcome is what the strict evaluator says. */
  ghost predicate Agrees(o: Outcome, t: Type, ev: Ev) {
    match ev
    case Val(v) => o.Returned? && Denotes(o.r, t, v)
    case Bad(f) => o == Failed(f)
    case Absent => false
  }

  /** Returning the value on top of the stack. */
  lemma RetRun(env: Env, s: State, n: nat, s1: State, ip: nat, ev: Ev, h: nat) returns (n': nat)
    requires ValueRun(env, s, n, s1, ip, env.ret, ev, h) && At(env.code, ip, I0(RET))
    ensures Agrees(Exec(env, s, n'), env.ret, ev)
  {
    hide Step, Exec;
    n' := n;
    if ev.Val? {
      FetchRet(env, s1);
      ExecAdd(env, s, n, 1);
      n' := n + 1;
      var ws := s1.stack[|s.stack|..];
      assert s1.stack == s.stack + ws;
      if ev.v.Int? { IntegerRoundTrip(ev.v.i); }
      if ev.v.Dur? { IntegerRoundTrip(ev.v.d); }
    }
  }

  /** What the compiled body of `e` needs to run. */
  ghost predicate ReadyToRun(e: Expr, cx: Context, base: nat, env: Env, tab: seq<string>) {
    && ValueOK(e) && Ready(e, cx, State(base, [], [], tab)) && env.ret == EvalType(e, cx.types).value
    && Room(e, cx.types, NmNone, State(base, [], [], tab))
    && At(env.code, base, Body(e, cx))
  }

  /** The whole body, when the expression is not a LOR. */
  lemma RunBody(e: Expr, cx: Context, base: nat, env: Env, tab: seq<string>) returns (n: nat)
    requires ReadyToRun(e, cx, base, env, tab) && !(e.Fn? && e.op.LOR?) && EvalType(e, cx.types).Some?
    ensures Agrees(Exec(env, State(base, [], [], tab), n), env.ret, Strict(e, cx.types, env.bag))
  {
    hide At, Gen, Exec, Step, ValueOK, Ready, Room, Strict, ValueRun, Agrees;
    var s := State(base, [], [], tab);
    AtPair(env.code, base, Gen(e, cx, 0, NmNone), I0(RET));
    var m, s1 := ValueSim(e, cx, 0, env, s);
    n := RetRun(env, s, m, s1, base + Size(Gen(e, cx, 0, NmNone)), Strict(e, cx.types, env.bag), HeapNeed(e, cx.types));
  }

  // ----- a LOR at depth 0 returns from its left operand -----

  lemma RootLorShape(e: Expr, cx: Context)
    requires EvalType(e, cx.types).Some? && e.Fn? && e.op.LOR?
    ensures EvalType(e.l, cx.types) == EvalType(e.r, cx.types) == EvalType(e, cx.types) == Some(BOOL)
    ensures Gen(e, cx, 0, NmNone) ==
      Cat(Gen(e.l, cx, 1, NmNone),
          Cat(One(Jump(JZ, 3)), Cat(I1(APUSH_B, 1), Cat(I0(RET), Gen(e.r, cx, 1, NmNone)))))
  {
    hide Size;
  }

  ghost predicate RootLorLayout(a: Code, b: Code, words: seq<nat>, base: nat) {
    var p := base + Size(a);
    && At(words, base, a)
    && At(words, p, One(Jump(JZ, 3))) && At(words, p + 2, I1(APUSH_B, 1)) && At(words, p + 4, I0(RET))
    && At(words, p + 5, b) && At(words, p + 5 + Size(b), I0(RET))
  }

  lemma RootLorCode(e: Expr, cx: Context, words: seq<nat>, base: nat)
    requires EvalType(e, cx.types).Some? && e.Fn? && e.op.LOR? && At(words, base, Body(e, cx))
    requires EvalType(e.l, cx.types).Some? && EvalType(e.r, cx.types).Some?
    ensures RootLorLayout(Gen(e.l, cx, 1, NmNone), Gen(e.r, cx, 1, NmNone), words, base)
  {
    hide At, Gen, EvalType;
    RootLorShape(e, cx);
    var a, b := Gen(e.l, cx, 1, NmNone), Gen(e.r, cx, 1, NmNone);
    var jz, push := One(Jump(JZ, 3)), I1(APUSH_B, 1);
    AtPair(words, base, Gen(e, cx, 0, NmNone), I0(RET));
    AtParts(words, base, a, jz, Cat(push, Cat(I0(RET), b)));
    AtParts(words, base + Size(a) + 2, push, I0(RET), b);
    assert Size(Gen(e, cx, 0, NmNone)) == Size(a) + 5 + Size(b);
  }

  lemma RootLorLeft(e: Expr, cx: Context, base: nat, env: Env, tab: seq<string>)
    requires ReadyToRun(e, cx, base, env, tab) && e.Fn? && e.op.LOR?
    ensures EvalType(e.l, cx.types) == EvalType(e.r, cx.types) == EvalType(e, cx.types) == Some(BOOL) == Some(env.ret)
    ensures ValueReady(e.l, cx, 1, env, State(base, [], [], tab))
    ensures RootLorLayout(Gen(e.l, cx, 1, NmNone), Gen(e.r, cx, 1, NmNone), env.code, base)
  {
    hide At, Gen, Strict, StringsOf, Distinct;
    var s := State(base, [], [], tab);
    RootLorShape(e, cx);
    RootLorCode(e, cx, env.code, base);
    ReadyParts(e, cx, s, s, 0);
  }

  lemma RootLorRight(e: Expr, cx: Context, base: nat, env: Env, tab: seq<string>, n: nat, s1: State)
    requires ReadyToRun(e, cx, base, env, tab) && e.Fn? && e.op.LOR?
    requires EvalType(e.l, cx.types).Some? && EvalType(e.r, cx.types).Some?
    requires Fell(env, State(base, [], [], tab), n, s1, s1.ip, HeapNeed(e.l, cx.types))
    requires At(env.code, s1.ip, Gen(e.r, cx, 1, NmNone))
    ensures ValueReady(e.r, cx, 1, env, s1)
  {
    hide At, Gen, Strict, StringsOf, Distinct, Exec, Step;
    ReadyParts(e, cx, State(base, [], [], tab), s1, HeapNeed(e.l, cx.types));
  }

  /** Pushing true, at a depth where there is room. */
  lemma PushTrue(env: Env, s: State, n: nat, s1: State, ip: nat, h: nat) returns (s': State)
    requires Fell(env, s, n, s1, ip, h) && At(env.code, ip, I1(APUSH_B, 1)) && s.stack == []
    ensures ValueRun(env, s, n + 1, s', ip + 2, BOOL, Val(Boolean(true)), h)
  {
    hide Step, Exec;
    FetchPush(env, s1, APUSH_B);
    ExecAdd(env, s, n, 1);
    s' := StepPush(env, s1, APUSH_B).s;
  }

  lemma RunRootLor(e: Expr, cx: Context, base: nat, env: Env, tab: seq<string>) returns (n: nat)
    requires ReadyToRun(e, cx, base, env, tab) && e.Fn? && e.op.LOR? && EvalType(e, cx.types).Some?
    ensures Agrees(Exec(env, State(base, [], [], tab), n), env.ret, Strict(e, cx.types, env.bag))
  {
    hide At, Gen, Exec, Step, ValueReady, ReadyToRun, Room, Strict, ValueRun, Agrees, Either, EvalType;
    var s := State(base, [], [], tab);
    RootLorLeft(e, cx, base, env, tab);
    StrictLor(e, cx.types, env.bag);
    var p := base + Size(Gen(e.l, cx, 1, NmNone));
    var a, b := Strict(e.l, cx.types, env.bag), Strict(e.r, cx.types, env.bag);
    var h1, h2 := HeapNeed(e.l, cx.types), HeapNeed(e.r, cx.types);
    EitherCases(a, b);
    var n1, s1 := ValueSim(e.l, cx, 1, env, s);
    if !a.Val? {
      n := n1;
      FailedAgrees(env, s, n, s1, p, BOOL, a, h1);
    } else {
      var s2 := PopJump(env, s, n1, s1, p, 3, a.v, h1);
      if a.v == Boolean(true) {
        var s3 := PushTrue(env, s, n1 + 1, s2, p + 2, h1);
        n := RetRun(env, s, n1 + 2, s3, p + 4, a, h1);
      } else {
        RootLorRight(e, cx, base, env, tab, n1 + 1, s2);
        var m, s3 := ValueSim(e.r, cx, 1, env, s2);
        var ip := p + 5 + Size(Gen(e.r, cx, 1, NmNone));
        Continue(env, s, n1 + 1, s2, m, s3, p + 5, ip, BOOL, b, h1, h2);
        n := RetRun(env, s, n1 + 1 + m, s3, ip, b, h1 + h2);
      }
    }
  }

  lemma FailedAgrees(env: Env, s: State, n: nat, s1: State, ip: nat, t: Type, a: Ev, h: nat)
    requires ValueRun(env, s, n, s1, ip, t, a, h) && !a.Val?
    ensures Agrees(Exec(env, s, n), t, a)
  {
  }

  lemma FinalOutcome(env: Env, s: State, n: nat, m: nat)
    requires !Exec(env, s, n).Running? && !Exec(env, s, m).Running?
    ensures Exec(env, s, n) == Exec(env, s, m)
  {
    if n <= m { ExecStops(env, s, n, m - n); } else { ExecStops(env, s, m, n - m); }
  }

  /**
   Compiler correctness: evaluating the compiled body returns a result that stands for the value of
   the strict evaluator, or fails exactly as the strict evaluator does.
   */
  lemma CompiledCodeCorrect(e: Expr, cx: Context, base: nat, env: Env, tab: seq<string>)
    requires ReadyToRun(e, cx, base, env, tab)
    ensures Agrees(Evaluate(env, base, tab), EvalType(e, cx.types).value, Strict(e, cx.types, env.bag))
  {
    hide Exec, Gen, At, Strict, Step, ValueOK;
    var n;
    if e.Fn? && e.op.LOR? {
      n := RunRootLor(e, cx, base, env, tab);
    } else {
      n := RunBody(e, cx, base, env, tab);
    }
    var s := State(base, [], [], tab);
    BodyForward(e, cx, base);
    BodyInCode(env.code, base, Body(e, cx));
    CompiledCodeTerminates(e, cx, base, env, s, |env.code|);
    FinalOutcome(env, s, n, |env.code|);
  }

  lemma {:induction false} BodyInCode(words: seq<nat>, base: nat, c: Code)
    requires At(words, base, c)
    ensures base + Size(c) <= |words|
    decreases c
  {
    if c.Cat? { BodyInCode(words, base + Size(c.a), c.b); }
  }
}

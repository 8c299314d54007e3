/** What single instructions and their compositions do to a run. */
module InstructionRuns {
  import opened Values
  import opened Words
  import opened StringTables
  import opened Opcodes
  import opened Code
  import opened Expressions
  import opened CodeGen
  import opened Machine
  import opened Fragment

  /** Loading an attribute value pushes what converting it to the declared type gives. */
  lemma LoadEncodes(t: Type, name: string, v: Value, s: State)
    requires Distinct(s.tab) && (t.STRING_MAP? ==> |s.heap| < HEAP_SIZE - 1)
    ensures var r := Load(ResolveOp(t), v, s.heap, s.tab);
      match Convert(t, name, v)
      case Val(x) =>
        && r.Loaded? && EncodesValue(t, x, r.words, r.heap, r.tab) && |r.words| == Width(t)
        && s.heap <= r.heap && |r.heap| == |s.heap| + (if t.STRING_MAP? then 1 else 0)
        && s.tab <= r.tab && Distinct(r.tab)
      case Bad(f) => r.Mismatch? && f == BadConversion(name)
      case Absent => false
  {
  }

  /** The operand of a resolve names the attribute. */
  lemma NameOperand(name: string, cx: Context, s: State)
    requires name in cx.tab && cx.tab <= s.tab
    ensures GetString(s.tab, IndexOf(cx.tab, name)) == Some(name)
  {
  }

  /** A conditional jump pops its condition. */
  lemma JumpStep(env: Env, s: State, op: nat, skip: nat, st: seq<nat>, w: nat) returns (s': State)
    requires At(env.code, s.ip, One(Jump(op, skip))) && op in {JZ, JNZ}
    requires s.stack == st + [w]
    ensures s' == s.(ip := s.ip + 2 + (if (op == JZ) == (w == 0) then skip else 0), stack := st)
    ensures Exec(env, s, 1) == Running(s')
  {
    hide Step, Exec;
    FetchJump(env, s, op);
    assert s.stack[..|s.stack| - 1] == st;
    s' := StepJump(env, s, op).s;
  }

  /** What was pushed stays encoded by the same words as the heap and the strings grow. */
  lemma PushesLater(s: State, s1: State, s2: State, t: Type, v: Value, h1: nat, h2: nat)
    requires Pushes(s, s1, s1.ip, t, v, h1) && Extends(s1, s2, h2)
    ensures EncodesValue(t, v, s1.stack[|s.stack|..], s2.heap, s2.tab)
    ensures Extends(s, s2, h1 + h2)
  {
  }

  /** Comparing the top of the stack with a constant. */
  lemma AEqStep(c: Value, cx: Context, env: Env, s: State, s1: State, v: Value, h: nat) returns (s2: State)
    requires Pushes(s, s1, s1.ip, TypeOf(c), v, h) && Comparable(TypeOf(c))
    requires c.Str? ==> c.s in cx.tab && cx.tab <= s1.tab
    requires At(env.code, s1.ip, AEqInstr(c, cx.tab))
    ensures Exec(env, s1, 1) == Running(s2)
    ensures Pushes(s, s2, s1.ip + Size(AEqInstr(c, cx.tab)), BOOL, Boolean(v == c), h)
  {
    hide Step;
    hide Exec;
    FetchAEq(env, s1, AEqInstr(c, cx.tab).item.op);
    var ws := s1.stack[|s.stack|..];
    assert s1.stack == s.stack + ws;
    if c.Str? {
      IdStable(cx.tab, s1.tab, c.s);
      IdsDecideEquality(s1.tab, ws[0], IndexOf(cx.tab, c.s));
    } else if c.Int? {
      IntegerWordsInjective(v.i, c.i);
    }
    s2 := StepAEq(env, s1, AEqInstr(c, cx.tab).item.op).s;
    assert s2.stack == s.stack + [BoolToByteCode(v == c)];
  }

  /** Comparing words decides equality of the values they stand for. */
  lemma WordsDecideEquality(t: Type, a: Value, b: Value, wa: seq<nat>, wb: seq<nat>, heap: seq<Value>, tab: seq<string>)
    requires EncodesValue(t, a, wa, heap, tab) && EncodesValue(t, b, wb, heap, tab) && Comparable(t) && Distinct(tab)
    ensures |wa| == |wb| == Width(t)
    ensures wa == wb <==> a == b
  {
    if t.STRING? {
      IdsDecideEquality(tab, wa[0], wb[0]);
    } else if t.INT64? {
      IntegerWordsInjective(a.i, b.i);
    }
  }

  lemma EqOnWords(t: Type, s: State, st: seq<nat>, wa: seq<nat>, wb: seq<nat>)
    requires s.stack == st + wa + wb && |wa| == |wb| == Width(t) && Comparable(t)
    ensures StepBool(s, EqInstr(t).item.op) == Running(s.(ip := s.ip + 1, stack := st + [BoolToByteCode(wa == wb)]))
  {
    var n := |s.stack|;
    assert s.stack[..n - 2 * Width(t)] == st;
    assert s.stack[n - 1] == wb[|wb| - 1] && s.stack[n - 1 - Width(t)] == wa[|wa| - 1];
    if t.INT64? { assert s.stack[n - 2] == wb[0] && s.stack[n - 4] == wa[0]; }
  }

  /** Comparing the two topmost values. */
  lemma EqStep(t: Type, env: Env, s: State, s1: State, s2: State, a: Value, b: Value, h1: nat, h2: nat)
    returns (s3: State)
    requires Pushes(s, s1, s1.ip, t, a, h1) && Pushes(s1, s2, s2.ip, t, b, h2) && Comparable(t)
    requires At(env.code, s2.ip, EqInstr(t))
    ensures Exec(env, s2, 1) == Running(s3)
    ensures Pushes(s, s3, s2.ip + Size(EqInstr(t)), BOOL, Boolean(a == b), h1 + h2)
  {
    hide Step, Exec, StepBool;
    FetchBool(env, s2, EqInstr(t).item.op);
    PushesLater(s, s1, s2, t, a, h1, h2);
    var wa, wb := s1.stack[|s.stack|..], s2.stack[|s1.stack|..];
    assert s2.stack == s.stack + wa + wb;
    WordsDecideEquality(t, a, b, wa, wb, s2.heap, s2.tab);
    EqOnWords(t, s2, s.stack, wa, wb);
    s3 := StepBool(s2, EqInstr(t).item.op).s;
  }

  lemma RunFacts(env: Env, s: State, n: nat, s1: State, ip: nat, t: Type, a: Ev, h: nat)
    requires ValueRun(env, s, n, s1, ip, t, a, h) && a.Val?
    ensures Afterwards(s, s1, ip, t, h)
  {
  }

  lemma EqConstRun(c: Value, cx: Context, env: Env, s: State, n: nat, s1: State, ip: nat, a: Ev, h: nat)
    returns (n': nat, s': State)
    requires ValueRun(env, s, n, s1, ip, TypeOf(c), a, h) && Comparable(TypeOf(c))
    requires c.Str? ==> c.s in cx.tab && cx.tab <= s.tab
    requires At(env.code, ip, AEqInstr(c, cx.tab))
    ensures ValueRun(env, s, n', s', ip + Size(AEqInstr(c, cx.tab)), BOOL, Compare(a, Val(c)), h)
  {
    hide Step, Exec, EncodesValue;
    n', s' := n, s1;
    if a.Val? {
      s' := AEqStep(c, cx, env, s, s1, a.v, h);
      ExecAdd(env, s, n, 1);
      n' := n + 1;
    }
  }

  lemma EqRun(t: Type, env: Env, s: State, n: nat, s1: State, m: nat, s2: State, mid: nat, ip: nat,
              a: Ev, b: Ev, h1: nat, h2: nat)
    returns (n': nat, s': State)
    requires ValueRun(env, s, n, s1, mid, t, a, h1) && Comparable(t)
    requires a.Val? ==> ValueRun(env, s1, m, s2, ip, t, b, h2)
    requires At(env.code, ip, EqInstr(t))
    ensures ValueRun(env, s, n', s', ip + Size(EqInstr(t)), BOOL, Compare(a, b), h1 + h2)
  {
    hide Step, Exec, EncodesValue;
    n', s' := n, s1;
    if a.Val? {
      ExecAdd(env, s, n, m);
      n', s' := n + m, s2;
      if b.Val? {
        s' := EqStep(t, env, s, s1, s2, a.v, b.v, h1, h2);
        ExecAdd(env, s, n + m, 1);
        n' := n + m + 1;
      }
    }
  }

  lemma NotRun(env: Env, s: State, n: nat, s1: State, ip: nat, a: Ev, h: nat) returns (n': nat, s': State)
    requires ValueRun(env, s, n, s1, ip, BOOL, a, h) && At(env.code, ip, I0(NOT))
    ensures ValueRun(env, s, n', s', ip + 1, BOOL, Negate(a), h)
  {
    hide Step, Exec;
    n', s' := n, s1;
    if a.Val? {
      FetchBool(env, s1, NOT);
      ExecAdd(env, s, n, 1);
      assert s1.stack == s.stack + [BoolToByteCode(a.v.b)];
      n', s' := n + 1, StepBool(s1, NOT).s;
      assert s'.stack == s.stack + [BoolToByteCode(!a.v.b)];
    }
  }

  lemma AndRun(env: Env, s: State, n: nat, s1: State, m: nat, s2: State, mid: nat, ip: nat,
               a: Ev, b: Ev, h1: nat, h2: nat)
    returns (n': nat, s': State)
    requires ValueRun(env, s, n, s1, mid, BOOL, a, h1)
    requires a.Val? ==> ValueRun(env, s1, m, s2, ip, BOOL, b, h2)
    requires At(env.code, ip, I0(AND))
    ensures ValueRun(env, s, n', s', ip + Size(I0(AND)), BOOL, Both(a, b), h1 + h2)
  {
    hide Step, Exec;
    n', s' := n, s1;
    if a.Val? {
      ExecAdd(env, s, n, m);
      n', s' := n + m, s2;
      if b.Val? {
        FetchBool(env, s2, AND);
        ExecAdd(env, s, n + m, 1);
        assert s2.stack == s.stack + [BoolToByteCode(a.v.b)] + [BoolToByteCode(b.v.b)];
        n', s' := n + m + 1, StepBool(s2, AND).s;
        assert s'.stack == s.stack + [BoolToByteCode(a.v.b && b.v.b)];
      }
    }
  }

  lemma AfterIp(s: State, s1: State, ip: nat, t: Type, h: nat)
    requires Afterwards(s, s1, ip, t, h)
    ensures s1.ip == ip
  {
  }

  lemma Continue(env: Env, s: State, n: nat, s1: State, m: nat, s2: State, ip: nat, ip2: nat, t: Type, b: Ev,
          h1: nat, h2: nat)
    requires Fell(env, s, n, s1, ip, h1) && ValueRun(env, s1, m, s2, ip2, t, b, h2)
    ensures ValueRun(env, s, n + m, s2, ip2, t, b, h1 + h2)
  {
    hide Step, Exec, EncodesValue;
    ExecAdd(env, s, n, m);
  }

  lemma ContinueFell(env: Env, s: State, n: nat, s1: State, m: nat, s2: State, ip: nat, ip2: nat, h1: nat, h2: nat)
    requires Fell(env, s, n, s1, ip, h1) && Fell(env, s1, m, s2, ip2, h2)
    ensures Fell(env, s, n + m, s2, ip2, h1 + h2)
  {
    hide Step, Exec;
    ExecAdd(env, s, n, m);
  }

  /** A pushed boolean is consumed by a conditional jump. */
  lemma PopJump(env: Env, s: State, n: nat, s1: State, ip: nat, skip: nat, v: Value, h: nat) returns (s2: State)
    requires ValueRun(env, s, n, s1, ip, BOOL, Val(v), h) && At(env.code, ip, One(Jump(JZ, skip)))
    ensures v.Boolean? && Fell(env, s, n + 1, s2, ip + 2 + (if v.b then 0 else skip), h)
  {
    hide Step, Exec, At;
    assert s1.stack == s.stack + [BoolToByteCode(v.b)];
    s2 := JumpStep(env, s1, JZ, skip, s.stack, BoolToByteCode(v.b));
    ExecAdd(env, s, n, 1);
  }

  lemma JmpStep(env: Env, s: State, skip: nat) returns (s': State)
    requires At(env.code, s.ip, One(Jump(JMP, skip)))
    ensures s' == s.(ip := s.ip + 2 + skip) && Exec(env, s, 1) == Running(s')
  {
    hide Step, Exec;
    FetchJump(env, s, JMP);
    s' := StepJump(env, s, JMP).s;
  }

  /** The code that a true left operand runs: push true and jump over the right operand. */
  lemma PushTrueAndLeave(env: Env, s: State, skip: nat) returns (s': State)
    requires At(env.code, s.ip, I1(APUSH_B, 1)) && At(env.code, s.ip + 2, One(Jump(JMP, skip)))
    requires |s.stack| < OP_STACK_SIZE && Distinct(s.tab)
    ensures ValueRun(env, s, 2, s', s.ip + 4 + skip, BOOL, Val(Boolean(true)), 0)
  {
    hide Step, Exec;
    FetchPush(env, s, APUSH_B);
    var s1 := StepPush(env, s, APUSH_B).s;
    s' := JmpStep(env, s1, skip);
    ExecAdd(env, s, 1, 1);
  }

  lemma EitherCases(a: Ev, b: Ev)
    ensures Either(a, b) == if a.Val? && a.v != Boolean(true) then b else a
  {
  }

  lemma RunFailed(env: Env, s: State, n: nat, s1: State, ip: nat, ip': nat, t: Type, t': Type, a: Ev, h: nat, h': nat)
    requires ValueRun(env, s, n, s1, ip, t, a, h) && !a.Val?
    ensures ValueRun(env, s, n, s1, ip', t', a, h')
  {
  }

  /** A bound on the heap growth may be relaxed. */
  lemma RunMore(env: Env, s: State, n: nat, s1: State, ip: nat, t: Type, a: Ev, h: nat, h': nat)
    requires ValueRun(env, s, n, s1, ip, t, a, h) && h <= h'
    ensures ValueRun(env, s, n, s1, ip, t, a, h')
  {
  }

  /** Pushing a string that is interned on the way. */
  lemma PushStringRun(s: State, s1: State, ip: nat, v: string, h: nat)
    requires Extends(s, s1, h)
    ensures PushString(s1, ip, s.stack, v, []).Running?
    ensures Pushes(s, PushString(s1, ip, s.stack, v, []).s, ip, STRING, Str(v), h)
  {
    var s2 := PushString(s1, ip, s.stack, v, []).s;
    assert s2.stack[|s.stack|..] == [IndexOf(s2.tab, v)];
  }

  lemma IndexConstRun(c: string, cx: Context, env: Env, s: State, n: nat, s1: State, ip: nat, a: Ev, h: nat)
    returns (n': nat, s': State)
    requires ValueRun(env, s, n, s1, ip, STRING_MAP, a, h)
    requires c in cx.tab && cx.tab <= s.tab
    requires At(env.code, ip, I1(ANLOOKUP, IndexOf(cx.tab, c)))
    ensures ValueRun(env, s, n', s', ip + 2, STRING, IndexEv(a, Val(Str(c))), h)
  {
    hide Step, Exec, PushString, Distinct, GetString;
    n', s' := n, s1;
    if a.Val? {
      NameOperand(c, cx, s1);
      FetchANLookup(env, s1);
      ExecAdd(env, s, n, 1);
      assert s1.stack[..|s1.stack| - 1] == s.stack;
      n' := n + 1;
      if a.v.StrMap? {
        PushStringRun(s, s1, ip + 2, Lookup(a.v.m, c), h);
        s' := StepANLookup(env, s1).s;
      }
    }
  }

  lemma IndexRun(env: Env, s: State, n: nat, s1: State, m: nat, s2: State, mid: nat, ip: nat, a: Ev, k: Ev, h1: nat,
          h2: nat)
    returns (n': nat, s': State)
    requires ValueRun(env, s, n, s1, mid, STRING_MAP, a, h1)
    requires a.Val? ==> ValueRun(env, s1, m, s2, ip, STRING, k, h2)
    requires At(env.code, ip, I0(NLOOKUP))
    ensures ValueRun(env, s, n', s', ip + 1, STRING, IndexEv(a, k), h1 + h2)
  {
    hide Step, Exec, PushString, Distinct;
    n', s' := n, s1;
    if a.Val? {
      ExecAdd(env, s, n, m);
      n', s' := n + m, s2;
      if k.Val? {
        FetchLookup(env, s2, NLOOKUP);
        ExecAdd(env, s, n + m, 1);
        PushesLater(s, s1, s2, STRING_MAP, a.v, h1, h2);
        assert s2.stack[..|s2.stack| - 2] == s.stack;
        n' := n + m + 1;
        if a.v.StrMap? {
          PushStringRun(s, s2, ip + 1, Lookup(a.v.m, k.v.s), h1 + h2);
          s' := StepLookup(s2, NLOOKUP).s;
        }
      }
    }
  }

  lemma ConstKey(e: Expr, cx: Context, depth: nat)
    requires EvalType(e, cx.types).Some? && e.Fn? && e.op.INDEX? && e.r.Const? && e.r.v.Str?
    ensures EvalType(e.r, cx.types).Some? && KeyCode(e, cx, depth) == I1(APUSH_S, IndexOf(cx.tab, e.r.v.s))
  {
  }

  lemma PushStringFlag(s: State, s1: State, ip: nat, ip': nat, v: string, h: nat)
    requires Extends(s, s1, h)
    ensures PushString(s1, ip, s.stack, v, [1]).Running?
    ensures var s2 := PushString(s1, ip, s.stack, v, [1]).s;
      && s2.ip == ip && |s2.stack| > 0 && s2.stack == s2.stack[..|s2.stack| - 1] + [1]
      && Pushes(s, s2.(ip := ip', stack := s2.stack[..|s2.stack| - 1]), ip', STRING, Str(v), h)
  {
    var s2 := PushString(s1, ip, s.stack, v, [1]).s;
    assert s2.stack[..|s2.stack| - 1] == s.stack + [IndexOf(s2.tab, v)];
    assert (s.stack + [IndexOf(s2.tab, v)])[|s.stack|..] == [IndexOf(s2.tab, v)];
  }

  lemma IndexPresentCases(a: Ev, c: string)
    ensures !a.Val? ==> IndexPresent(a, c) == a
    ensures a.Val? ==> IndexPresent(a, c) == IndexPresent(Val(a.v), c)
  {
  }

  lemma JumpRunCases(env: Env, s: State, n: nat, s': State, target: nat, end: nat, t: Type, ev: Ev, h: nat)
    requires JumpRun(env, s, n, s', target, end, t, ev, h)
    ensures if ev.Absent? then Fell(env, s, n, s', end, h) else ValueRun(env, s, n, s', target, t, ev, h)
  {
  }

  lemma JumpRunFell(env: Env, s: State, n: nat, s': State, target: nat, end: nat, t: Type, h: nat)
    requires Fell(env, s, n, s', end, h)
    ensures JumpRun(env, s, n, s', target, end, t, Absent, h)
  {
  }

  lemma JumpRunValue(env: Env, s: State, n: nat, s': State, target: nat, end: nat, t: Type, ev: Ev, h: nat)
    requires ValueRun(env, s, n, s', target, t, ev, h)
    ensures JumpRun(env, s, n, s', target, end, t, ev, h)
  {
  }

  lemma FirstCases(a: Ev, b: Ev)
    ensures First(a, b) == if a.Absent? then b else a
  {
  }

  lemma FallRunValue(env: Env, s: State, n: nat, s': State, target: nat, end: nat, t: Type, ev: Ev, h: nat)
    requires ValueRun(env, s, n, s', target, t, ev, h) || ValueRun(env, s, n, s', end, t, ev, h)
    ensures FallRun(env, s, n, s', target, end, t, ev, h)
    ensures target == end ==> ValueRun(env, s, n, s', end, t, ev, h)
  {
  }

  lemma FallContinue(env: Env, s: State, n: nat, s1: State, m: nat, s2: State, ip: nat, target: nat, end: nat,
          t: Type, b: Ev, h1: nat, h2: nat)
    requires Fell(env, s, n, s1, ip, h1) && FallRun(env, s1, m, s2, target, end, t, b, h2)
    ensures FallRun(env, s, n + m, s2, target, end, t, b, h1 + h2)
  {
    hide ValueRun, Fell;
    if ValueRun(env, s1, m, s2, target, t, b, h2) {
      Continue(env, s, n, s1, m, s2, ip, target, t, b, h1, h2);
    } else {
      Continue(env, s, n, s1, m, s2, ip, end, t, b, h1, h2);
    }
  }

  lemma FallRunSame(env: Env, s: State, n: nat, s': State, end: nat, t: Type, ev: Ev, h: nat)
    requires FallRun(env, s, n, s', end, end, t, ev, h)
    ensures ValueRun(env, s, n, s', end, t, ev, h)
  {
  }
}

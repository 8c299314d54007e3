/** Laws of the instructions that the compiler does not emit: each is tied to others, and to the values on the stack. */
module MachineLaws {
  import opened Values
  import opened Words
  import opened StringTables
  import opened Opcodes
  import opened Expressions
  import opened Machine

  /** Words are pushed, in order. */
  function Pushed(s: State, ws: seq<nat>): State {
    s.(stack := s.stack + ws)
  }

  /** The same state at another instruction. */
  function Moved(o: Outcome, ip: nat): Outcome {
    if o.Running? then Running(o.s.(ip := ip)) else o
  }

  // ----- logic is that of truth values -----

  lemma LogicOfBooleans(x: bool, y: bool)
    ensures var a, b := BoolToByteCode(x), BoolToByteCode(y);
      && Logic(XOR, a, b) == Logic(AXOR, a, b) == (x != y)
      && Logic(OR_B, a, b) == Logic(AOR, a, b) == (x || y)
      && Logic(AAND, a, b) == (x && y)
  {
  }

  /** Any word but 0 counts as true. */
  lemma LogicOfWords(op: nat, a: nat, b: nat)
    requires op in {XOR, OR_B, AXOR, AAND, AOR}
    ensures Logic(op, a, b) == Logic(op, BoolToByteCode(a != 0), BoolToByteCode(b != 0))
  {
  }

  // ----- an operand instead of a second word on the stack -----

  /** An instruction with an operand does what the plain one does with the operand pushed. */
  lemma OperandForms(env: Env, s: State)
    requires s.ip + 1 < |env.code| && |s.stack| >= 1
    ensures var p, next := Pushed(s, [env.code[s.ip + 1]]), s.ip + 2;
      && StepALogic(env, s, AXOR) == Moved(StepLogic(p, XOR), next)
      && StepALogic(env, s, AOR) == Moved(StepLogic(p, OR_B), next)
      && StepALogic(env, s, AAND) == Moved(StepBool(p, AND), next)
      && StepAMember(env, s) == Moved(StepMember(p), next)
      && StepANLookup(env, s) == Moved(StepLookup(p, NLOOKUP), next)
  {
    hide LookupIn, Intern, GetString;
    var w := env.code[s.ip + 1];
    var p, n := Pushed(s, [w]), |s.stack|;
    assert p.stack[..n - 1] == s.stack[..n - 1] && p.stack[n] == w && p.stack[n - 1] == s.stack[n - 1];
    SameLookup(s, p, w, s.stack[n - 1]);
  }

  lemma SameLookup(s: State, p: State, key: nat, ref: nat)
    requires p.tab == s.tab && p.heap == s.heap
    ensures LookupIn(p, key, ref) == LookupIn(s, key, ref)
  {
  }

  /** The same for the two words of an integer. */
  lemma IntegerOperandForms(env: Env, s: State)
    requires s.ip + 2 < |env.code| && |s.stack| >= 2
    ensures var p, next := Pushed(s, [env.code[s.ip + 2], env.code[s.ip + 1]]), s.ip + 3;
      && StepASum(env, s, AADD_I) == Moved(StepSum(p, ADD_I), next)
      && StepASum(env, s, ASUB_I) == Moved(StepSum(p, SUB_I), next)
  {
    hide ByteCodeToInteger, High, Low;
    var p, n := Pushed(s, [env.code[s.ip + 2], env.code[s.ip + 1]]), |s.stack|;
    assert p.stack[..n - 2] == s.stack[..n - 2];
    assert p.stack[n + 1] == env.code[s.ip + 1] && p.stack[n] == env.code[s.ip + 2];
    assert p.stack[n - 1] == s.stack[n - 1] && p.stack[n - 2] == s.stack[n - 2];
  }

  /** Two integers on the stack are replaced by their sum, or by the lower one less the upper one. */
  lemma SumOfIntegers(s: State, x: int64, y: int64)
    ensures var p := Pushed(s, [High(x), Low(x), High(y), Low(y)]);
      && StepSum(p, ADD_I) == Running(Pushed(s, [High(Fitted(x + y)), Low(Fitted(x + y))]).(ip := s.ip + 1))
      && StepSum(p, SUB_I) == Running(Pushed(s, [High(Fitted(x - y)), Low(Fitted(x - y))]).(ip := s.ip + 1))
  {
    hide ByteCodeToInteger, High, Low, Sum64;
    var p, n := Pushed(s, [High(x), Low(x), High(y), Low(y)]), |s.stack|;
    IntegerRoundTrip(x);
    IntegerRoundTrip(y);
    SumExact(x, y);
    assert p.stack[..n] == s.stack && p.stack[n + 3] == Low(y) && p.stack[n + 2] == High(y);
    assert p.stack[n + 1] == Low(x) && p.stack[n] == High(x);
  }

  // ----- errors -----

  /** An error is raised exactly where the jump with the same test would be taken. */
  lemma ErrAsJump(env: Env, s: State, message: string)
    requires s.ip + 1 < |env.code| && |s.stack| >= 1 && GetString(s.tab, env.code[s.ip + 1]) == Some(message)
    requires env.code[s.ip + 1] != s.ip + 2
    ensures StepErr(env, s, ERR) == Failed(Raised(message))
    ensures var jumped := StepJump(env, s, JZ);
      StepErr(env, s, ERRZ) == if jumped.s.ip == s.ip + 2 then jumped else Failed(Raised(message))
    ensures var jumped := StepJump(env, s, JNZ);
      StepErr(env, s, ERRNZ) == if jumped.s.ip == s.ip + 2 then jumped else Failed(Raised(message))
  {
  }

  // ----- words come back -----

  /** What is duplicated is there twice, and dropping it again restores the stack. */
  lemma DuplicateAndPop(s: State, k: nat)
    requires 1 <= k <= 2 && k <= |s.stack| <= OP_STACK_SIZE - k
    ensures var dup, pop := if k == 1 then DUP_S else DUP_I, if k == 1 then POP_S else POP_I;
      var d := StepStack(s, dup);
      && d.Running? && d.s.stack == s.stack + s.stack[|s.stack| - k..]
      && StepStack(d.s, pop) == Running(s.(ip := s.ip + 2))
  {
    var n := |s.stack|;
    var d := s.stack + s.stack[n - k..];
    assert d[..|d| - k] == s.stack;
  }

  /** The words of a value in registers, the upper one first. */
  ghost predicate Kept(registers: seq<nat>, r: nat, ws: seq<nat>) {
    && r + |ws| <= |registers|
    && (|ws| == 1 ==> registers[r] == ws[0])
    && (|ws| == 2 ==> registers[r] == ws[1] && registers[r + 1] == ws[0])
  }

  lemma LoadKeeps(env: Env, s: State, load: nat, r: nat, ws: seq<nat>)
    requires RLOAD_S <= load <= RLOAD_D && |ws| == (if load <= RLOAD_B then 1 else 2)
    requires s.ip + 1 < |env.code| && env.code[s.ip + 1] == r && |s.registers| == REGISTER_COUNT
    ensures var o := StepRLoad(env, Pushed(s, ws), load);
      && (o.Running? <==> r + |ws| <= 4)
      && (o.Running? ==>
            && Kept(o.s.registers, r, ws) && o.s == s.(ip := s.ip + 2, registers := o.s.registers)
            && |o.s.registers| == REGISTER_COUNT
            && forall i :: 0 <= i < 4 && !(r <= i < r + |ws|) ==> o.s.registers[i] == s.registers[i])
  {
    var p := Pushed(s, ws);
    assert WidthOf(load) == |ws| && p.stack[..|s.stack|] == s.stack;
  }

  lemma PushGives(env: Env, s: State, push: nat, r: nat, ws: seq<nat>)
    requires RPUSH_S <= push <= RPUSH_D && |ws| == (if push <= RPUSH_B then 1 else 2)
    requires s.ip + 1 < |env.code| && env.code[s.ip + 1] == r && Kept(s.registers, r, ws)
    requires |s.stack| + |ws| <= OP_STACK_SIZE
    ensures StepRPush(env, s, push) == Running(Pushed(s, ws).(ip := s.ip + 2))
  {
    assert WidthOf(push) == |ws|;
    assert ws == if |ws| == 2 then [ws[0], ws[1]] else [ws[0]];
  }

  /** A value kept in registers and pushed again restores the stack, if there are the registers. */
  lemma LoadAndPush(env: Env, s: State, load: nat, r: nat, ws: seq<nat>)
    requires RLOAD_S <= load <= RLOAD_D && |ws| == (if load <= RLOAD_B then 1 else 2)
    requires s.ip + 3 < |env.code| && env.code[s.ip + 1] == r == env.code[s.ip + 3] && |s.registers| == REGISTER_COUNT
    requires |s.stack| + |ws| <= OP_STACK_SIZE
    ensures var kept := StepRLoad(env, Pushed(s, ws), load);
      && (kept.Running? <==> r + |ws| <= 4)
      && (kept.Running? ==>
            StepRPush(env, kept.s, load + 30) == Running(Pushed(s, ws).(ip := s.ip + 4, registers := kept.s.registers)))
  {
    hide StepRLoad, StepRPush, Kept;
    LoadKeeps(env, s, load, r, ws);
    var kept := StepRLoad(env, Pushed(s, ws), load);
    if kept.Running? { PushGives(env, kept.s, load + 30, r, ws); }
  }

  /** Operand words stored in registers and pushed are the operand words pushed. */
  lemma StoreAndPush(env: Env, s: State, load: nat)
    requires ALOAD_S <= load <= ALOAD_D && |s.registers| == REGISTER_COUNT
    requires s.ip + 5 < |env.code| && env.code[s.ip + 1] < 3
    ensures var n, o := if load <= ALOAD_B then 1 else 2, StepALoad(env, s, load);
      var ws := if n == 1 then [env.code[s.ip + 2]] else [env.code[s.ip + 3], env.code[s.ip + 2]];
      && o.Running? && o.s.ip == s.ip + 2 + n && o.s.stack == s.stack
      && Kept(o.s.registers, env.code[s.ip + 1], ws)
  {
  }

  /** A member that is there is what the other lookups find. */
  lemma MemberFound(s: State)
    requires |s.stack| >= 2
    ensures StepMember(s).Running? ==> StepMember(s) == StepLookup(s, NLOOKUP)
    ensures StepLookup(s, NLOOKUP).Running? && !StepMember(s).Running? ==>
      exists k :: StepMember(s) == Failed(MemberMissing(k)) && GetString(s.tab, s.stack[|s.stack| - 1]) == Some(k)
  {
    hide Intern;
  }
}

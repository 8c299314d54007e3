/** Programs: functions relocated into one body of code (pkg/il/program.go). */
module Programs {
  import opened Values
  import opened Words
  import opened StringTables
  import opened Opcodes
  import opened Code
  import opened Expressions
  import opened Machine
  import opened Termination

  datatype Function = Function(id: nat, address: nat, length: nat, params: seq<Type>, ret: Type)

  // ----- relocation as a function -----

  /** One entry for every operand word. */
  function Kinds(args: seq<Arg>): (ks: seq<Arg>)
    ensures |ks| == ArgsSize(args)
  {
    if args == [] then [] else seq(ArgSize(args[0]), _ => args[0]) + Kinds(args[1..])
  }

  function ShiftWord(k: Arg, w: nat, start: nat): nat {
    if k.ArgAddress? then w + start else w
  }

  function Shift(ks: seq<Arg>, ws: seq<nat>, start: nat): (r: seq<nat>)
    requires |ks| == |ws|
    ensures |r| == |ws|
  {
    seq(|ws|, i requires 0 <= i < |ws| => ShiftWord(ks[i], ws[i], start))
  }

  /** From `i` on, the body consists of complete instructions. */
  predicate Whole(body: seq<nat>, i: nat)
    decreases |body| - i
  {
    i < |body| ==> i + OpSize(body[i]) <= |body| && Whole(body, i + OpSize(body[i]))
  }

  function Instruction(body: seq<nat>, i: nat, start: nat): (r: seq<nat>)
    requires i < |body| && i + OpSize(body[i]) <= |body|
    ensures |r| == OpSize(body[i])
  {
    [body[i]] + Shift(Kinds(Args(body[i])), body[i + 1..i + OpSize(body[i])], start)
  }

  /** The instructions from `i` on, up to the first incomplete one. */
  function Relocate(body: seq<nat>, i: nat, start: nat): seq<nat>
    decreases |body| - i
  {
    if i >= |body| || i + OpSize(body[i]) > |body| then []
    else Instruction(body, i, start) + Relocate(body, i + OpSize(body[i]), start)
  }

  /** The places at which an instruction starts. */
  function Boundaries(body: seq<nat>, i: nat): set<nat>
    decreases |body| - i
  {
    if i >= |body| then {} else {i} + Boundaries(body, i + OpSize(body[i]))
  }

  lemma {:induction false} RelocateSize(body: seq<nat>, i: nat, start: nat)
    requires Whole(body, i) && i <= |body|
    ensures |Relocate(body, i, start)| == |body| - i
    decreases |body| - i
  {
    hide Instruction, OpSize;
    if i < |body| { RelocateSize(body, i + OpSize(body[i]), start); }
  }

  /** The instruction at a boundary keeps its place. */
  lemma {:induction false} RelocatedInstruction(body: seq<nat>, i: nat, start: nat, b: nat)
    requires Whole(body, i) && i <= |body| && b in Boundaries(body, i)
    ensures i <= b < |body| && b + OpSize(body[b]) <= |body| && Whole(body, b)
    ensures |Relocate(body, i, start)| == |body| - i
    ensures Relocate(body, i, start)[b - i..b - i + OpSize(body[b])] == Instruction(body, b, start)
    ensures b + OpSize(body[b]) < |body| ==> b + OpSize(body[b]) in Boundaries(body, i)
    decreases |body| - i
  {
    hide Instruction, OpSize;
    RelocateSize(body, i, start);
    var next := i + OpSize(body[i]);
    var head, tail := Instruction(body, i, start), Relocate(body, next, start);
    assert Relocate(body, i, start) == head + tail;
    RelocateSize(body, next, start);
    if b != i {
      RelocatedInstruction(body, next, start, b);
      var n := OpSize(body[b]);
      assert (head + tail)[b - i..b - i + n] == tail[b - next..b - next + n];
    } else {
      assert (head + tail)[..|head|] == head;
      if next < |body| { NextBoundary(body, i); }
    }
  }

  lemma NextBoundary(body: seq<nat>, i: nat)
    requires i < |body| && i + OpSize(body[i]) < |body|
    ensures i + OpSize(body[i]) in Boundaries(body, i)
  {
    hide OpSize;
    assert i + OpSize(body[i]) in Boundaries(body, i + OpSize(body[i]));
  }

  /** Relocation shifts the operand of a jump, and changes no other word. */
  lemma OnlyAddressesShift(body: seq<nat>, i: nat, start: nat)
    requires i < |body| && i + OpSize(body[i]) <= |body|
    ensures IsJump(body[i]) ==> OpSize(body[i]) == 2 && Instruction(body, i, start) == [body[i], body[i + 1] + start]
    ensures !IsJump(body[i]) ==> Instruction(body, i, start) == body[i..i + OpSize(body[i])]
  {
    OnlyJumpsHoldAddresses(body[i]);
    if !IsJump(body[i]) { NoAddress(Args(body[i])); }
  }

  lemma {:induction false} NoAddress(args: seq<Arg>)
    requires ArgAddress !in args
    ensures ArgAddress !in Kinds(args)
    decreases |args|
  {
    if args != [] { NoAddress(args[1..]); }
  }

  // ----- a run of the relocated code mirrors a run of the body -----

  /** The function lies in the program's code at `start`. */
  ghost predicate PlacedAt(code: seq<nat>, start: nat, body: seq<nat>) {
    && Whole(body, 0) && start + |body| <= |code|
    && |Relocate(body, 0, start)| == |body| && code[start..start + |body|] == Relocate(body, 0, start)
  }

  /** Jumps lead to instructions, or out of the body. */
  ghost predicate JumpsLand(body: seq<nat>) {
    forall b :: b in Boundaries(body, 0) && b + 1 < |body| && IsJump(body[b]) ==>
      body[b + 1] in Boundaries(body, 0) || body[b + 1] >= |body|
  }

  /** Jumps lead to instructions, or to the very end of the body. */
  ghost predicate JumpsStay(body: seq<nat>) {
    forall b :: b in Boundaries(body, 0) && b + 1 < |body| && IsJump(body[b]) ==>
      body[b + 1] in Boundaries(body, 0) || body[b + 1] == |body|
  }

  function ShiftState(s: State, start: nat): State { s.(ip := s.ip + start) }

  function ShiftOutcome(o: Outcome, start: nat): Outcome {
    if o.Running? then Running(ShiftState(o.s, start)) else o
  }

  lemma FetchedWords(code: seq<nat>, start: nat, body: seq<nat>, b: nat)
    requires PlacedAt(code, start, body) && b in Boundaries(body, 0)
    ensures b < |body| && b + OpSize(body[b]) <= |body|
    ensures code[start + b] == body[b]
    ensures OpSize(body[b]) >= 2 ==> code[start + b + 1] == if IsJump(body[b]) then body[b + 1] + start else body[b + 1]
    ensures OpSize(body[b]) >= 3 ==> code[start + b + 2] == body[b + 2]
    ensures OpSize(body[b]) >= 4 ==> code[start + b + 3] == body[b + 3]
    ensures b + OpSize(body[b]) in Boundaries(body, 0) || b + OpSize(body[b]) == |body|
  {
    hide Instruction, Relocate, OpSize, Boundaries, Whole;
    RelocatedInstruction(body, 0, start, b);
    OnlyAddressesShift(body, b, start);
    var n, r, all := OpSize(body[b]), Instruction(body, b, start), Relocate(body, 0, start);
    var part := all[b - 0..b - 0 + n];
    assert r == part;
    FetchedWord(code, start, all, b, n, r, 0);
    if n >= 2 { FetchedWord(code, start, all, b, n, r, 1); }
    if n >= 3 { FetchedWord(code, start, all, b, n, r, 2); }
    if n >= 4 { FetchedWord(code, start, all, b, n, r, 3); }
  }

  lemma FetchedWord(code: seq<nat>, start: nat, all: seq<nat>, b: nat, n: nat, r: seq<nat>, k: nat)
    requires start + |all| <= |code| && code[start..start + |all|] == all
    requires b + n <= |all| && all[b..b + n] == r && k < n
    ensures code[start + b + k] == r[k]
  {
    assert code[start + b + k] == code[start..start + |all|][b + k] == all[b..b + n][k];
  }

  /** What is fetched at an instruction is the same, but for the operand of a jump. */
  ghost predicate Fetched(code: seq<nat>, start: nat, body: seq<nat>, b: nat) {
    && b < |body| && b + OpSize(body[b]) <= |body| && start + |body| <= |code|
    && code[start + b] == body[b]
    && (OpSize(body[b]) >= 2 ==> code[start + b + 1] == if IsJump(body[b]) then body[b + 1] + start else body[b + 1])
    && (OpSize(body[b]) >= 3 ==> code[start + b + 2] == body[b + 2])
    && (OpSize(body[b]) >= 4 ==> code[start + b + 3] == body[b + 3])
  }

  lemma OperandSizes(op: nat)
    ensures op in {APUSH_S, APUSH_B, AEQ_S, AEQ_B} ==> OpSize(op) == 2
    ensures op in {APUSH_I, APUSH_D, AEQ_I, AEQ_D} ==> OpSize(op) == 3
  {
    hide OpSize;
    if |Args(op)| == 1 { OneArgSize(op, Args(op)[0]); }
  }

  lemma NotAJump(op: nat)
    ensures op < JMP || op > JNZ ==> !IsJump(op)
  {
  }

  lemma PushMirrors(env: Env, body: seq<nat>, start: nat, s: State, op: nat)
    requires Fetched(env.code, start, body, s.ip) && op in {APUSH_S, APUSH_B, APUSH_I}
    requires body[s.ip] == op || (op == APUSH_I && body[s.ip] == APUSH_D)
    ensures var t, here := ShiftState(s, start), StepPush(env.(code := body), s, op);
      StepPush(env, t, op) == ShiftOutcome(here, start) && (here.Running? ==> here.s.ip == s.ip + OpSize(op))
  {
    hide OpSize, IsJump;
    OperandSizes(op);
    OperandSizes(body[s.ip]);
    NotAJump(body[s.ip]);
  }

  lemma BoolMirrors(start: nat, s: State, op: nat)
    requires op in {EQ_S, EQ_B, EQ_I, AND, NOT}
    ensures var t, here := ShiftState(s, start), StepBool(s, op);
      StepBool(t, op) == ShiftOutcome(here, start) && (here.Running? ==> here.s.ip == s.ip + OpSize(op))
  {
    hide OpSize;
    NoArgSize(op);
  }

  lemma AEqMirrors(env: Env, body: seq<nat>, start: nat, s: State, op: nat)
    requires Fetched(env.code, start, body, s.ip) && op in {AEQ_S, AEQ_B, AEQ_I}
    requires body[s.ip] == op || (op == AEQ_I && body[s.ip] == AEQ_D)
    ensures var t, here := ShiftState(s, start), StepAEq(env.(code := body), s, op);
      StepAEq(env, t, op) == ShiftOutcome(here, start) && (here.Running? ==> here.s.ip == s.ip + OpSize(op))
  {
    hide OpSize, IsJump;
    OperandSizes(op);
    OperandSizes(body[s.ip]);
    NotAJump(body[s.ip]);
  }

  lemma ResolveMirrors(env: Env, body: seq<nat>, start: nat, s: State, op: nat)
    requires Fetched(env.code, start, body, s.ip) && body[s.ip] == op
      && op in {RESOLVE_S, RESOLVE_B, RESOLVE_I, RESOLVE_F}
    ensures var t, here := ShiftState(s, start), StepResolve(env.(code := body), s, op);
      StepResolve(env, t, op) == ShiftOutcome(here, start) && (here.Running? ==> here.s.ip == s.ip + OpSize(op))
  {
    hide Load, GetString;
  }

  lemma TResolveMirrors(env: Env, body: seq<nat>, start: nat, s: State, op: nat)
    requires Fetched(env.code, start, body, s.ip) && body[s.ip] == op
      && op in {TRESOLVE_S, TRESOLVE_B, TRESOLVE_I, TRESOLVE_F}
    ensures var t, here := ShiftState(s, start), StepTResolve(env.(code := body), s, op);
      StepTResolve(env, t, op) == ShiftOutcome(here, start) && (here.Running? ==> here.s.ip == s.ip + OpSize(op))
  {
    hide Load, GetString;
  }

  lemma LookupInMirrors(s: State, start: nat, key: nat, ref: nat)
    ensures LookupIn(ShiftState(s, start), key, ref) == LookupIn(s, key, ref)
  {
  }

  lemma LookupMirrors(s: State, start: nat, op: nat)
    requires op in {TLOOKUP, NLOOKUP}
    ensures var here := StepLookup(s, op);
      && StepLookup(ShiftState(s, start), op) == ShiftOutcome(here, start)
      && (here.Running? ==> here.s.ip == s.ip + OpSize(op))
  {
    hide LookupIn, PushString, OpSize;
    LookupSize();
    var n := |s.stack|;
    if n >= 2 {
      LookupInMirrors(s, start, s.stack[n - 1], s.stack[n - 2]);
      match LookupIn(s, s.stack[n - 1], s.stack[n - 2]) {
        case Crash(_) =>
        case Found(v) =>
          var w := if v.Some? then v.value else "";
          PushMirrorsString(s, start, s.ip + 1, s.stack[..n - 2], w, if v.Some? && op == TLOOKUP then [1] else []);
      }
    }
  }

  lemma LookupSize()
    ensures OpSize(TLOOKUP) == 1 && OpSize(NLOOKUP) == 1
  {
  }

  lemma PushMirrorsString(s: State, start: nat, ip: nat, stack: seq<nat>, v: string, tail: seq<nat>)
    ensures PushString(ShiftState(s, start), ip + start, stack, v, tail) ==
      ShiftOutcome(PushString(s, ip, stack, v, tail), start)
    ensures PushString(s, ip, stack, v, tail).Running? && PushString(s, ip, stack, v, tail).s.ip == ip
  {
  }

  lemma ANLookupMirrors(env: Env, body: seq<nat>, start: nat, s: State, op: nat)
    requires Fetched(env.code, start, body, s.ip) && body[s.ip] == op && op in {ANLOOKUP}
    ensures var t, here := ShiftState(s, start), StepANLookup(env.(code := body), s);
      StepANLookup(env, t) == ShiftOutcome(here, start) && (here.Running? ==> here.s.ip == s.ip + OpSize(op))
  {
    hide LookupIn, Intern;
    var n := |s.stack|;
    if n >= 1 { LookupInMirrors(s, start, body[s.ip + 1], s.stack[n - 1]); }
  }

  lemma JumpMirrors(env: Env, body: seq<nat>, start: nat, s: State, op: nat)
    requires Fetched(env.code, start, body, s.ip) && body[s.ip] == op && op in {JMP, JZ, JNZ}
    ensures s.ip + 1 < |body|
    ensures var here := StepJump(env.(code := body), s, op);
      && StepJump(env, ShiftState(s, start), op) == ShiftOutcome(here, start)
      && (here.Running? ==> here.s.ip == s.ip + OpSize(op) || here.s.ip == body[s.ip + 1])
  {
  }

  // The opcodes that the compiler does not emit.

  /** A step of the body alone, moved, and on to the next instruction. */
  ghost predicate Mirrors(here: Outcome, there: Outcome, start: nat, next: nat) {
    there == ShiftOutcome(here, start) && (here.Running? ==> here.s.ip == next)
  }

  /** Sizes by group. */
  lemma OtherSizes(op: nat)
    ensures (RLOAD_S <= op <= RLOAD_D || RPUSH_S <= op <= RPUSH_D || AXOR <= op <= AOR) ==> OpSize(op) == 2
    ensures (ERR <= op <= ERRNZ || op == ALOOKUP) ==> OpSize(op) == 2
    ensures (op == NOP || POP_S <= op <= DUP_D || op in {EQ_D, XOR, OR_B, ADD_I, SUB_I, LOOKUP}) ==> OpSize(op) == 1
    ensures op in {APUSH_I, APUSH_D, AEQ_I, AEQ_D, AADD_I, ASUB_I} ==> OpSize(op) == 3
    ensures ALOAD_S <= op <= ALOAD_D ==> OpSize(op) == 2 + WidthOf(op)
  {
    hide OpSize;
    if Args(op) == [] { NoArgSize(op); }
    else if |Args(op)| == 1 { OneArgSize(op, Args(op)[0]); }
    else { TwoArgsSize(op, Args(op)[0], Args(op)[1]); }
  }

  lemma RegisterMirrors(env: Env, body: seq<nat>, start: nat, s: State, op: nat)
    requires Fetched(env.code, start, body, s.ip) && body[s.ip] == op
    ensures var t, alone, next := ShiftState(s, start), env.(code := body), s.ip + OpSize(op);
      && (RLOAD_S <= op <= RLOAD_D ==> Mirrors(StepRLoad(alone, s, op), StepRLoad(env, t, op), start, next))
      && (RPUSH_S <= op <= RPUSH_D ==> Mirrors(StepRPush(alone, s, op), StepRPush(env, t, op), start, next))
  {
    hide WidthOf, OpSize, IsJump;
    OtherSizes(op);
    NotAJump(op);
  }

  lemma ALoadMirrors(env: Env, body: seq<nat>, start: nat, s: State, op: nat)
    requires Fetched(env.code, start, body, s.ip) && body[s.ip] == op && ALOAD_S <= op <= ALOAD_D
    ensures var t, alone, next := ShiftState(s, start), env.(code := body), s.ip + OpSize(op);
      Mirrors(StepALoad(alone, s, op), StepALoad(env, t, op), start, next)
  {
    hide OpSize, IsJump;
    OtherSizes(op);
    NotAJump(op);
  }

  lemma LogicMirrors(env: Env, body: seq<nat>, start: nat, s: State, op: nat)
    requires Fetched(env.code, start, body, s.ip) && body[s.ip] == op
    ensures var t, alone, next := ShiftState(s, start), env.(code := body), s.ip + OpSize(op);
      && (op == XOR || op == OR_B ==> Mirrors(StepLogic(s, op), StepLogic(t, op), start, next))
      && (AXOR <= op <= AOR ==> Mirrors(StepALogic(alone, s, op), StepALogic(env, t, op), start, next))
  {
    hide OpSize, IsJump, Logic;
    OtherSizes(op);
    NotAJump(op);
  }

  lemma SumMirrors(env: Env, body: seq<nat>, start: nat, s: State, op: nat)
    requires Fetched(env.code, start, body, s.ip) && body[s.ip] == op
    ensures var t, alone, next := ShiftState(s, start), env.(code := body), s.ip + OpSize(op);
      && (op == ADD_I || op == SUB_I ==> Mirrors(StepSum(s, op), StepSum(t, op), start, next))
      && (op == AADD_I || op == ASUB_I ==> Mirrors(StepASum(alone, s, op), StepASum(env, t, op), start, next))
  {
    hide ByteCodeToInteger, Sum64, High, Low, OpSize, IsJump;
    OtherSizes(op);
    NotAJump(op);
  }

  lemma MemberMirrors(env: Env, body: seq<nat>, start: nat, s: State, op: nat)
    requires Fetched(env.code, start, body, s.ip) && body[s.ip] == op
    ensures var t, alone, next := ShiftState(s, start), env.(code := body), s.ip + OpSize(op);
      && (op == LOOKUP ==> Mirrors(StepMember(s), StepMember(t), start, next))
      && (op == ALOOKUP ==> Mirrors(StepAMember(alone, s), StepAMember(env, t), start, next))
  {
    hide LookupIn, Intern, GetString, OpSize, IsJump, PushString;
    OtherSizes(op);
    NotAJump(op);
    var n := |s.stack|;
    if op == LOOKUP && n >= 2 { MemberMirrored(s, start, s.ip + 1, s.stack[..n - 2], s.stack[n - 1], s.stack[n - 2]); }
    if op == ALOOKUP && n >= 1 {
      MemberMirrored(s, start, s.ip + 2, s.stack[..n - 1], body[s.ip + 1], s.stack[n - 1]);
    }
  }

  lemma MemberMirrored(s: State, start: nat, ip: nat, stack: seq<nat>, key: nat, ref: nat)
    ensures var t := ShiftState(s, start);
      Mirrors(Member(s, ip, stack, key, ref), Member(t, ip + start, stack, key, ref), start, ip)
  {
    hide LookupIn, Intern, GetString;
    LookupInMirrors(s, start, key, ref);
  }

  lemma StackMirrors(env: Env, body: seq<nat>, start: nat, s: State, op: nat)
    requires Fetched(env.code, start, body, s.ip) && body[s.ip] == op
    ensures var t, alone, next := ShiftState(s, start), env.(code := body), s.ip + OpSize(op);
      && (op == NOP || POP_S <= op <= DUP_D ==> Mirrors(StepStack(s, op), StepStack(t, op), start, next))
      && (ERR <= op <= ERRNZ ==> Mirrors(StepErr(alone, s, op), StepErr(env, t, op), start, next))
  {
    hide GetString, OpSize, IsJump;
    OtherSizes(op);
    NotAJump(op);
  }

  lemma OtherMirrors(env: Env, body: seq<nat>, start: nat, s: State, op: nat)
    requires Fetched(env.code, start, body, s.ip) && body[s.ip] == op
    ensures var t, alone := ShiftState(s, start), env.(code := body);
      Mirrors(StepOther(alone, s, op), StepOther(env, t, op), start, s.ip + OpSize(op))
  {
    hide Fetched, OpSize, StepPush, StepBool, StepAEq, StepErr, StepStack, StepRLoad,
      StepALoad, StepRPush, StepLogic, StepALogic, StepSum, StepASum, StepMember, StepAMember;
    OtherSizes(op);
    OtherSizes(APUSH_I);
    OtherSizes(AEQ_I);
    BoolSize();
    if op == APUSH_D { PushMirrors(env, body, start, s, APUSH_I); }
    else if op == EQ_D { BoolMirrors(start, s, EQ_I); }
    else if op == AEQ_D { AEqMirrors(env, body, start, s, AEQ_I); }
    else if RLOAD_S <= op <= RLOAD_D || RPUSH_S <= op <= RPUSH_D { RegisterMirrors(env, body, start, s, op); }
    else if ALOAD_S <= op <= ALOAD_D { ALoadMirrors(env, body, start, s, op); }
    else if op == XOR || op == OR_B || AXOR <= op <= AOR { LogicMirrors(env, body, start, s, op); }
    else if op in {ADD_I, SUB_I, AADD_I, ASUB_I} { SumMirrors(env, body, start, s, op); }
    else if op == LOOKUP || op == ALOOKUP { MemberMirrors(env, body, start, s, op); }
    else { StackMirrors(env, body, start, s, op); }
  }

  lemma BoolSize()
    ensures OpSize(EQ_I) == 1
  {
    NoArgSize(EQ_I);
  }

  /** One step: to the next instruction, or along a jump. */
  lemma StepMoves(env: Env, body: seq<nat>, start: nat, s: State)
    requires Fetched(env.code, start, body, s.ip)
    ensures var here := Step(env.(code := body), s);
      && Step(env, ShiftState(s, start)) == ShiftOutcome(here, start)
      && (here.Running? ==>
            || here.s.ip == s.ip + OpSize(body[s.ip])
            || (IsJump(body[s.ip]) && s.ip + 1 < |body| && here.s.ip == body[s.ip + 1]))
  {
    hide Fetched, OpSize, StepPush, StepBool, StepAEq, StepResolve, StepTResolve, StepJump, StepRet, StepLookup,
      StepANLookup, StepOther;
    InPlace(env.code, start, body, s.ip);
    var op := body[s.ip];
    if op in {APUSH_S, APUSH_B, APUSH_I} { PushMirrors(env, body, start, s, op); }
    else if op in {EQ_S, EQ_B, EQ_I, AND, NOT} { BoolMirrors(start, s, op); }
    else if op in {AEQ_S, AEQ_B, AEQ_I} { AEqMirrors(env, body, start, s, op); }
    else if op in {RESOLVE_S, RESOLVE_B, RESOLVE_I, RESOLVE_F} { ResolveMirrors(env, body, start, s, op); }
    else if op in {TRESOLVE_S, TRESOLVE_B, TRESOLVE_I, TRESOLVE_F} { TResolveMirrors(env, body, start, s, op); }
    else if op in {JMP, JZ, JNZ} { JumpMirrors(env, body, start, s, op); }
    else if op == RET { RetMirrors(env.ret, s, start); }
    else if op in {TLOOKUP, NLOOKUP} { LookupMirrors(s, start, op); }
    else if op == ANLOOKUP { ANLookupMirrors(env, body, start, s, op); }
    else if op != HALT { OtherMirrors(env, body, start, s, op); }
  }

  lemma InPlace(code: seq<nat>, start: nat, body: seq<nat>, b: nat)
    requires Fetched(code, start, body, b)
    ensures b < |body| && start + |body| <= |code| && code[start + b] == body[b]
  {
  }

  /** One step, and where it leads. */
  lemma StepMirrors(env: Env, body: seq<nat>, start: nat, s: State)
    requires PlacedAt(env.code, start, body) && JumpsLand(body) && s.ip in Boundaries(body, 0)
    ensures Step(env, ShiftState(s, start)) == ShiftOutcome(Step(env.(code := body), s), start)
    ensures Step(env.(code := body), s).Running? ==>
      var ip := Step(env.(code := body), s).s.ip;
      ip in Boundaries(body, 0) || ip == |body| || (!JumpsStay(body) && ip >= |body|)
  {
    hide Boundaries, OpSize, Step, Relocate, Whole, IsJump;
    FetchedWords(env.code, start, body, s.ip);
    StepMoves(env, body, start, s);
  }

  lemma RetMirrors(t: Type, s: State, start: nat)
    ensures StepRet(t, ShiftState(s, start)) == StepRet(t, s) && !StepRet(t, s).Running?
  {
  }

  /** Within `n` steps the run leaves the code at its end, and tries to go on. */
  ghost predicate RunsPast(env: Env, s: State, n: nat)
    decreases n
  {
    n > 0 && (s.ip >= |env.code| || (Step(env, s).Running? && RunsPast(env, Step(env, s).s, n - 1)))
  }

  /** A whole run, crashes included, as long as it stays in the body. */
  lemma {:induction false} RunMirrors(env: Env, body: seq<nat>, start: nat, s: State, n: nat)
    requires PlacedAt(env.code, start, body) && JumpsLand(body)
    requires s.ip in Boundaries(body, 0) || s.ip >= |body|
    ensures var alone := env.(code := body);
      !RunsPast(alone, s, n) ==> Exec(env, ShiftState(s, start), n) == ShiftOutcome(Exec(alone, s, n), start)
    decreases n
  {
    hide Step, PlacedAt, JumpsLand, JumpsStay, Boundaries;
    if n > 0 && s.ip < |body| {
      StepMirrors(env, body, start, s);
      if Step(env.(code := body), s).Running? {
        RunMirrors(env, body, start, Step(env.(code := body), s).s, n - 1);
      }
    }
  }

  /** A run past the end crashes in the body alone; inside a program it goes on with the words that follow. */
  lemma {:induction false} RunLeaves(env: Env, body: seq<nat>, start: nat, s: State, n: nat)
    returns (k: nat, out: State)
    requires PlacedAt(env.code, start, body) && JumpsLand(body)
    requires s.ip in Boundaries(body, 0) || s.ip == |body| || (!JumpsStay(body) && s.ip >= |body|)
    requires RunsPast(env.(code := body), s, n)
    ensures k < n && out.ip >= |body| && (JumpsStay(body) ==> out.ip == |body|)
    ensures Exec(env.(code := body), s, k) == Running(out) && Exec(env.(code := body), s, n) == Failed(Panic)
    ensures Exec(env, ShiftState(s, start), n) == Exec(env, ShiftState(out, start), n - k)
    decreases n
  {
    hide Step, PlacedAt, JumpsLand, JumpsStay, Boundaries;
    if s.ip !in Boundaries(body, 0) {
      k, out := 0, s;
      PastTheEnd(env.(code := body), s);
    } else {
      FetchedWords(env.code, start, body, s.ip);
      StepMirrors(env, body, start, s);
      k, out := RunLeaves(env, body, start, Step(env.(code := body), s).s, n - 1);
      k := k + 1;
    }
  }

  /**
   A function of a program, whose end is followed by nothing or by a HALT: its run mirrors the run
   of its body exactly if it does not run past its end into the HALT before another function.
   */
  lemma MirrorsExactly(env: Env, body: seq<nat>, start: nat, s: State, n: nat)
    requires PlacedAt(env.code, start, body) && JumpsLand(body) && JumpsStay(body)
    requires s.ip in Boundaries(body, 0) || s.ip == |body|
    requires start + |body| < |env.code| ==> env.code[start + |body|] == HALT
    ensures var alone := env.(code := body);
      var halts := RunsPast(alone, s, n) && start + |body| < |env.code|;
      && (Exec(env, ShiftState(s, start), n) == ShiftOutcome(Exec(alone, s, n), start) <==> !halts)
      && (halts ==> Exec(env, ShiftState(s, start), n) == Failed(Halted))
  {
    hide Exec, PlacedAt, JumpsLand, JumpsStay, Boundaries, RunsPast;
    if RunsPast(env.(code := body), s, n) {
      var k, out := RunLeaves(env, body, start, s, n);
      EndOfBody(env, ShiftState(out, start), n - k);
    } else {
      RunMirrors(env, body, start, s, n);
    }
  }

  lemma EndOfBody(env: Env, s: State, n: nat)
    requires n > 0 && (s.ip < |env.code| ==> env.code[s.ip] == HALT)
    ensures Exec(env, s, n) == Failed(if s.ip < |env.code| then Halted else Panic)
  {
  }

  /** A body without a RET crashes alone, and halts when another function follows. */
  lemma RunPastDiffers(bag: Bag, tab: seq<string>)
    ensures var body, code: seq<nat> := [APUSH_B, 1], [HALT, APUSH_B, 1, HALT, RET];
      var s := State(0, [], [], tab);
      && PlacedAt(code, 1, body) && JumpsLand(body) && JumpsStay(body) && s.ip in Boundaries(body, 0)
      && Exec(Env(body, bag, BOOL), s, 2) == Failed(Panic)
      && Exec(Env(code, bag, BOOL), ShiftState(s, 1), 2) == Failed(Halted)
  {
    var body, code: seq<nat> := [APUSH_B, 1], [HALT, APUSH_B, 1, HALT, RET];
    var s := State(0, [], [], tab);
    PushBody();
    var alone, env := Env(body, bag, BOOL), Env(code, bag, BOOL);
    var s1 := State(2, [1], [], tab);
    assert Step(alone, s) == Running(s1) && Step(alone, s1) == Failed(Panic);
    assert RunsPast(alone, s1, 1) && RunsPast(alone, s, 2);
    hide Exec, Step;
    MirrorsExactly(env, body, 1, s, 2);
    var k, out := RunLeaves(env, body, 1, s, 2);
  }

  lemma PushBody()
    ensures var body, code: seq<nat> := [APUSH_B, 1], [HALT, APUSH_B, 1, HALT, RET];
      PlacedAt(code, 1, body) && Boundaries(body, 0) == {0} && JumpsLand(body) && JumpsStay(body)
  {
    var body, code: seq<nat> := [APUSH_B, 1], [HALT, APUSH_B, 1, HALT, RET];
    assert OpSize(APUSH_B) == 2 && !IsJump(APUSH_B);
    assert Whole(body, 2) && Whole(body, 0) && Boundaries(body, 2) == {};
    assert Boundaries(body, 0) == {0} + Boundaries(body, 2) == {0};
    assert Relocate(body, 2, 1) == [];
    OnlyAddressesShift(body, 0, 1);
    assert Instruction(body, 0, 1) == body[0..2] == body;
    assert Relocate(body, 0, 1) == body + [] == body;
    assert code[1..3] == body;
  }

  lemma PastTheEnd(env: Env, s: State)
    requires s.ip >= |env.code|
    ensures Step(env, s) == Failed(Panic)
  {
  }

  // ----- compiled code -----

  lemma EmittedSize(it: Item)
    requires Emitted(it) && !it.Exit?
    ensures OpSize(it.op) == ItemSize(it) && (IsJump(it.op) <==> it.Jump?)
  {
    hide ArgsSize;
    var args := Args(it.op);
    assert args == (match it
                    case Op0(_) => []
                    case Op1(op, _) => if op in {APUSH_B, AEQ_B} then [ArgBool] else [ArgString]
                    case Op2(_, _, _) => [ArgInt]
                    case Jump(_, _) => [ArgAddress]);
    SingleArg(args);
  }

  lemma SingleArg(args: seq<Arg>)
    requires |args| <= 1
    ensures ArgsSize(args) == if args == [] then 0 else ArgSize(args[0])
  {
  }

  /** Emitted code consists of complete instructions. */
  lemma {:induction false} EmittedWhole(body: seq<nat>, i: nat, c: Code)
    requires At(body, i, c) && AllEmitted(c) && Closed(c) && Whole(body, i + Size(c))
    ensures Whole(body, i)
    decreases c
  {
    hide OpSize, Emitted, Whole, At;
    if c.One? {
      EmittedSize(c.item);
      ItemFetched(body, i, c.item);
      WholeStep(body, i);
    } else if c.Cat? {
      AtPair(body, i, c.a, c.b);
      EmittedWhole(body, i + Size(c.a), c.b);
      EmittedWhole(body, i, c.a);
    }
  }

  lemma ItemFetched(body: seq<nat>, i: nat, it: Item)
    requires At(body, i, One(it))
    ensures i + ItemSize(it) <= |body| && body[i] == it.op
  {
  }

  lemma WholeStep(body: seq<nat>, i: nat)
    requires i < |body|
    ensures Whole(body, i) == (i + OpSize(body[i]) <= |body| && Whole(body, i + OpSize(body[i])))
  {
    hide OpSize;
  }

  /** Relocated, position-independent code is the same code. */
  lemma {:induction false} EmittedRelocates(code: seq<nat>, start: nat, body: seq<nat>, i: nat, c: Code)
    requires PlacedAt(code, start, body) && At(body, i, c) && AllEmitted(c) && Closed(c)
    requires i in Boundaries(body, 0) || i == |body|
    ensures At(code, start + i, c)
    ensures i + Size(c) in Boundaries(body, 0) || i + Size(c) == |body|
    decreases c
  {
    hide OpSize, Emitted, Boundaries, PlacedAt;
    if c.Cat? {
      EmittedRelocates(code, start, body, i, c.a);
      EmittedRelocates(code, start, body, i + Size(c.a), c.b);
    } else {
      InCode(code, start, body, i);
      if c.One? { ItemRelocates(code, start, body, i, c.item); }
    }
  }

  lemma ItemRelocates(code: seq<nat>, start: nat, body: seq<nat>, i: nat, it: Item)
    requires PlacedAt(code, start, body) && At(body, i, One(it)) && Emitted(it) && !it.Exit? && i in Boundaries(body, 0)
    ensures At(code, start + i, One(it))
    ensures i + ItemSize(it) in Boundaries(body, 0) || i + ItemSize(it) == |body|
  {
    hide OpSize, Emitted, Boundaries, PlacedAt;
    FetchedWords(code, start, body, i);
    InCode(code, start, body, i);
    EmittedSize(it);
  }

  lemma InCode(code: seq<nat>, start: nat, body: seq<nat>, i: nat)
    requires PlacedAt(code, start, body) && i <= |body|
    ensures start + |body| <= |code|
  {
  }

  // ----- the program -----

  lemma {:induction false} KindsAppend(args: seq<Arg>, a: Arg)
    ensures Kinds(args + [a]) == Kinds(args) + seq(ArgSize(a), _ => a)
    decreases |args|
  {
    if args == [] {
      assert args + [a] == [a] && [a][1..] == [];
    } else {
      assert (args + [a])[1..] == args[1..] + [a];
      KindsAppend(args[1..], a);
    }
  }

  lemma KindsParts(args: seq<Arg>, k: nat)
    requires k < |args|
    ensures Kinds(args[..k + 1]) == Kinds(args[..k]) + seq(ArgSize(args[k]), _ => args[k])
    ensures |Kinds(args[k..])| == ArgSize(args[k]) + |Kinds(args[k + 1..])|
  {
    hide ArgSize, ArgsSize;
    assert args[..k + 1] == args[..k] + [args[k]] && args[k..][1..] == args[k + 1..];
    KindsAppend(args[..k], args[k]);
  }

  lemma KindsEnds(args: seq<Arg>)
    ensures Kinds(args[..0]) == [] && Kinds(args[0..]) == Kinds(args) == Kinds(args[..|args|])
      && Kinds(args[|args|..]) == []
    ensures |Kinds(args)| == ArgsSize(args)
  {
    assert args[..0] == [] && args[0..] == args == args[..|args|] && args[|args|..] == [];
  }

  lemma ShiftAppend(ks: seq<Arg>, ws: seq<nat>, ks': seq<Arg>, ws': seq<nat>, start: nat)
    requires |ks| == |ws| && |ks'| == |ws'|
    ensures Shift(ks + ks', ws + ws', start) == Shift(ks, ws, start) + Shift(ks', ws', start)
  {
  }

  lemma RelocateStep(body: seq<nat>, i: nat, start: nat)
    requires i < |body| && i + OpSize(body[i]) <= |body|
    ensures Relocate(body, i, start) == Instruction(body, i, start) + Relocate(body, i + OpSize(body[i]), start)
  {
    hide OpSize, Instruction;
  }

  lemma RelocateStops(body: seq<nat>, i: nat, start: nat)
    requires i >= |body| || i + OpSize(body[i]) > |body|
    ensures Relocate(body, i, start) == []
    ensures Whole(body, i) <==> i >= |body|
  {
    hide OpSize, Instruction;
  }

  lemma OneWordMore(body: seq<nat>, from: nat, i: nat)
    requires from <= i < |body|
    ensures body[from..i + 1] == body[from..i] + [body[i]]
  {
  }

  class Program {
    const strings: StringTable
    var functions: map<nat, Function>
    var code: seq<nat>

    constructor ()
      ensures strings.Valid() && fresh(strings) && strings.Contents() == [NULL_STRING]
      ensures functions == map[] && code == [HALT]
    {
      strings := new StringTable();
      functions, code := map[], [HALT];
    }

    /** Copies the `n` words of one operand, adding `start` to an address. */
    method CopyOperand(body: seq<nat>, from: nat, a: Arg, start: nat)
      requires from + ArgSize(a) <= |body|
      modifies this`code
      ensures code == old(code) + Shift(seq(ArgSize(a), _ => a), body[from..from + ArgSize(a)], start)
    {
      var i, j := from, 0;
      while j < ArgSize(a)
        invariant j <= ArgSize(a) && i == from + j
        invariant code == old(code) + Shift(seq(j, _ => a), body[from..i], start)
      {
        ShiftAppend(seq(j, _ => a), body[from..i], [a], [body[i]], start);
        OneWordMore(body, from, i);
        assert seq(j + 1, _ => a) == seq(j, _ => a) + [a];
        code := code + [body[i]];
        if a.ArgAddress? {
          code := code[|code| - 1 := code[|code| - 1] + start];
        }
        i, j := i + 1, j + 1;
      }
    }

    /** Copies the operands of one instruction. */
    method CopyOperands(body: seq<nat>, from: nat, args: seq<Arg>, start: nat)
      requires from + ArgsSize(args) <= |body|
      modifies this`code
      ensures code == old(code) + Shift(Kinds(args), body[from..from + ArgsSize(args)], start)
    {
      hide Shift, ArgSize, Kinds, ArgsSize;
      KindsEnds(args);
      var i, k := from, 0;
      assert body[from..from] == [];
      while k < |args|
        invariant k <= |args| && i == from + |Kinds(args[..k])|
        invariant i + |Kinds(args[k..])| == from + ArgsSize(args)
        invariant code == old(code) + Shift(Kinds(args[..k]), body[from..i], start)
      {
        var a := args[k];
        var n := ArgSize(a);
        KindsParts(args, k);
        CopyOperand(body, i, a, start);
        ShiftAppend(Kinds(args[..k]), body[from..i], seq(n, _ => a), body[i..i + n], start);
        assert body[from..i] + body[i..i + n] == body[from..i + n];
        i, k := i + n, k + 1;
      }
    }

    /** Appends a function after a gap of one HALT; an incomplete instruction is an error. */
    method AddFunction(name: string, params: seq<Type>, ret: Type, body: seq<nat>) returns (ok: bool)
      requires strings.Valid()
      modifies this, strings
      ensures strings.Valid() && ok == Whole(body, 0)
      ensures code == old(code) + [HALT] + Relocate(body, 0, |old(code)| + 1)
      ensures ok ==> PlacedAt(code, |old(code)| + 1, body)
      ensures strings.Contents() == if ok then Intern(old(strings.Contents()), name) else old(strings.Contents())
      ensures functions == if ok
        then var id := IndexOf(strings.Contents(), name);
        old(functions)[id := Function(id, |old(code)| + 1, |body|, params, ret)]
        else old(functions)
    {
      hide Relocate, Whole, OpSize, Intern, IndexOf;
      code := code + [HALT];
      var start := |code|;
      ghost var x := code;
      ok := CopyBody(body, start);
      if ok {
        PlacedByCopy(x, code, body);
        var id := strings.GetID(name);
        functions := functions[id := Function(id, start, |body|, params, ret)];
      }
    }

    /** Transcribes a body instruction by instruction. */
    method CopyBody(body: seq<nat>, start: nat) returns (ok: bool)
      modifies this`code
      ensures ok == Whole(body, 0) && code == old(code) + Relocate(body, 0, start)
    {
      hide Relocate, Whole, Instruction, OpSize;
      var i := 0;
      while i < |body|
        invariant i <= |body| && Whole(body, 0) == Whole(body, i)
        invariant code + Relocate(body, i, start) == old(code) + Relocate(body, 0, start)
      {
        var op := body[i];
        if i + OpSize(op) > |body| {
          RelocateStops(body, i, start);
          return false;
        }
        ghost var before := code;
        RelocateStep(body, i, start);
        WholeStep(body, i);
        CopyInstruction(body, i, start);
        assert code + Relocate(body, i + OpSize(op), start) == before + Relocate(body, i, start);
        i := i + OpSize(op);
      }
      RelocateStops(body, i, start);
      ok := true;
    }

    method CopyInstruction(body: seq<nat>, i: nat, start: nat)
      requires i < |body| && i + OpSize(body[i]) <= |body|
      modifies this`code
      ensures code == old(code) + Instruction(body, i, start)
    {
      hide Shift, Args, Kinds, ArgsSize;
      code := code + [body[i]];
      CopyOperands(body, i + 1, Args(body[i]), start);
    }
  }

  lemma PlacedByCopy(x: seq<nat>, code: seq<nat>, body: seq<nat>)
    requires Whole(body, 0) && code == x + Relocate(body, 0, |x|)
    ensures PlacedAt(code, |x|, body)
  {
    hide Relocate, Whole;
    RelocateSize(body, 0, |x|);
    SecondPart(code, x, Relocate(body, 0, |x|), |body|);
  }

  lemma SecondPart(code: seq<nat>, x: seq<nat>, y: seq<nat>, n: nat)
    requires code == x + y && n == |y|
    ensures |x| + n <= |code| && code[|x|..|x| + n] == y
  {
  }
}

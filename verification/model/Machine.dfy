/**
 The virtual machine as a step function (pkg/il/interpreter/interpreterRun.go), for the opcodes
 that need neither frames nor arithmetic on doubles. The operand stack and the heap are the used
 parts of the arrays.
 */
module Machine {
  import opened Values
  import opened Words
  import opened StringTables
  import opened Opcodes
  import opened Expressions

  const OP_STACK_SIZE: nat := 64
  const HEAP_SIZE: nat := 64

  const REGISTER_COUNT: nat := 4
  const ZERO_REGISTERS: seq<nat> := [0, 0, 0, 0]

  /** A function starts with registers that are all zero. */
  datatype State = State(
    ip: nat, stack: seq<nat>, heap: seq<Value>, tab: seq<string>, registers: seq<nat> := ZERO_REGISTERS)

  /** What a function returns: its type, two raw words, and the string or heap value they denote. */
  datatype Result = Result(t: Type, v1: nat, v2: nat, vs: string, vi: Option<Value>)

  datatype Outcome =
    | Running(s: State)
    | Returned(r: Result)
    | Failed(f: Failure)

  /** The program's code, the bag it is evaluated against, and the return type of the function. */
  datatype Env = Env(code: seq<nat>, bag: Bag, ret: Type)

  function Step(env: Env, s: State): Outcome {
    if s.ip >= |env.code| then Failed(Panic)
    else
      var op := env.code[s.ip];
      if op == HALT then Failed(Halted)
      else if op == APUSH_S || op == APUSH_B || op == APUSH_I then StepPush(env, s, op)
      else if op == EQ_S || op == EQ_B || op == EQ_I || op == AND || op == NOT then StepBool(s, op)
      else if op == AEQ_S || op == AEQ_B || op == AEQ_I then StepAEq(env, s, op)
      else if op == RESOLVE_S || op == RESOLVE_B || op == RESOLVE_I || op == RESOLVE_F
      then StepResolve(env, s, op)
      else if op == TRESOLVE_S || op == TRESOLVE_B || op == TRESOLVE_I || op == TRESOLVE_F
      then StepTResolve(env, s, op)
      else if op == JMP || op == JZ || op == JNZ then StepJump(env, s, op)
      else if op == RET then StepRet(env.ret, s)
      else if op == TLOOKUP || op == NLOOKUP then StepLookup(s, op)
      else if op == ANLOOKUP then StepANLookup(env, s)
      else StepOther(env, s, op)
  }

  /** The opcodes that the compiler does not emit. Calls and arithmetic on doubles are reported as invalid. */
  function StepOther(env: Env, s: State, op: nat): Outcome {
    if op == APUSH_D then StepPush(env, s, APUSH_I)
    else if op == EQ_D then StepBool(s, EQ_I)
    else if op == AEQ_D then StepAEq(env, s, AEQ_I)
    else if ERR <= op <= ERRNZ then StepErr(env, s, op)
    else if op == NOP || POP_S <= op <= DUP_D then StepStack(s, op)
    else if RLOAD_S <= op <= RLOAD_D then StepRLoad(env, s, op)
    else if ALOAD_S <= op <= ALOAD_D then StepALoad(env, s, op)
    else if RPUSH_S <= op <= RPUSH_D then StepRPush(env, s, op)
    else if op == XOR || op == OR_B then StepLogic(s, op)
    else if AXOR <= op <= AOR then StepALogic(env, s, op)
    else if op == ADD_I || op == SUB_I then StepSum(s, op)
    else if op == AADD_I || op == ASUB_I then StepASum(env, s, op)
    else if op == LOOKUP then StepMember(s)
    else if op == ALOOKUP then StepAMember(env, s)
    else Failed(InvalidOpcode(op))
  }

  /** Raises an error: always, or when the top of the stack is zero, or is not. */
  function StepErr(env: Env, s: State, op: nat): Outcome {
    var n := |s.stack|;
    if op != ERR && n < 1 then Failed(StackUnderflow)
    else if s.ip + 1 >= |env.code| then Failed(Panic)
    else if op != ERR && (op == ERRZ) != (s.stack[n - 1] == 0) then
      Running(s.(ip := s.ip + 2, stack := s.stack[..n - 1]))
    else match GetString(s.tab, env.code[s.ip + 1])
      case None => Failed(Panic)
      case Some(message) => Failed(Raised(message))
  }

  /** The words of a value, by the place of an opcode in a group of four. */
  function WidthOf(op: nat): nat {
    if op % 10 % 4 >= 2 then 2 else 1
  }

  function StepStack(s: State, op: nat): Outcome {
    var n, k := |s.stack|, if op in {POP_S, POP_B, DUP_S, DUP_B} then 1 else 2;
    if op == NOP then Running(s.(ip := s.ip + 1))
    else if n < k then Failed(StackUnderflow)
    else if op <= POP_D then Running(s.(ip := s.ip + 1, stack := s.stack[..n - k]))
    else if n > OP_STACK_SIZE - k then Failed(StackOverflow)
    else Running(s.(ip := s.ip + 1, stack := s.stack + s.stack[n - k..]))
  }

  /** Puts one or two words into registers; past the last one Go panics. */
  function StoreAt(s: State, ip: nat, stack: seq<nat>, r: nat, ws: seq<nat>): Outcome {
    if r + |ws| > |s.registers| then Failed(Panic)
    else Running(s.(ip := ip, stack := stack, registers := s.registers[..r] + ws + s.registers[r + |ws|..]))
  }

  function StepRLoad(env: Env, s: State, op: nat): Outcome {
    var n, k := |s.stack|, WidthOf(op);
    if n < k then Failed(StackUnderflow)
    else if s.ip + 1 >= |env.code| then Failed(Panic)
    else
      var ws := if k == 2 then [s.stack[n - 1], s.stack[n - 2]] else [s.stack[n - 1]];
      StoreAt(s, s.ip + 2, s.stack[..n - k], env.code[s.ip + 1], ws)
  }

  function StepALoad(env: Env, s: State, op: nat): Outcome {
    var k := WidthOf(op);
    if s.ip + 1 + k >= |env.code| then Failed(Panic)
    else
      var ws := if k == 2 then [env.code[s.ip + 2], env.code[s.ip + 3]] else [env.code[s.ip + 2]];
      StoreAt(s, s.ip + 2 + k, s.stack, env.code[s.ip + 1], ws)
  }

  /** Two words are pushed where there may be room for one only; Go then panics. */
  function StepRPush(env: Env, s: State, op: nat): Outcome {
    var n, k := |s.stack|, WidthOf(op);
    if s.ip + 1 >= |env.code| then Failed(Panic)
    else if n > OP_STACK_SIZE - 1 then Failed(StackOverflow)
    else
      var r := env.code[s.ip + 1];
      if r + k > |s.registers| || n + k > OP_STACK_SIZE then Failed(Panic)
      else
        var ws := if k == 2 then [s.registers[r + 1], s.registers[r]] else [s.registers[r]];
        Running(s.(ip := s.ip + 2, stack := s.stack + ws))
  }

  /** Exclusive or, and, or. */
  predicate Logic(op: nat, a: nat, b: nat) {
    if op == XOR || op == AXOR then (a == 0) != (b == 0)
    else if op == AAND then a != 0 && b != 0
    else a != 0 || b != 0
  }

  function StepLogic(s: State, op: nat): Outcome {
    var n := |s.stack|;
    if n < 2 then Failed(StackUnderflow)
    else Replace(s, s.ip + 1, 2, Logic(op, s.stack[n - 1], s.stack[n - 2]))
  }

  function StepALogic(env: Env, s: State, op: nat): Outcome {
    var n := |s.stack|;
    if s.ip + 1 >= |env.code| then Failed(Panic)
    else if n < 1 then Failed(StackUnderflow)
    else Replace(s, s.ip + 2, 1, Logic(op, env.code[s.ip + 1], s.stack[n - 1]))
  }

  /** Sum or difference, which wrap at 64 bits. */
  function Sum64(op: nat, x: int64, y: int64): int64 {
    Wrap64(if op == ADD_I || op == AADD_I then x + y else x - y)
  }

  /** The sum or difference itself, moved by 2^64 where it does not fit; and each undoes the other. */
  lemma SumExact(x: int64, y: int64)
    ensures Sum64(ADD_I, x, y) == Sum64(AADD_I, x, y) == Fitted(x + y)
    ensures Sum64(SUB_I, x, y) == Sum64(ASUB_I, x, y) == Fitted(x - y)
    ensures Sum64(SUB_I, Sum64(ADD_I, x, y), y) == x && Sum64(ADD_I, Sum64(SUB_I, x, y), y) == x
  {
    hide Wrap64;
    WrapNear(x + y);
    WrapNear(x - y);
    WrapNear(Fitted(x + y) - y);
    WrapNear(Fitted(x - y) + y);
  }

  function PushInteger(s: State, ip: nat, stack: seq<nat>, i: int64): Outcome {
    Running(s.(ip := ip, stack := stack + [High(i), Low(i)]))
  }

  function StepSum(s: State, op: nat): Outcome {
    var n := |s.stack|;
    if n < 4 then Failed(StackUnderflow)
    else
      var y := ByteCodeToInteger(s.stack[n - 1], s.stack[n - 2]);
      var x := ByteCodeToInteger(s.stack[n - 3], s.stack[n - 4]);
      PushInteger(s, s.ip + 1, s.stack[..n - 4], Sum64(op, x, y))
  }

  function StepASum(env: Env, s: State, op: nat): Outcome {
    var n := |s.stack|;
    if n < 2 then Failed(StackUnderflow)
    else if s.ip + 2 >= |env.code| then Failed(Panic)
    else
      var y := ByteCodeToInteger(env.code[s.ip + 1], env.code[s.ip + 2]);
      var x := ByteCodeToInteger(s.stack[n - 1], s.stack[n - 2]);
      PushInteger(s, s.ip + 3, s.stack[..n - 2], Sum64(op, x, y))
  }

  /** A lookup that must succeed. */
  function Member(s: State, ip: nat, stack: seq<nat>, key: nat, ref: nat): Outcome {
    match LookupIn(s, key, ref)
    case Crash(f) => Failed(f)
    case Found(Some(v)) => PushString(s, ip, stack, v, [])
    case Found(None) =>
      (match GetString(s.tab, key) case None => Failed(Panic) case Some(k) => Failed(MemberMissing(k)))
  }

  function StepMember(s: State): Outcome {
    var n := |s.stack|;
    if n < 2 then Failed(StackUnderflow)
    else Member(s, s.ip + 1, s.stack[..n - 2], s.stack[n - 1], s.stack[n - 2])
  }

  function StepAMember(env: Env, s: State): Outcome {
    var n := |s.stack|;
    if n < 1 then Failed(StackUnderflow)
    else if s.ip + 1 >= |env.code| then Failed(Panic)
    else Member(s, s.ip + 2, s.stack[..n - 1], env.code[s.ip + 1], s.stack[n - 1])
  }

  function StepPush(env: Env, s: State, op: nat): Outcome {
    var n := if op == APUSH_I then 2 else 1;
    if s.ip + n >= |env.code| then Failed(Panic)
    else if |s.stack| > OP_STACK_SIZE - n then Failed(StackOverflow)
    else
      var w := if n == 2 then [env.code[s.ip + 2], env.code[s.ip + 1]] else [env.code[s.ip + 1]];
      Running(s.(ip := s.ip + 1 + n, stack := s.stack + w))
  }

  function Replace(s: State, ip: nat, n: nat, b: bool): Outcome
    requires n <= |s.stack|
  {
    Running(s.(ip := ip, stack := s.stack[..|s.stack| - n] + [BoolToByteCode(b)]))
  }

  function StepBool(s: State, op: nat): Outcome {
    var n := |s.stack|;
    if op == NOT then
      if n < 1 then Failed(StackUnderflow) else Replace(s, s.ip + 1, 1, s.stack[n - 1] == 0)
    else if op == EQ_I then
      if n < 4 then Failed(StackUnderflow)
      else Replace(s, s.ip + 1, 4, s.stack[n - 1] == s.stack[n - 3] && s.stack[n - 2] == s.stack[n - 4])
    else if n < 2 then Failed(StackUnderflow)
    else if op == AND then Replace(s, s.ip + 1, 2, s.stack[n - 1] != 0 && s.stack[n - 2] != 0)
    else Replace(s, s.ip + 1, 2, s.stack[n - 1] == s.stack[n - 2])
  }

  function StepAEq(env: Env, s: State, op: nat): Outcome {
    var n := |s.stack|;
    var k := if op == AEQ_I then 2 else 1;
    if s.ip + k >= |env.code| then Failed(Panic)
    else if n < k then Failed(StackUnderflow)
    else if k == 2 then
      Replace(s, s.ip + 3, 2, s.stack[n - 1] == env.code[s.ip + 1] && s.stack[n - 2] == env.code[s.ip + 2])
    else Replace(s, s.ip + 2, 1, s.stack[n - 1] == env.code[s.ip + 1])
  }

  /** The words and the new heap and strings that loading an attribute value gives. */
  datatype Loaded = Loaded(words: seq<nat>, heap: seq<Value>, tab: seq<string>) | Mismatch | HeapFull

  function Load(op: nat, v: Value, heap: seq<Value>, tab: seq<string>): Loaded {
    if op == RESOLVE_S then
      if v.Str? then Loaded([IndexOf(Intern(tab, v.s), v.s)], heap, Intern(tab, v.s)) else Mismatch
    else if op == RESOLVE_B then
      if v.Boolean? then Loaded([BoolToByteCode(v.b)], heap, tab) else Mismatch
    else if op == RESOLVE_I then
      if v.Int? then Loaded([High(v.i), Low(v.i)], heap, tab)
      else if v.Dur? then Loaded([High(v.d), Low(v.d)], heap, tab)
      else Mismatch
    else if |heap| == HEAP_SIZE - 1 then HeapFull
    else Loaded([|heap|], heap + [v], tab)
  }

  /** Room that a resolve asks for; it is one word more than resolve_f uses. */
  function ResolveRoom(op: nat): nat {
    if op == RESOLVE_I || op == RESOLVE_F then 2 else 1
  }

  function TResolveRoom(op: nat): nat {
    if op == TRESOLVE_I then 3 else 2
  }

  function StepResolve(env: Env, s: State, op: nat): Outcome {
    if |s.stack| > OP_STACK_SIZE - ResolveRoom(op) then Failed(StackOverflow)
    else if s.ip + 1 >= |env.code| then Failed(Panic)
    else match GetString(s.tab, env.code[s.ip + 1])
      case None => Failed(Panic)
      case Some(name) =>
        if name !in env.bag then Failed(LookupFailed(name))
        else match Load(op, env.bag[name], s.heap, s.tab)
          case Mismatch => Failed(BadConversion(name))
          case HeapFull => Failed(HeapOverflow)
          case Loaded(ws, heap, tab) => Running(s.(ip := s.ip + 2, stack := s.stack + ws, heap := heap, tab := tab))
  }

  function StepTResolve(env: Env, s: State, op: nat): Outcome
    requires op >= TRESOLVE_S
  {
    if |s.stack| > OP_STACK_SIZE - TResolveRoom(op) then Failed(StackOverflow)
    else if s.ip + 1 >= |env.code| then Failed(Panic)
    else match GetString(s.tab, env.code[s.ip + 1])
      case None => Failed(Panic)
      case Some(name) =>
        if name !in env.bag then Running(s.(ip := s.ip + 2, stack := s.stack + [0]))
        else match Load(op - 10, env.bag[name], s.heap, s.tab)
          case Mismatch => Failed(BadConversion(name))
          case HeapFull => Failed(HeapOverflow)
          case Loaded(ws, heap, tab) =>
            Running(s.(ip := s.ip + 2, stack := s.stack + ws + [1], heap := heap, tab := tab))
  }

  function StepJump(env: Env, s: State, op: nat): Outcome {
    var n := |s.stack|;
    if op != JMP && n < 1 then Failed(StackUnderflow)
    else if s.ip + 1 >= |env.code| then Failed(Panic)
    else
      var t := env.code[s.ip + 1];
      if op == JMP then Running(s.(ip := t))
      else
        var taken := if op == JZ then s.stack[n - 1] == 0 else s.stack[n - 1] != 0;
        Running(s.(ip := if taken then t else s.ip + 2, stack := s.stack[..n - 1]))
  }

  function StepRet(t: Type, s: State): Outcome {
    var n := |s.stack|;
    if n < 1 then Failed(StackUnderflow)
    else
      var v1 := s.stack[n - 1];
      match t
      case BOOL => Returned(Result(t, v1, 0, "", None))
      case STRING =>
        (match GetString(s.tab, v1) case None => Failed(Panic) case Some(vs) => Returned(Result(t, v1, 0, vs, None)))
      case STRING_MAP =>
        if v1 < |s.heap| then Returned(Result(t, v1, 0, "", Some(s.heap[v1])))
        else if v1 < HEAP_SIZE then Returned(Result(t, v1, 0, "", None))
        else Failed(Panic)
      case _ => if n < 2 then Failed(StackUnderflow) else Returned(Result(t, v1, s.stack[n - 2], "", None))
  }

  /** Looks a key up in the map a heap reference denotes; a missing key reads as None. */
  datatype Found = Found(v: Option<string>) | Crash(f: Failure)

  function LookupIn(s: State, key: nat, ref: nat): Found {
    match GetString(s.tab, key)
    case None => Crash(Panic)
    case Some(k) =>
      if ref >= |s.heap| then Crash(InvalidHeapAccess)
      else if !s.heap[ref].StrMap? then Crash(Panic)
      else if k in s.heap[ref].m then Found(Some(s.heap[ref].m[k]))
      else Found(None)
  }

  function PushString(s: State, ip: nat, stack: seq<nat>, v: string, tail: seq<nat>): Outcome {
    var tab := Intern(s.tab, v);
    Running(s.(ip := ip, stack := stack + [IndexOf(tab, v)] + tail, tab := tab))
  }

  function StepLookup(s: State, op: nat): Outcome {
    var n := |s.stack|;
    if n < 2 then Failed(StackUnderflow)
    else match LookupIn(s, s.stack[n - 1], s.stack[n - 2])
      case Crash(f) => Failed(f)
      case Found(None) =>
        if op == TLOOKUP then Running(s.(ip := s.ip + 1, stack := s.stack[..n - 2] + [0]))
        else PushString(s, s.ip + 1, s.stack[..n - 2], "", [])
      case Found(Some(v)) =>
        PushString(s, s.ip + 1, s.stack[..n - 2], v, if op == TLOOKUP then [1] else [])
  }

  function StepANLookup(env: Env, s: State): Outcome {
    var n := |s.stack|;
    if n < 1 then Failed(StackUnderflow)
    else if s.ip + 1 >= |env.code| then Failed(Panic)
    else match LookupIn(s, env.code[s.ip + 1], s.stack[n - 1])
      case Crash(f) => Failed(f)
      case Found(v) =>
        PushString(s, s.ip + 2, s.stack[..n - 1], if v.Some? then v.value else "", [])
  }

  /** At most `n` steps. */
  function Exec(env: Env, s: State, n: nat): Outcome
    decreases n
  {
    if n == 0 then Running(s)
    else match Step(env, s)
      case Running(s') => Exec(env, s', n - 1)
      case o => o
  }

  lemma {:induction false} ExecAdd(env: Env, s: State, n: nat, m: nat)
    requires Exec(env, s, n).Running?
    ensures Exec(env, s, n + m) == Exec(env, Exec(env, s, n).s, m)
    decreases n
  {
    hide Step;
    if n > 0 { ExecAdd(env, Step(env, s).s, n - 1, m); }
  }

  /** A run that has stopped stays stopped. */
  lemma {:induction false} ExecStops(env: Env, s: State, n: nat, m: nat)
    requires !Exec(env, s, n).Running?
    ensures Exec(env, s, n + m) == Exec(env, s, n)
    decreases n
  {
    hide Step;
    if n > 0 && Step(env, s).Running? { ExecStops(env, Step(env, s).s, n - 1, m); }
  }

  lemma ExecStep(env: Env, s: State)
    ensures Exec(env, s, 1) == Step(env, s)
  {
    hide Step;
    if Step(env, s).Running? { assert Exec(env, Step(env, s).s, 0) == Step(env, s); }
  }

  // One step, by the class of the opcode at the instruction pointer.

  lemma FetchPush(env: Env, s: State, op: nat)
    requires s.ip < |env.code| && env.code[s.ip] == op && op in {APUSH_S, APUSH_B, APUSH_I}
    ensures Exec(env, s, 1) == StepPush(env, s, op)
  {
    hide StepPush, StepBool, StepAEq, StepResolve, StepTResolve, StepJump, StepRet, StepLookup, StepANLookup,
      StepOther;
    ExecStep(env, s);
  }

  lemma FetchBool(env: Env, s: State, op: nat)
    requires s.ip < |env.code| && env.code[s.ip] == op && op in {EQ_S, EQ_B, EQ_I, AND, NOT}
    ensures Exec(env, s, 1) == StepBool(s, op)
  {
    hide StepPush, StepBool, StepAEq, StepResolve, StepTResolve, StepJump, StepRet, StepLookup, StepANLookup,
      StepOther;
    ExecStep(env, s);
  }

  lemma FetchAEq(env: Env, s: State, op: nat)
    requires s.ip < |env.code| && env.code[s.ip] == op && op in {AEQ_S, AEQ_B, AEQ_I}
    ensures Exec(env, s, 1) == StepAEq(env, s, op)
  {
    hide StepPush, StepBool, StepAEq, StepResolve, StepTResolve, StepJump, StepRet, StepLookup, StepANLookup,
      StepOther;
    ExecStep(env, s);
  }

  lemma FetchResolve(env: Env, s: State, op: nat)
    requires s.ip < |env.code| && env.code[s.ip] == op
    requires op in {RESOLVE_S, RESOLVE_B, RESOLVE_I, RESOLVE_F}
    ensures Exec(env, s, 1) == StepResolve(env, s, op)
  {
    hide StepPush, StepBool, StepAEq, StepResolve, StepTResolve, StepJump, StepRet, StepLookup, StepANLookup,
      StepOther;
    ExecStep(env, s);
  }

  lemma FetchTResolve(env: Env, s: State, op: nat)
    requires s.ip < |env.code| && env.code[s.ip] == op
    requires op in {TRESOLVE_S, TRESOLVE_B, TRESOLVE_I, TRESOLVE_F}
    ensures Exec(env, s, 1) == StepTResolve(env, s, op)
  {
    hide StepPush, StepBool, StepAEq, StepResolve, StepTResolve, StepJump, StepRet, StepLookup, StepANLookup,
      StepOther;
    ExecStep(env, s);
  }

  lemma FetchJump(env: Env, s: State, op: nat)
    requires s.ip < |env.code| && env.code[s.ip] == op && op in {JMP, JZ, JNZ}
    ensures Exec(env, s, 1) == StepJump(env, s, op)
  {
    hide StepPush, StepBool, StepAEq, StepResolve, StepTResolve, StepJump, StepRet, StepLookup, StepANLookup,
      StepOther;
    ExecStep(env, s);
  }

  lemma FetchRet(env: Env, s: State)
    requires s.ip < |env.code| && env.code[s.ip] == RET
    ensures Exec(env, s, 1) == StepRet(env.ret, s)
  {
    hide StepPush, StepBool, StepAEq, StepResolve, StepTResolve, StepJump, StepRet, StepLookup, StepANLookup,
      StepOther;
    ExecStep(env, s);
  }

  lemma FetchLookup(env: Env, s: State, op: nat)
    requires s.ip < |env.code| && env.code[s.ip] == op && op in {TLOOKUP, NLOOKUP}
    ensures Exec(env, s, 1) == StepLookup(s, op)
  {
    hide StepPush, StepBool, StepAEq, StepResolve, StepTResolve, StepJump, StepRet, StepLookup, StepANLookup,
      StepOther;
    ExecStep(env, s);
  }

  lemma FetchANLookup(env: Env, s: State)
    requires s.ip < |env.code| && env.code[s.ip] == ANLOOKUP
    ensures Exec(env, s, 1) == StepANLookup(env, s)
  {
    hide StepPush, StepBool, StepAEq, StepResolve, StepTResolve, StepJump, StepRet, StepLookup, StepANLookup,
      StepOther;
    ExecStep(env, s);
  }

  /** The returned value as an interface value; the empty string reads as nil. */
  function AsInterface(r: Result): Option<Value> {
    match r.t
    case BOOL => Some(Boolean(ByteCodeToBool(r.v1)))
    case STRING => if r.vs == "" then None else Some(Str(r.vs))
    case INT64 => Some(Int(ByteCodeToInteger(r.v1, r.v2)))
    case DURATION => Some(Dur(ByteCodeToInteger(r.v1, r.v2)))
    case STRING_MAP => r.vi
  }
}

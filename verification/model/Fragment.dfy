/** The expressions, states and runs that the simulation is about. */
module Fragment {
  import opened Values
  import opened Words
  import opened StringTables
  import opened Opcodes
  import opened Code
  import opened Expressions
  import opened CodeGen
  import opened Machine

  // ----- the fragment -----

  /** Jump-on-value code of these leaves through its label with a value, or falls through without. */
  predicate JumpOK(e: Expr) {
    match e
    case Const(_) => false
    case Var(_) => true
    case Fn(OR, l, r) => JumpOK(l) && JumpOK(r)
    case Fn(INDEX, l, r) => JumpOK(l) && r.Const?
    case Fn(_, _, _) => false
  }

  /** Jump-on-value code of these ends with a value on both ways out. */
  predicate FallOK(e: Expr)
    decreases e, 0
  {
    match e
    case Const(_) => true
    case Var(_) => false
    case Fn(OR, l, r) => JumpOK(l) && FallOK(r)
    case Fn(INDEX, _, _) => false
    case Fn(_, l, r) => ValueOK(l) && ValueOK(r)
  }

  /** Value code of these pushes the value or fails. */
  predicate ValueOK(e: Expr)
    decreases e, 1
  {
    match e
    case Const(_) => true
    case Var(_) => true
    case Fn(OR, l, r) => JumpOK(l) && (if r.Fn? && r.op.OR? then FallOK(r) else ValueOK(r))
    case Fn(_, l, r) => ValueOK(l) && ValueOK(r)
  }

  // ----- room -----

  function Max(a: nat, b: nat): nat {
    if a < b then b else a
  }

  /** The stack words that a value of a type occupies. */
  function Width(t: Type): nat {
    if t.INT64? || t.DURATION? then 2 else 1
  }

  /** Stack words with which the code of an expression cannot overflow the stack. */
  function StackNeed(e: Expr, types: Vocabulary, mode: Mode): nat
    requires EvalType(e, types).Some?
  {
    match e
    case Const(v) => Width(TypeOf(v))
    case Var(name) =>
      if mode.NmNone? then ResolveRoom(ResolveOp(types[name])) else TResolveRoom(TResolveOp(types[name]))
    case Fn(op, l, r) =>
      match op
      case OR => Max(StackNeed(l, types, NmJmpOnValue), StackNeed(r, types, OrRightMode(r, mode)))
      case LOR => Max(StackNeed(l, types, NmNone), StackNeed(r, types, NmNone))
      case INDEX => Max(StackNeed(l, types, mode), 1 + StackNeed(r, types, mode))
      case _ => Max(StackNeed(l, types, NmNone), Width(EvalType(l, types).value) + StackNeed(r, types, NmNone))
  }

  /** Heap slots that the code of an expression uses at most. */
  function HeapNeed(e: Expr, types: Vocabulary): nat
    requires EvalType(e, types).Some?
  {
    match e
    case Const(_) => 0
    case Var(name) => if types[name].STRING_MAP? then 1 else 0
    case Fn(_, l, r) => HeapNeed(l, types) + HeapNeed(r, types)
  }

  ghost predicate Room(e: Expr, types: Vocabulary, mode: Mode, s: State)
    requires EvalType(e, types).Some?
  {
    && |s.stack| + StackNeed(e, types, mode) <= OP_STACK_SIZE
    && |s.heap| + HeapNeed(e, types) <= HEAP_SIZE - 1
  }

  // ----- states, values and code in memory -----

  /** The words `ws` stand for the value `v` of type `t`. */
  ghost predicate EncodesValue(t: Type, v: Value, ws: seq<nat>, heap: seq<Value>, tab: seq<string>) {
    match t
    case STRING => v.Str? && |ws| == 1 && ws[0] < |tab| && tab[ws[0]] == v.s
    case BOOL => v.Boolean? && ws == [BoolToByteCode(v.b)]
    case INT64 => v.Int? && ws == [High(v.i), Low(v.i)]
    case DURATION => v.Dur? && ws == [High(v.d), Low(v.d)]
    case STRING_MAP => |ws| == 1 && ws[0] < |heap| && heap[ws[0]] == v
  }

  ghost predicate Extends(s: State, s': State, heap: nat) {
    && s.heap <= s'.heap && |s'.heap| <= |s.heap| + heap
    && s.tab <= s'.tab && Distinct(s'.tab)
  }

  /** From `s` to `s'` exactly the value `v` was pushed. */
  ghost predicate Pushes(s: State, s': State, ip: nat, t: Type, v: Value, heap: nat) {
    && s'.ip == ip && Extends(s, s', heap)
    && s.stack <= s'.stack && EncodesValue(t, v, s'.stack[|s.stack|..], s'.heap, s'.tab)
  }

  /** The code of `e` can be simulated from `s`. */
  ghost predicate Ready(e: Expr, cx: Context, s: State) {
    && EvalType(e, cx.types).Some? && Supported(e, cx.types)
    && (forall x :: x in StringsOf(e) ==> x in cx.tab)
    && cx.tab <= s.tab && Distinct(s.tab)
  }

  // ----- runs -----

  ghost predicate ValueRun(env: Env, s: State, n: nat, s': State, end: nat, t: Type, ev: Ev, heap: nat) {
    match ev
    case Val(v) => Exec(env, s, n) == Running(s') && Pushes(s, s', end, t, v, heap)
    case Bad(f) => Exec(env, s, n) == Failed(f)
    case Absent => false
  }

  /** The run came to `ip` without pushing anything. */
  ghost predicate Fell(env: Env, s: State, n: nat, s': State, ip: nat, heap: nat) {
    Exec(env, s, n) == Running(s') && s'.ip == ip && s'.stack == s.stack && Extends(s, s', heap)
  }

  /** A value leaves through `target`; without one the run falls through to `end`. */
  ghost predicate JumpRun(env: Env, s: State, n: nat, s': State, target: nat, end: nat, t: Type, ev: Ev, heap: nat) {
    if ev.Absent? then Fell(env, s, n, s', end, heap)
    else ValueRun(env, s, n, s', target, t, ev, heap)
  }

  /** A value is there at `target` or at `end`. */
  ghost predicate FallRun(env: Env, s: State, n: nat, s': State, target: nat, end: nat, t: Type, ev: Ev, heap: nat) {
    ValueRun(env, s, n, s', target, t, ev, heap) || ValueRun(env, s, n, s', end, t, ev, heap)
  }

  // ----- operands ready to be simulated, and what operators do to their values -----

  /** Value code of `e` is about to run. A LOR at depth 0 returns by itself and is not covered. */
  ghost predicate ValueReady(e: Expr, cx: Context, depth: nat, env: Env, s: State) {
    && ValueOK(e) && Ready(e, cx, s) && Room(e, cx.types, NmNone, s)
    && (depth == 0 ==> !(e.Fn? && e.op.LOR?))
    && At(env.code, s.ip, Gen(e, cx, depth, NmNone))
  }

  /** Comparison code of `e` is about to run. */
  ghost predicate EqReady(e: Expr, cx: Context, depth: nat, env: Env, s: State) {
    && e.Fn? && e.op in {EQ, NEQ} && ValueOK(e) && Ready(e, cx, s) && Room(e, cx.types, NmNone, s)
    && At(env.code, s.ip, GenEq(e, cx, depth))
  }

  /** `s1` is `s` after a value of type `t` was pushed by code that ends at `ip`. */
  ghost predicate Afterwards(s: State, s1: State, ip: nat, t: Type, h: nat) {
    s1.ip == ip && Extends(s, s1, h) && |s1.stack| == |s.stack| + Width(t)
  }

  function Compare(a: Ev, b: Ev): Ev {
    if !a.Val? then a else if !b.Val? then b else Val(Boolean(a.v == b.v))
  }

  function Negate(a: Ev): Ev {
    if a.Val? && a.v.Boolean? then Val(Boolean(!a.v.b)) else a
  }

  function Both(a: Ev, b: Ev): Ev {
    if !a.Val? then a else if !b.Val? then b
    else Val(Boolean(a.v == Boolean(true) && b.v == Boolean(true)))
  }

  ghost predicate LorLayout(e: Expr, cx: Context, depth: nat, words: seq<nat>, base: nat)
    requires EvalType(e, cx.types).Some? && e.Fn? && e.op.LOR?
  {
    var p, b := base + Size(Gen(e.l, cx, depth + 1, NmNone)), Gen(e.r, cx, depth + 1, NmNone);
    && At(words, p, One(Jump(JZ, 4))) && At(words, p + 2, I1(APUSH_B, 1))
    && At(words, p + 4, One(Jump(JMP, Size(b)))) && At(words, p + 6, b)
    && base + Size(Gen(e, cx, depth, NmNone)) == p + 6 + Size(b)
  }

  function Either(a: Ev, b: Ev): Ev {
    if !a.Val? || a.v == Boolean(true) then a else b
  }

  function IndexEv(a: Ev, k: Ev): Ev {
    if !a.Val? then a
    else if !k.Val? then k
    else if !a.v.StrMap? || !k.v.Str? then Bad(Panic)
    else Val(Str(Lookup(a.v.m, k.v.s)))
  }

  // ----- jump mode -----

  /** Jump-on-value code of `e`, its label `k` words past its end, is about to run. */
  ghost predicate JumpReady(e: Expr, cx: Context, depth: nat, k: nat, env: Env, s: State) {
    && JumpOK(e) && Ready(e, cx, s) && Room(e, cx.types, NmJmpOnValue, s)
    && At(env.code, s.ip, Close(Gen(e, cx, depth, NmJmpOnValue), k))
  }

  /** What looking a constant key up in a present map gives. */
  function IndexPresent(a: Ev, c: string): Ev {
    if !a.Val? then a
    else if !a.v.StrMap? then Bad(Panic)
    else if c in a.v.m then Val(Str(a.v.m[c]))
    else Absent
  }

  ghost predicate IndexJumpLayout(words: seq<nat>, p: nat, id: nat, k: nat) {
    && At(words, p, One(Jump(JMP, 5))) && At(words, p + 2, I1(APUSH_S, id))
    && At(words, p + 4, I0(TLOOKUP)) && At(words, p + 5, One(Jump(JNZ, k)))
  }

  function First(a: Ev, b: Ev): Ev {
    if a.Absent? then b else a
  }

  /** What the right operand of an OR needs, once the left one was absent. */
  ghost predicate OrRightReady(e: Expr, cx: Context, depth: nat, mode: Mode, k: nat, env: Env, s: State)
    requires e.Fn?
  {
    && Ready(e.r, cx, s) && Room(e.r, cx.types, OrRightMode(e.r, mode), s)
    && At(env.code, s.ip, Close(Gen(e.r, cx, depth + 1, OrRightMode(e.r, mode)), k))
  }

  /** The code of an OR in either mode is about to run. */
  ghost predicate OrReady(e: Expr, cx: Context, depth: nat, mode: Mode, k: nat, env: Env, s: State) {
    && e.Fn? && e.op.OR? && JumpOK(e.l) && Ready(e, cx, s) && Room(e, cx.types, mode, s) && (mode.NmNone? ==> k == 0)
    && At(env.code, s.ip, if mode.NmNone? then Gen(e, cx, depth, mode) else Close(Gen(e, cx, depth, mode), k))
  }

  /** Jump-on-value code of `e` that cannot come out without a value is about to run. */
  ghost predicate FallReady(e: Expr, cx: Context, depth: nat, k: nat, env: Env, s: State) {
    && depth > 0 && FallOK(e) && Ready(e, cx, s) && Room(e, cx.types, NmJmpOnValue, s)
    && At(env.code, s.ip, Close(Gen(e, cx, depth, NmJmpOnValue), k))
  }
}

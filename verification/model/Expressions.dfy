/** Expression trees, type checking and the tree evaluator (pkg/expr/expr.go, pkg/expr/func.go). */
module Expressions {
  import opened Values

  datatype Op = EQ | NEQ | LOR | LAND | INDEX | OR

  datatype Expr =
    | Const(v: Value)
    | Var(name: string)
    | Fn(op: Op, l: Expr, r: Expr)

  /** The type of an expression, or None where the type checker reports an error. */
  function EvalType(e: Expr, types: Vocabulary): Option<Type> {
    match e
    case Const(v) => if v.StrMap? then None else Some(TypeOf(v))
    case Var(name) => if name in types then Some(types[name]) else None
    case Fn(op, l, r) => FnType(op, EvalType(l, types), EvalType(r, types))
  }

  /** EQ, NEQ and OR take two arguments of one type; the other signatures are fixed. */
  function FnType(op: Op, a: Option<Type>, b: Option<Type>): Option<Type> {
    if a.None? || b.None? then None
    else match op
      case EQ => if a == b then Some(BOOL) else None
      case NEQ => if a == b then Some(BOOL) else None
      case OR => if a == b then a else None
      case LOR => if a == b == Some(BOOL) then Some(BOOL) else None
      case LAND => if a == b == Some(BOOL) then Some(BOOL) else None
      case INDEX => if a == Some(STRING_MAP) && b == Some(STRING) then Some(STRING) else None
  }

  // ----- the tree evaluator -----

  /** What Expression.Eval gives back; a value of None is Go's nil. */
  datatype TreeResult = Ok(v: Option<Value>) | Err | Panicked

  function Eval(e: Expr, bag: Bag): TreeResult {
    match e
    case Const(v) => Ok(Some(v))
    case Var(name) => if name in bag then Ok(Some(bag[name])) else Err
    case Fn(op, l, r) =>
      match op
      case EQ => EqCall(Eval(l, bag), Eval(r, bag), false)
      case NEQ => EqCall(Eval(l, bag), Eval(r, bag), true)
      case LOR => LogicalAndOr(true, Eval(l, bag), Eval(r, bag))
      case LAND => LogicalAndOr(false, Eval(l, bag), Eval(r, bag))
      case OR => OrCall(Eval(l, bag), Eval(r, bag))
      case INDEX =>
        // the target is read through its Var field, which is nil for anything but a variable
        if l.Var? then IndexCall(Eval(l, bag), Eval(r, bag)) else Panicked
  }

  function EqCall(a: TreeResult, b: TreeResult, invert: bool): TreeResult {
    if !a.Ok? then a
    else if !b.Ok? then b
    else Ok(Some(Boolean(EqValues(a.v, b.v) != invert)))
  }

  predicate EqValues(a: Option<Value>, b: Option<Value>) {
    match a
    case Some(Str(s0)) => b.Some? && b.value.Str? && MatchWithWildcards(s0, b.value.s)
    case _ => a == b
  }

  predicate HasSuffix(s: string, t: string) {
    |t| <= |s| && s[|s| - |t|..] == t
  }

  predicate HasPrefix(s: string, t: string) {
    t <= s
  }

  predicate MatchWithWildcards(s0: string, s1: string) {
    if HasSuffix(s1, "*") then HasPrefix(s0, s1[..|s1| - 1])
    else if HasPrefix(s1, "*") then HasSuffix(s0, s1[1..])
    else s0 == s1
  }

  function LogicalAndOr(exitVal: bool, a: TreeResult, b: TreeResult): TreeResult {
    if !a.Ok? then a
    else if a.v == Some(Boolean(exitVal)) then Ok(Some(Boolean(exitVal)))
    else if !b.Ok? then b
    else if b.v == Some(Boolean(exitVal)) then Ok(Some(Boolean(exitVal)))
    else Ok(Some(Boolean(!exitVal)))
  }

  /** The first argument that is neither an error nor empty; an error in the last one is reported. */
  function OrCall(a: TreeResult, b: TreeResult): TreeResult {
    if a.Panicked? then a
    else if a.Ok? && !Empty(a.v) then a
    else if !b.Ok? then b
    else if !Empty(b.v) then b
    else Ok(None)
  }

  predicate Empty(v: Option<Value>) {
    v == None || v == Some(Str(""))
  }

  function IndexCall(m: TreeResult, k: TreeResult): TreeResult {
    if !m.Ok? then m
    else if !k.Ok? then k
    else if m.v.Some? && m.v.value.StrMap? && k.v.Some? && k.v.value.Str? then
      Ok(Some(Str(Lookup(m.v.value.m, k.v.value.s))))
    else Panicked
  }

  /** Reading a Go map: the zero value for a missing key. */
  function Lookup(m: map<string, string>, k: string): string {
    if k in m then m[k] else ""
  }

  // ----- the strict reference evaluator -----

  /** Why an evaluation stops without a value. */
  datatype Failure =
    | Halted
    | StackOverflow
    | StackUnderflow
    | HeapOverflow
    | InvalidHeapAccess
    | LookupFailed(name: string)
    | BadConversion(name: string)
    | InvalidOpcode(word: nat)
    | Raised(message: string)
    | MemberMissing(key: string)
    | Panic

  /** A value, the absence of one, or a failure. */
  datatype Ev = Val(v: Value) | Absent | Bad(f: Failure)

  /** An attribute value read at its declared type; integers and durations interchange. */
  function Convert(t: Type, name: string, v: Value): Ev {
    match t
    case STRING => if v.Str? then Val(v) else Bad(BadConversion(name))
    case BOOL => if v.Boolean? then Val(v) else Bad(BadConversion(name))
    case INT64 =>
      if v.Int? then Val(v) else if v.Dur? then Val(Int(v.d)) else Bad(BadConversion(name))
    case DURATION =>
      if v.Dur? then Val(v) else if v.Int? then Val(Dur(v.i)) else Bad(BadConversion(name))
    case STRING_MAP => Val(v)
  }

  /** The value of an expression whose absence matters: absent when an attribute it needs is. */
  function Present(e: Expr, types: Vocabulary, bag: Bag): Ev
    requires EvalType(e, types).Some?
    decreases e, 2
  {
    match e
    case Const(v) => Val(v)
    case Var(name) => if name in bag then Convert(types[name], name, bag[name]) else Absent
    case Fn(OR, l, r) =>
      var a := Present(l, types, bag);
      if a.Absent? then Present(r, types, bag) else a
    case Fn(INDEX, l, r) =>
      var a := Present(l, types, bag);
      if !a.Val? then a
      else
        var k := Present(r, types, bag);
        if !k.Val? then k
        else if !a.v.StrMap? || !k.v.Str? then Bad(Panic)
        else if k.v.s in a.v.m then Val(Str(a.v.m[k.v.s]))
        else Absent
    case Fn(_, _, _) => BooleanFn(e, types, bag)
  }

  /**
   The value of an expression that must have one. Both arguments of LAND are evaluated, OR takes
   its first present argument, and string equality is exact.
   */
  function Strict(e: Expr, types: Vocabulary, bag: Bag): (r: Ev)
    requires EvalType(e, types).Some?
    ensures !r.Absent?
    decreases e, 2
  {
    match e
    case Const(v) => Val(v)
    case Var(name) => if name in bag then Convert(types[name], name, bag[name]) else Bad(LookupFailed(name))
    case Fn(OR, l, r) =>
      var a := Present(l, types, bag);
      if a.Absent? then Strict(r, types, bag) else a
    case Fn(INDEX, l, r) =>
      var a := Strict(l, types, bag);
      if !a.Val? then a
      else
        var k := Strict(r, types, bag);
        if !k.Val? then k
        else if !a.v.StrMap? || !k.v.Str? then Bad(Panic)
        else Val(Str(Lookup(a.v.m, k.v.s)))
    case Fn(_, _, _) => BooleanFn(e, types, bag)
  }

  /** EQ, NEQ, LOR and LAND. */
  function BooleanFn(e: Expr, types: Vocabulary, bag: Bag): (r: Ev)
    requires EvalType(e, types).Some?
    requires e.Fn? && e.op !in {OR, INDEX}
    ensures r.Bad? || (r.Val? && r.v.Boolean?)
    decreases e, 1
  {
    var a := Strict(e.l, types, bag);
    if !a.Val? then a
    else if e.op == LOR && a.v == Boolean(true) then a
    else
      var b := Strict(e.r, types, bag);
      if !b.Val? then b
      else match e.op
        case EQ => Val(Boolean(a.v == b.v))
        case NEQ => Val(Boolean(a.v != b.v))
        case LOR => Val(Boolean(b.v == Boolean(true)))
        case LAND => Val(Boolean(a.v == Boolean(true) && b.v == Boolean(true)))
  }

  /** A value the strict evaluator gives is a value of the expression's type. */
  lemma {:induction false} EvaluatedType(e: Expr, types: Vocabulary, bag: Bag)
    requires EvalType(e, types).Some?
    ensures var t := EvalType(e, types).value; t != STRING_MAP ==>
      && (Strict(e, types, bag).Val? ==> TypeOf(Strict(e, types, bag).v) == t)
      && (Present(e, types, bag).Val? ==> TypeOf(Present(e, types, bag).v) == t)
  {
    if e.Fn? {
      EvaluatedType(e.l, types, bag);
      EvaluatedType(e.r, types, bag);
    }
  }
}

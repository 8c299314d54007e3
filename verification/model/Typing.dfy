/** Type checking of calls against the signatures of functions (pkg/expr/expr.go, pkg/expr/func.go). */
module Typing {
  import opened Values
  import opened Expressions

  /** The type of an argument or a result; `Any` is an unspecified one. */
  datatype Param = Any | Of(t: Type)

  datatype Signature = Signature(args: seq<Param>, ret: Param)

  function SignatureOf(op: Op): Signature {
    match op
    case EQ => Signature([Any, Any], Of(BOOL))
    case NEQ => Signature([Any, Any], Of(BOOL))
    case LOR => Signature([Of(BOOL), Of(BOOL)], Of(BOOL))
    case LAND => Signature([Of(BOOL), Of(BOOL)], Of(BOOL))
    case OR => Signature([Any, Any], Any)
    case INDEX => Signature([Of(STRING_MAP), Of(STRING)], Of(STRING))
  }

  // ----- the loop over the arguments -----

  /** Argument `i` has the type that is asked for. */
  predicate ArgFits(sig: Signature, args: seq<Option<Type>>, i: nat)
    requires i < |sig.args| && i < |args|
  {
    args[i].Some? && (sig.args[i].Of? ==> args[i].value == sig.args[i].t)
  }

  /** The first `n` arguments fit, and those of unspecified type have one type. */
  ghost predicate ArgsFit(sig: Signature, args: seq<Option<Type>>, n: nat)
    requires n <= |sig.args| && n <= |args|
  {
    && (forall i :: 0 <= i < n ==> ArgFits(sig, args, i))
    && (forall i, j :: 0 <= i < j < n && sig.args[i].Any? && sig.args[j].Any? ==> args[i] == args[j])
  }

  /**
   Checks a call: enough arguments, each of its type, those of unspecified type all of the first one's.
   An unspecified result has that type too.
   */
  method CheckCall(sig: Signature, args: seq<Option<Type>>) returns (r: Option<Param>)
    ensures r.Some? <==> |sig.args| <= |args| && ArgsFit(sig, args, |sig.args|)
    ensures r.Some? && sig.ret.Of? ==> r.value == sig.ret
    ensures r.Some? && sig.ret.Any? ==>
      forall i :: 0 <= i < |sig.args| && sig.args[i].Any? ==> r.value.Of? && args[i] == Some(r.value.t)
  {
    if |args| < |sig.args| { return None; }
    var template := Any;
    var i := 0;
    while i < |args| && i < |sig.args|
      invariant 0 <= i <= |sig.args| && ArgsFit(sig, args, i)
      invariant template.Any? ==> forall k :: 0 <= k < i ==> sig.args[k].Of?
      invariant template.Of? ==> forall k :: 0 <= k < i && sig.args[k].Any? ==> args[k] == Some(template.t)
      invariant template.Of? ==> exists k :: 0 <= k < i && sig.args[k].Any?
    {
      if args[i].None? {
        assert !ArgFits(sig, args, i);
        return None;
      }
      var expected := sig.args[i];
      if expected.Any? && template.Any? {
        template := Of(args[i].value);
      } else {
        if expected.Any? { expected := template; }
        if args[i].value != expected.t {
          if sig.args[i].Of? { assert !ArgFits(sig, args, i); }
          return None;
        }
      }
      i := i + 1;
    }
    r := Some(if sig.ret.Any? then template else sig.ret);
  }

  /** The type checker: its loop over the signature's arguments gives what `EvalType` says. */
  method CheckType(e: Expr, types: Vocabulary) returns (r: Option<Type>)
    ensures r == EvalType(e, types)
  {
    match e {
      case Const(v) => { r := if v.StrMap? then None else Some(TypeOf(v)); }
      case Var(name) => { r := if name in types then Some(types[name]) else None; }
      case Fn(op, left, right) => {
        var a := CheckType(left, types);
        var b := CheckType(right, types);
        var sig := SignatureOf(op);
        var p := CheckCall(sig, [a, b]);
        TwoArguments(sig, a, b);
        r := if p == None || p == Some(Any) then None else Some(p.value.t);
      }
    }
  }

  lemma TwoArguments(sig: Signature, a: Option<Type>, b: Option<Type>)
    requires |sig.args| == 2
    ensures ArgsFit(sig, [a, b], 2) <==>
      && a.Some? && (sig.args[0].Of? ==> a.value == sig.args[0].t)
      && b.Some? && (sig.args[1].Of? ==> b.value == sig.args[1].t)
      && (sig.args[0].Any? && sig.args[1].Any? ==> a == b)
  {
    var args := [a, b];
    assert ArgFits(sig, args, 0) <==> a.Some? && (sig.args[0].Of? ==> a.value == sig.args[0].t);
    assert ArgFits(sig, args, 1) <==> b.Some? && (sig.args[1].Of? ==> b.value == sig.args[1].t);
  }

  // ----- the rules -----

  /** An expression has a type. */
  ghost predicate HasType(e: Expr, types: Vocabulary, t: Type) {
    match e
    case Const(v) => t == TypeOf(v) && t != STRING_MAP
    case Var(name) => name in types && types[name] == t
    case Fn(EQ, left, right) => t == BOOL && exists u :: HasType(left, types, u) && HasType(right, types, u)
    case Fn(NEQ, left, right) => t == BOOL && exists u :: HasType(left, types, u) && HasType(right, types, u)
    case Fn(LOR, left, right) => t == BOOL && HasType(left, types, BOOL) && HasType(right, types, BOOL)
    case Fn(LAND, left, right) => t == BOOL && HasType(left, types, BOOL) && HasType(right, types, BOOL)
    case Fn(OR, left, right) => HasType(left, types, t) && HasType(right, types, t)
    case Fn(INDEX, left, right) => t == STRING && HasType(left, types, STRING_MAP) && HasType(right, types, STRING)
  }

  /** The checker accepts an expression with a type exactly if the rules give it that type. */
  lemma {:induction false} TypingExact(e: Expr, types: Vocabulary, t: Type)
    ensures EvalType(e, types) == Some(t) <==> HasType(e, types, t)
    decreases e
  {
    if e.Fn? {
      forall u ensures EvalType(e.l, types) == Some(u) <==> HasType(e.l, types, u) { TypingExact(e.l, types, u); }
      forall u ensures EvalType(e.r, types) == Some(u) <==> HasType(e.r, types, u) { TypingExact(e.r, types, u); }
      if EvalType(e.l, types).Some? {
        assert HasType(e.l, types, EvalType(e.l, types).value);
      }
    }
  }

  /** Any two operands of one type can be compared, in either way, and only such. */
  lemma ComparisonsTyped(l: Expr, r: Expr, types: Vocabulary)
    ensures EvalType(Fn(EQ, l, r), types) == EvalType(Fn(NEQ, l, r), types)
    ensures EvalType(Fn(NEQ, l, r), types) == Some(BOOL) <==>
      EvalType(l, types).Some? && EvalType(l, types) == EvalType(r, types)
  {
    var e, n := Fn(EQ, l, r), Fn(NEQ, l, r);
    assert e.l == l && e.r == r && n.l == l && n.r == r;
  }
}

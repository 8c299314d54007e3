/** The tree evaluator as it walks an expression, with its loops over arguments (pkg/expr/expr.go, pkg/expr/func.go). */
module TreeWalks {
  import opened Values
  import opened Expressions

  /** Evaluates an expression against a bag. */
  method Walk(e: Expr, bag: Bag) returns (t: TreeResult)
    ensures t == Eval(e, bag)
    decreases e, 1
  {
    match e {
      case Const(v) => { t := Ok(Some(v)); }
      case Var(name) => { t := if name in bag then Ok(Some(bag[name])) else Err; }
      case Fn(op, left, right) => {
        match op {
          case EQ => { t := CallEq(e, bag); }
          case NEQ => { t := CallEq(e, bag); }
          case LOR => { t := CallLogical(e, true, bag); }
          case LAND => { t := CallLogical(e, false, bag); }
          case OR => { t := CallOr(e, bag); }
          case INDEX => { t := CallIndex(e, bag); }
        }
      }
    }
  }

  method CallEq(e: Expr, bag: Bag) returns (t: TreeResult)
    requires e.Fn? && (e.op.EQ? || e.op.NEQ?)
    ensures t == Eval(e, bag)
    decreases e, 0
  {
    var a := Walk(e.l, bag);
    if !a.Ok? { return a; }
    var b := Walk(e.r, bag);
    if !b.Ok? { return b; }
    var same := a.v == b.v;
    if a.v.Some? && a.v.value.Str? {
      same := b.v.Some? && b.v.value.Str? && MatchWithWildcards(a.v.value.s, b.v.value.s);
    }
    t := Ok(Some(Boolean(if e.op.NEQ? then !same else same)));
  }

  /** The arguments in order, up to the first that fails or has the value that decides. */
  method CallLogical(e: Expr, exitVal: bool, bag: Bag) returns (t: TreeResult)
    requires e.Fn? && e.op == if exitVal then LOR else LAND
    ensures t == Eval(e, bag)
    decreases e, 0
  {
    var args := [e.l, e.r];
    for i := 0 to |args|
      invariant forall k :: 0 <= k < i ==> Eval(args[k], bag).Ok? && Eval(args[k], bag).v != Some(Boolean(exitVal))
    {
      var ret := Walk(args[i], bag);
      assert args[i] == (if i == 0 then e.l else e.r) && (i == 1 ==> Eval(args[0], bag).Ok?);
      if !ret.Ok? { return ret; }
      if ret.v == Some(Boolean(exitVal)) { return Ok(Some(Boolean(exitVal))); }
    }
    assert args[0] == e.l && args[1] == e.r;
    t := Ok(Some(Boolean(!exitVal)));
  }

  /** The first argument that is there and not empty; only an error in the last one is reported. */
  method CallOr(e: Expr, bag: Bag) returns (t: TreeResult)
    requires e.Fn? && e.op.OR?
    ensures t == Eval(e, bag)
    decreases e, 0
  {
    var args := [e.l, e.r];
    for i := 0 to |args|
      invariant forall k :: 0 <= k < i ==>
        var r := Eval(args[k], bag); !r.Panicked? && (r.Ok? ==> Empty(r.v)) && (r.Err? ==> k < |args| - 1)
    {
      var ret := Walk(args[i], bag);
      assert args[i] == (if i == 0 then e.l else e.r) && (i == 1 ==> !Eval(args[0], bag).Panicked?);
      match ret {
        case Panicked => { return ret; }
        case Err => { if i == |args| - 1 { return Err; } }
        case Ok(v) => { if v != None && v != Some(Str("")) { return ret; } }
      }
    }
    assert args[0] == e.l && args[1] == e.r;
    t := Ok(None);
  }

  method CallIndex(e: Expr, bag: Bag) returns (t: TreeResult)
    requires e.Fn? && e.op.INDEX?
    ensures t == Eval(e, bag)
    decreases e, 0
  {
    if !e.l.Var? { return Panicked; }
    if e.l.name !in bag { return Err; }
    var mp := bag[e.l.name];
    var key := Walk(e.r, bag);
    if !key.Ok? { return key; }
    if !mp.StrMap? || key.v.None? || !key.v.value.Str? { return Panicked; }
    var k := key.v.value.s;
    t := Ok(Some(Str(if k in mp.m then mp.m[k] else "")));
  }
}

/** Which expressions and bags the results on compiled programs cover, said in terms of the source. */
module Coverage {
  import opened Values
  import opened Expressions
  import opened CodeGen
  import opened Machine
  import opened Fragment
  import opened Agreement
  import opened Evaluations

  /** A variable, a variable indexed by a constant, or several of these joined by OR. */
  predicate Alternative(e: Expr) {
    || e.Var?
    || (e.Fn? && e.op.INDEX? && e.l.Var? && e.r.Const?)
    || (e.Fn? && e.op.OR? && Alternative(e.l) && Alternative(e.r))
  }

  /** ORs associate to the left, as they do in source text without parentheses. */
  predicate Unparenthesised(e: Expr) {
    e.Fn? ==>
      && Unparenthesised(e.r)
      && if e.op.OR? then Alternative(e.l) && !(e.r.Fn? && e.r.op.OR?) else Unparenthesised(e.l)
  }

  lemma {:induction false} AlternativeJumps(e: Expr)
    requires Alternative(e)
    ensures JumpOK(e)
    decreases e
  {
    if e.Fn? && e.op.OR? {
      AlternativeJumps(e.l);
      AlternativeJumps(e.r);
    }
  }

  /** All such expressions are in the fragment. */
  lemma {:induction false} SourceInFragment(e: Expr)
    requires Unparenthesised(e)
    ensures ValueOK(e)
    decreases e
  {
    if e.Fn? {
      SourceInFragment(e.r);
      if e.op.OR? { AlternativeJumps(e.l); } else { SourceInFragment(e.l); }
    }
  }

  /** The strings that neither evaluator treats specially: not empty, and without a star at either end. */
  lemma PlainExactly(s: string)
    ensures PlainString(s) <==> s != "" && s[0] != '*' && s[|s| - 1] != '*'
  {
    if s != "" { assert s[|s| - 1..] == [s[|s| - 1]]; }
  }

  /** Maps are read from variables, string constants are plain, and no OR ends in a lookup. */
  predicate Simple(e: Expr) {
    match e
    case Const(v) => v.Str? ==> v.s != "" && v.s[0] != '*' && v.s[|v.s| - 1] != '*'
    case Var(_) => true
    case Fn(op, left, right) =>
      && Simple(left) && Simple(right) && (op.INDEX? ==> left.Var?)
      && (op.OR? ==> !(right.Fn? && right.op.INDEX?))
  }

  lemma {:induction false} SimpleEnds(e: Expr)
    requires Simple(e)
    ensures !EndsInIndex(e)
    decreases e
  {
    if e.Fn? { SimpleEnds(e.r); }
  }

  lemma {:induction false} SimpleIsMeant(e: Expr)
    requires Simple(e)
    ensures Meant(e)
    decreases e
  {
    hide PlainString;
    match e {
      case Const(v) => { if v.Str? { PlainExactly(v.s); } }
      case Var(_) => { }
      case Fn(_, left, right) => {
        SimpleIsMeant(left);
        SimpleIsMeant(right);
        SimpleEnds(left);
        SimpleEnds(right);
      }
    }
  }

  function Nodes(e: Expr): nat {
    if e.Fn? then 1 + Nodes(e.l) + Nodes(e.r) else 1
  }

  lemma {:induction false} HeapOfNodes(e: Expr, types: Vocabulary)
    requires EvalType(e, types).Some?
    ensures HeapNeed(e, types) <= Nodes(e)
    decreases e
  {
    if e.Fn? {
      HeapOfNodes(e.l, types);
      HeapOfNodes(e.r, types);
    }
  }

  lemma {:induction false} StackOfNodes(e: Expr, types: Vocabulary, mode: Mode)
    requires EvalType(e, types).Some?
    ensures StackNeed(e, types, mode) <= 3 * Nodes(e)
    decreases e
  {
    hide StackNeed;
    if e.Fn? {
      OperandsTyped(e, types);
      StackOfNodes(e.l, types, NmNone);
      StackOfNodes(e.l, types, NmJmpOnValue);
      StackOfNodes(e.r, types, NmNone);
      StackOfNodes(e.r, types, NmJmpOnValue);
      NodesPositive(e.l);
      StackOfFn(e, types, mode, 3 * Nodes(e.l), 3 * Nodes(e.r));
    } else {
      StackOfLeaf(e, types, mode);
    }
  }

  lemma OperandsTyped(e: Expr, types: Vocabulary)
    requires EvalType(e, types).Some? && e.Fn?
    ensures EvalType(e.l, types).Some? && EvalType(e.r, types).Some?
  {
  }

  lemma StackOfLeaf(e: Expr, types: Vocabulary, mode: Mode)
    requires EvalType(e, types).Some? && !e.Fn?
    ensures StackNeed(e, types, mode) <= 3
  {
  }

  ghost predicate NeedsAtMost(e: Expr, types: Vocabulary, n: nat)
    requires EvalType(e, types).Some?
  {
    StackNeed(e, types, NmNone) <= n && StackNeed(e, types, NmJmpOnValue) <= n
  }

  lemma StackOfFn(e: Expr, types: Vocabulary, mode: Mode, m: nat, n: nat)
    requires EvalType(e, types).Some? && e.Fn? && EvalType(e.l, types).Some? && EvalType(e.r, types).Some?
    requires NeedsAtMost(e.l, types, m) && NeedsAtMost(e.r, types, n)
    ensures StackNeed(e, types, mode) <= 2 + m + n
  {
    hide EvalType, StackNeed;
    StackNeedIs(e, types, mode);
  }

  /** The words of an operator, from those of its operands. */
  lemma StackNeedIs(e: Expr, types: Vocabulary, mode: Mode)
    requires EvalType(e, types).Some? && e.Fn? && EvalType(e.l, types).Some? && EvalType(e.r, types).Some?
    ensures StackNeed(e, types, mode) ==
      match e.op
      case OR => Max(StackNeed(e.l, types, NmJmpOnValue), StackNeed(e.r, types, OrRightMode(e.r, mode)))
      case LOR => Max(StackNeed(e.l, types, NmNone), StackNeed(e.r, types, NmNone))
      case INDEX => Max(StackNeed(e.l, types, mode), 1 + StackNeed(e.r, types, mode))
      case _ => Max(StackNeed(e.l, types, NmNone), Width(EvalType(e.l, types).value) + StackNeed(e.r, types, NmNone))
  {
    hide EvalType, Max, Width, OrRightMode;
  }

  lemma NodesPositive(e: Expr)
    ensures Nodes(e) >= 1
  {
  }

  /**
   So the answers of the compiled program are those of the tree evaluator for every simple expression
   of the source language with at most 21 nodes, up to passing over a failing operand of a LAND.
   */
  lemma SourceIsEvaluable(e: Expr, types: Vocabulary)
    requires EvalType(e, types).Some? && Unparenthesised(e) && Simple(e) && Nodes(e) <= 21
    ensures Evaluable(e, types)
  {
    SourceInFragment(e);
    SimpleIsMeant(e);
    HeapOfNodes(e, types);
    StackOfNodes(e, types, NmNone);
  }
}

/** Compiling once and evaluating many bags, from the expression to the answers of the tree evaluator. */
module Evaluations {
  import opened Values
  import opened StringTables
  import opened Expressions
  import opened CodeGen
  import opened Machine
  import opened Fragment
  import opened Programs
  import opened Compilation
  import opened Agreement
  import opened Interpreters
  import opened Correctness

  /** The expressions on which the two evaluators are meant to coincide, with room to run. */
  ghost predicate Evaluable(e: Expr, types: Vocabulary)
    requires EvalType(e, types).Some?
  {
    && ValueOK(e) && Meant(e)
    && StackNeed(e, types, NmNone) <= OP_STACK_SIZE && HeapNeed(e, types) <= HEAP_SIZE - 1
  }

  /**
   An answer to a bag, failures included: the tree's own, exactly if the tree does not pass over a failing operand
   of a LAND.
   */
  ghost predicate Answers(e: Expr, types: Vocabulary, bag: Bag, status: Status)
    requires EvalType(e, types).Some?
  {
    && !status.GoOn?
    && (Evaluable(e, types) && PlainBag(types, bag) ==>
          (SameOutcome(e, Final(status), Eval(e, bag)) <==> !(Eval(e, bag).Ok? && Skips(e, bag))))
  }

  /** The program is the compiled expression, and its string table has only grown since. */
  ghost predicate Holds(e: Expr, types: Vocabulary, tab: seq<string>, program: Program, code: seq<nat>)
    reads program, program.strings
  {
    var id := IndexOf(tab, "eval");
    && program.strings.Valid() && tab <= program.strings.Contents() && EvalType(e, types).Some?
    && "eval" in tab && id != 0 && id in program.functions && Compiled(e, types, code, tab, program.functions[id])
  }

  /** One evaluation, after any others. */
  method EvaluateOne(interpreter: Interpreter, bag: Bag, ghost e: Expr, ghost types: Vocabulary, ghost tab: seq<string>)
    returns (status: Status)
    requires Holds(e, types, tab, interpreter.program, interpreter.code)
    modifies interpreter.program.strings
    ensures Holds(e, types, tab, interpreter.program, interpreter.code) && Answers(e, types, bag, status)
  {
    hide Compiled, Answers, EvalType, IndexOf, Evaluate, Distinct;
    ghost var now := interpreter.program.strings.Contents();
    IdStable(tab, now, "eval");
    InLonger(tab, now, "eval");
    var o := interpreter.Eval("eval", bag, e, types, tab);
    status := o.value;
    AnswersIt(e, types, interpreter.code, tab, interpreter.program.functions[IndexOf(tab, "eval")], bag, now, status);
  }

  /** Compiles an expression once and evaluates it against any number of bags, one after the other. */
  method EvaluateAll(e: Expr, types: Vocabulary, bags: seq<Bag>) returns (r: Option<seq<Status>>)
    ensures r.Some? <==> EvalType(e, types).Some? && Supported(e, types)
    ensures r.Some? ==> |r.value| == |bags| && forall i :: 0 <= i < |bags| ==> Answers(e, types, bags[i], r.value[i])
  {
    hide Compiled, Answers, EvalType, Supported, IndexOf, Evaluate, Distinct;
    var p := Compile(e, types);
    if p.None? { return None; }
    var program := p.value;
    ghost var tab := program.strings.Contents();
    EvalIsNotNull(e, types, program.code, tab, program.functions[IndexOf(tab, "eval")]);
    var interpreter := new Interpreter(program);
    var answers := [];
    for i := 0 to |bags|
      invariant Holds(e, types, tab, program, interpreter.code)
      invariant |answers| == i && forall j :: 0 <= j < i ==> Answers(e, types, bags[j], answers[j])
    {
      var status := EvaluateOne(interpreter, bags[i], e, types, tab);
      answers := answers + [status];
    }
    r := Some(answers);
  }

  lemma InLonger(tab: seq<string>, now: seq<string>, s: string)
    requires tab <= now && s in tab
    ensures s in now
  {
    var i :| 0 <= i < |tab| && tab[i] == s;
    assert now[i] == s;
  }

  lemma EvalIsNotNull(e: Expr, types: Vocabulary, code: seq<nat>, tab: seq<string>, f: Function)
    requires Compiled(e, types, code, tab, f)
    ensures EvalType(e, types).Some? && Supported(e, types) && IndexOf(tab, "eval") != 0
  {
    hide EvalType, Supported;
    assert tab[0] == NULL_STRING;
    assert "eval" in tab;
    assert |"eval"| == 4 && "eval"[0] == 'e';
  }

  lemma AnswersIt(e: Expr, types: Vocabulary, code: seq<nat>, tab: seq<string>, f: Function, bag: Bag,
          now: seq<string>, status: Status)
    requires Compiled(e, types, code, tab, f) && EvalType(e, types).Some? && tab <= now && Distinct(now)
    requires !status.GoOn? && Final(status) == Evaluate(Env(code, bag, f.ret), f.address, now)
    ensures Answers(e, types, bag, status)
  {
    hide Compiled, Evaluate, SameOutcome, Skips, PlainBag, Distinct;
    if Evaluable(e, types) && PlainBag(types, bag) {
      ProgramAgreesWithTree(e, types, code, tab, f, bag, now);
    }
  }
}

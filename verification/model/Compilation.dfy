/** Compiling an expression into a program, and what the program then computes. */
module Compilation {
  import opened Values
  import opened StringTables
  import opened Opcodes
  import opened Code
  import opened Expressions
  import opened Typing
  import opened CodeGen
  import opened Machine
  import opened Fragment
  import opened Termination
  import opened Correctness
  import opened Builders
  import opened Patching
  import opened Placing
  import opened Compilers
  import opened Programs

  /** The function `f` of a program with this code and these strings is the compiled `e`. */
  ghost predicate Compiled(e: Expr, types: Vocabulary, code: seq<nat>, tab: seq<string>, f: Function) {
    && EvalType(e, types).Some? && Supported(e, types)
    && f.params == [] && f.ret == EvalType(e, types).value
    && tab == Intern(InternAll([NULL_STRING], StringsOf(e)), "eval")
    && f.length == Size(Body(e, Context(types, tab))) && At(code, f.address, Body(e, Context(types, tab)))
  }

  /** The generated code and the final RET are the body. */
  lemma BodyBuilt(b: View, b1: View, e: Expr, types: Vocabulary, tab: seq<string>)
    requires EvalType(e, types).Some? && Supported(e, types) && b.body == []
    requires Generated(b, b1, e, types, 0, NmNone, "") && b1.tab <= tab
    ensures var body, c := b1.body + [RET], Body(e, Context(types, tab));
      && At(body, 0, c) && |body| == Size(c) && AllEmitted(c) && Closed(c) && Whole(body, 0)
  {
    hide At, Gen, EvalType, AllEmitted, Same, Whole, Size, Closed, Waits;
    var cx, b2 := Context(types, tab), b1.(body := b1.body + [RET]);
    GenStable(e, types, b1.tab, tab, 0, NmNone);
    GrewItem(b1, [RET], Op0(RET), "");
    PlacedCat(b, b1, b2, Gen(e, cx, 0, NmNone), I0(RET));
    BodyForward(e, cx, 0);
    RetPart(Gen(e, cx, 0, NmNone));
    WholeEnd(b2.body);
    EmittedWhole(b2.body, 0, Body(e, cx));
  }

  lemma RetPart(g: Code)
    requires AllEmitted(g) && Closed(g)
    ensures AllEmitted(Cat(g, I0(RET))) && Closed(Cat(g, I0(RET)))
  {
    RetEmitted();
  }

  lemma WholeEnd(body: seq<nat>)
    ensures Whole(body, |body|)
  {
  }

  lemma BodyAdded(code: seq<nat>, start: nat, body: seq<nat>, c: Code)
    requires PlacedAt(code, start, body) && At(body, 0, c) && AllEmitted(c) && Closed(c)
    ensures At(code, start, c)
  {
    EmittedRelocates(code, start, body, 0, c);
  }

  /** Compiles every well-typed expression whose comparisons it supports, and no other. */
  method Compile(e: Expr, types: Vocabulary) returns (r: Option<Program>)
    ensures r.Some? <==> EvalType(e, types).Some? && Supported(e, types)
    ensures (exists t :: HasType(e, types, t)) <==> EvalType(e, types).Some?
    ensures r.Some? ==> fresh(r.value) && fresh(r.value.strings) && r.value.strings.Valid()
    ensures r.Some? ==>
      var tab := r.value.strings.Contents();
      var id := IndexOf(tab, "eval");
      r.value.functions.Keys == {id} && "eval" in tab && Compiled(e, types, r.value.code, tab, r.value.functions[id])
  {
    hide Generated, EvalType, HasType, WellFormed, Supported, Body, InternAll, Intern, StringsOf, IndexOf, At,
      AllEmitted, Whole, PlacedAt, Relocate, Compiled, Closed, Size;
    var p := new Program();
    var t := CheckType(e, types);
    TypedExactly(e, types);
    if t.None? {
      return None;
    }
    var b := new Builder(p.strings);
    var g := new Generator(b, types);
    ghost var b0 := b.Now();
    g.Generate(e, 0, NmNone, "");
    if g.failed {
      return None;
    }
    ghost var b1 := b.Now();
    b.Op0(RET);
    BodyBuilt(b0, b1, e, types, Intern(b1.tab, "eval"));
    var ok := p.AddFunction("eval", [], t.value, b.body);
    ProgramBuilt(b0, b1, e, types, p.code, p.strings.Contents(), p.functions[IndexOf(p.strings.Contents(), "eval")]);
    return Some(p);
  }

  lemma TypedExactly(e: Expr, types: Vocabulary)
    ensures (exists t :: HasType(e, types, t)) <==> EvalType(e, types).Some?
  {
    hide HasType, EvalType;
    forall t ensures EvalType(e, types) == Some(t) <==> HasType(e, types, t) { TypingExact(e, types, t); }
    if EvalType(e, types).Some? { assert HasType(e, types, EvalType(e, types).value); }
  }

  lemma ProgramBuilt(b: View, b1: View, e: Expr, types: Vocabulary, code: seq<nat>, tab: seq<string>, f: Function)
    requires EvalType(e, types).Some? && Supported(e, types) && b.body == [] && b.tab == [NULL_STRING]
    requires Generated(b, b1, e, types, 0, NmNone, "") && tab == Intern(b1.tab, "eval")
    requires PlacedAt(code, f.address, b1.body + [RET])
    requires f.params == [] && f.ret == EvalType(e, types).value && f.length == |b1.body| + 1
    ensures Compiled(e, types, code, tab, f)
  {
    hide At, Gen, Grew, AllEmitted, Size, Whole, Closed, PlacedAt, Supported, Body, EvalType;
    BodyBuilt(b, b1, e, types, tab);
    BodyAdded(code, f.address, b1.body + [RET], Body(e, Context(types, tab)));
  }

  lemma CompiledTable(e: Expr, types: Vocabulary, code: seq<nat>, tab: seq<string>, f: Function)
    requires Compiled(e, types, code, tab, f)
    ensures Distinct(tab) && forall x :: x in StringsOf(e) ==> x in tab
  {
  }

  /**
   What a compiled program computes: for every expression of the fragment and every bag, evaluating
   the function, in a string table that may have grown since, gives the value of the strict
   evaluator, or fails exactly as it does.
   */
  lemma CompiledProgramCorrect(e: Expr, types: Vocabulary, code: seq<nat>, tab: seq<string>, f: Function, bag: Bag,
          now: seq<string>)
    requires Compiled(e, types, code, tab, f) && ValueOK(e)
    requires StackNeed(e, types, NmNone) <= OP_STACK_SIZE && HeapNeed(e, types) <= HEAP_SIZE - 1
    requires tab <= now && Distinct(now)
    ensures Agrees(Evaluate(Env(code, bag, f.ret), f.address, now), f.ret, Strict(e, types, bag))
  {
    hide At, Strict, StackNeed, HeapNeed, Agrees, Body, ValueOK, Evaluate;
    CompiledTable(e, types, code, tab, f);
    CompiledCodeCorrect(e, Context(types, tab), f.address, Env(code, bag, f.ret), now);
  }

  /** Any run of a compiled program ends within its length, whatever the bag and the expression. */
  lemma CompiledProgramTerminates(e: Expr, types: Vocabulary, code: seq<nat>, tab: seq<string>, f: Function,
          bag: Bag, now: seq<string>)
    requires Compiled(e, types, code, tab, f)
    ensures var o := Exec(Env(code, bag, f.ret), State(f.address, [], [], now), f.length);
      !o.Running? && (o.Failed? ==> o.f != Halted && !o.f.InvalidOpcode?)
  {
    hide At, Gen, Exec, Step, Starts, Size;
    BodyForward(e, Context(types, tab), f.address);
    CompiledCodeTerminates(e, Context(types, tab), f.address, Env(code, bag, f.ret), State(f.address, [], [], now),
        f.length);
  }
}

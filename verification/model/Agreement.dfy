/** The compiled program against the tree evaluator that it speeds up. */
module Agreement {
  import opened Values
  import opened StringTables
  import opened Opcodes
  import opened Code
  import opened Expressions
  import opened CodeGen
  import opened Machine
  import opened Fragment
  import opened Correctness
  import opened Termination
  import opened Programs
  import opened Compilation

  // ----- wildcards -----

  predicate Starred(s: string) {
    HasPrefix(s, "*") || HasSuffix(s, "*")
  }

  /** Pattern matching is equality for exactly the patterns without a star at either end. */
  lemma ExactMatch(p: string)
    ensures (forall s :: MatchWithWildcards(s, p) <==> s == p) <==> !Starred(p)
  {
    if HasSuffix(p, "*") {
      var q := p[..|p| - 1];
      assert MatchWithWildcards(q, p) && q != p;
    } else if HasPrefix(p, "*") {
      var q := p[1..];
      assert q[|q| - |q|..] == q;
      assert MatchWithWildcards(q, p) && q != p;
    }
  }

  /** The pattern ends in a star. */
  ghost predicate Ends(p: string) {
    exists q: string :: p == q + "*"
  }

  ghost predicate Begins(p: string) {
    exists q: string :: p == "*" + q
  }

  /** Any text may stand for a star at the end, or for one at the beginning if there is none at the end. */
  ghost predicate MatchedBy(s: string, p: string) {
    || (exists q: string, t: string :: p == q + "*" && s == q + t)
    || (!Ends(p) && exists q: string, t: string :: p == "*" + q && s == t + q)
    || (!Ends(p) && !Begins(p) && s == p)
  }

  lemma StarsAre(p: string)
    ensures Ends(p) <==> HasSuffix(p, "*")
    ensures Begins(p) <==> HasPrefix(p, "*")
  {
    if HasSuffix(p, "*") { assert p == p[..|p| - 1] + "*"; }
    if HasPrefix(p, "*") { assert p == "*" + p[1..]; }
    if Ends(p) {
      var q :| p == q + "*";
      assert p[|p| - 1..] == "*";
    }
  }

  /** What a pattern matches. */
  lemma MatchesExactly(s: string, p: string)
    ensures MatchWithWildcards(s, p) <==> MatchedBy(s, p)
  {
    StarsAre(p);
    if HasSuffix(p, "*") {
      EndMatches(s, p);
    } else if HasPrefix(p, "*") {
      BeginMatches(s, p);
    }
  }

  lemma EndMatches(s: string, p: string)
    requires HasSuffix(p, "*")
    ensures HasPrefix(s, p[..|p| - 1]) <==> exists q: string, t: string :: p == q + "*" && s == q + t
  {
    var head := p[..|p| - 1];
    if HasPrefix(s, head) { assert p == head + "*" && s == head + s[|head|..]; }
    if exists q: string, t: string :: p == q + "*" && s == q + t {
      var q, t :| p == q + "*" && s == q + t;
      assert head == q;
    }
  }

  lemma BeginMatches(s: string, p: string)
    requires HasPrefix(p, "*")
    ensures HasSuffix(s, p[1..]) <==> exists q: string, t: string :: p == "*" + q && s == t + q
  {
    var tail := p[1..];
    if HasSuffix(s, tail) { assert p == "*" + tail && s == s[..|s| - |tail|] + tail; }
    if exists q: string, t: string :: p == "*" + q && s == t + q {
      var q, t :| p == "*" + q && s == t + q;
      assert tail == q;
    }
  }

  // ----- the hypotheses -----

  /** A string that neither evaluator treats specially. */
  predicate PlainString(s: string) {
    s != "" && !Starred(s)
  }

  ghost predicate PlainValue(v: Value) {
    && (v.Str? ==> PlainString(v.s))
    && (v.StrMap? ==> forall k :: k in v.m ==> PlainString(v.m[k]))
  }

  /** Attributes have their declared types, and no string in the bag is special. */
  ghost predicate PlainBag(types: Vocabulary, bag: Bag) {
    forall x :: x in bag ==> PlainValue(bag[x]) && (x in types ==> TypeOf(bag[x]) == types[x])
  }

  /** An OR whose last operand looks a key up may give the empty string. */
  predicate EndsInIndex(e: Expr) {
    e.Fn? && e.op.OR? && e.r.Fn? && (e.r.op.INDEX? || EndsInIndex(e.r))
  }

  predicate MayBeEmpty(e: Expr) {
    (e.Fn? && e.op.INDEX?) || EndsInIndex(e)
  }

  /** Constants are plain, maps are read from variables, and no OR that may be empty is compared or used as a key. */
  predicate Meant(e: Expr) {
    match e
    case Const(v) => v.Str? ==> PlainString(v.s)
    case Var(_) => true
    case Fn(op, l, r) =>
      && Meant(l) && Meant(r)
      && (op.INDEX? ==> l.Var? && !EndsInIndex(r))
      && (op.EQ? || op.NEQ? ==> !EndsInIndex(l) && !EndsInIndex(r))
  }

  /** The tree evaluator gives `v`, or nil for the empty string out of an OR. */
  predicate TreeGives(e: Expr, v: Value, t: TreeResult) {
    t == Ok(Some(v)) || (EndsInIndex(e) && v == Str("") && t == Ok(None))
  }

  // ----- the two evaluators on trees -----

  lemma {:induction false} FallIsValue(e: Expr)
    requires FallOK(e)
    ensures ValueOK(e)
  {
    if e.Fn? && e.op.OR? { FallIsValue(e.r); }
  }

  /** A result of the expression's type; only an OR may come out empty. */
  ghost predicate Typed(e: Expr, types: Vocabulary, t: TreeResult) {
    && !t.Panicked?
    && (t.Ok? && t.v.None? ==> EndsInIndex(e))
    && (t.Ok? && t.v.Some? ==>
          && Some(TypeOf(t.v.value)) == EvalType(e, types)
          && (PlainValue(t.v.value) || (t.v.value == Str("") && MayBeEmpty(e))))
  }

  /** What the tree evaluator gives has the type of the expression, and it never panics. */
  lemma {:induction false} TreeTyped(e: Expr, types: Vocabulary, bag: Bag)
    requires EvalType(e, types).Some? && Meant(e) && PlainBag(types, bag)
    ensures Typed(e, types, Eval(e, bag))
  {
    if e.Fn? {
      hide Typed, PlainBag;
      TreeTyped(e.l, types, bag);
      TreeTyped(e.r, types, bag);
      if e.op.OR? { OrTyped(e, types, bag); }
      else if e.op.INDEX? { IndexTyped(e, types, bag); }
      else { BooleanTyped(e, types, bag); }
    }
  }

  lemma OrTyped(e: Expr, types: Vocabulary, bag: Bag)
    requires EvalType(e, types).Some? && e.Fn? && e.op.OR?
    requires Typed(e.l, types, Eval(e.l, bag)) && Typed(e.r, types, Eval(e.r, bag))
    ensures Typed(e, types, Eval(e, bag))
  {
  }

  lemma IndexTyped(e: Expr, types: Vocabulary, bag: Bag)
    requires EvalType(e, types).Some? && e.Fn? && e.op.INDEX? && e.l.Var? && !EndsInIndex(e.r)
    requires Typed(e.l, types, Eval(e.l, bag)) && Typed(e.r, types, Eval(e.r, bag))
    ensures Typed(e, types, Eval(e, bag))
  {
    hide PlainString;
    var a, b := Eval(e.l, bag), Eval(e.r, bag);
    if a.Ok? && b.Ok? {
      assert a.v.value.StrMap? && b.v.value.Str?;
      assert Eval(e, bag) == Ok(Some(Str(Lookup(a.v.value.m, b.v.value.s))));
    }
  }

  lemma BooleanTyped(e: Expr, types: Vocabulary, bag: Bag)
    requires EvalType(e, types).Some? && e.Fn? && !e.op.OR? && !e.op.INDEX?
    requires Typed(e.l, types, Eval(e.l, bag)) && Typed(e.r, types, Eval(e.r, bag))
    ensures Typed(e, types, Eval(e, bag))
  {
    hide PlainString, MatchWithWildcards;
  }

  /** What may be absent: absent for one is an error or empty for the other. */
  ghost predicate PresentMatches(a: Ev, t: TreeResult) {
    match a
    case Val(v) => t == Ok(Some(v)) && PlainValue(v)
    case Absent => t.Err? || (t.Ok? && Empty(t.v))
    case Bad(_) => false
  }

  lemma {:induction false} PresentAgrees(e: Expr, types: Vocabulary, bag: Bag)
    requires EvalType(e, types).Some? && JumpOK(e) && Meant(e) && PlainBag(types, bag)
    ensures PresentMatches(Present(e, types, bag), Eval(e, bag))
  {
    if e.Fn? {
      PresentAgrees(e.l, types, bag);
      if e.op.OR? { PresentAgrees(e.r, types, bag); } else { IndexPresentAgrees(e, types, bag); }
    }
  }

  lemma IndexPresentAgrees(e: Expr, types: Vocabulary, bag: Bag)
    requires EvalType(e, types).Some? && e.Fn? && e.op.INDEX? && e.l.Var? && e.r.Const? && PlainBag(types, bag)
    ensures PresentMatches(Present(e, types, bag), Eval(e, bag))
  {
    var name, k := e.l.name, e.r.v;
    assert Present(e.r, types, bag) == Val(k) && Eval(e.r, bag) == Ok(Some(k)) && k.Str?;
    if name in bag {
      var m := bag[name];
      assert PlainValue(m) && m.StrMap?;
      assert Present(e.l, types, bag) == Val(m) && Eval(e.l, bag) == Ok(Some(m));
    } else {
      assert Present(e.l, types, bag) == Absent && Eval(e.l, bag) == Err;
    }
  }

  predicate IsFalse(t: TreeResult) {
    t == Ok(Some(Boolean(false)))
  }

  /** The tree evaluator comes to a LAND whose left operand is false, and passes over a right operand that fails. */
  predicate Skips(e: Expr, bag: Bag) {
    e.Fn? &&
    match e.op
    case OR => !(Eval(e.l, bag).Ok? && !Empty(Eval(e.l, bag).v)) && Skips(e.r, bag)
    case LOR => Skips(e.l, bag) || (IsFalse(Eval(e.l, bag)) && Skips(e.r, bag))
    case LAND =>
      || Skips(e.l, bag)
      || (Eval(e.l, bag).Ok? && Skips(e.r, bag))
      || (IsFalse(Eval(e.l, bag)) && Eval(e.r, bag).Err?)
    case _ => Skips(e.l, bag) || (Eval(e.l, bag).Ok? && Skips(e.r, bag))
  }

  /** One fails exactly if the other does or passes over a failure, and otherwise they give the same value. */
  ghost predicate StrictMatches(e: Expr, types: Vocabulary, bag: Bag)
    requires EvalType(e, types).Some?
  {
    var s, t := Strict(e, types, bag), Eval(e, bag);
    && (s.Bad? <==> t.Err? || Skips(e, bag))
    && (s.Val? ==> TreeGives(e, s.v, t))
  }

  lemma {:induction false} StrictAgrees(e: Expr, types: Vocabulary, bag: Bag)
    requires EvalType(e, types).Some? && ValueOK(e) && Meant(e) && PlainBag(types, bag)
    ensures StrictMatches(e, types, bag)
  {
    hide StrictMatches, PresentMatches, PlainBag, Typed;
    if e.Fn? {
      TreeTyped(e.r, types, bag);
      if e.op.OR? {
        PresentAgrees(e.l, types, bag);
        if e.r.Fn? && e.r.op.OR? { FallIsValue(e.r); }
        StrictAgrees(e.r, types, bag);
        OrAgrees(e, types, bag);
      } else {
        TreeTyped(e.l, types, bag);
        StrictAgrees(e.l, types, bag);
        StrictAgrees(e.r, types, bag);
        if e.op.INDEX? { IndexAgrees(e, types, bag); }
        else if e.op.LAND? || e.op.LOR? { LogicAgrees(e, types, bag); }
        else { EqAgrees(e, types, bag); }
      }
    } else {
      LeafAgrees(e, types, bag);
    }
  }

  lemma LeafAgrees(e: Expr, types: Vocabulary, bag: Bag)
    requires EvalType(e, types).Some? && !e.Fn? && PlainBag(types, bag)
    ensures StrictMatches(e, types, bag)
  {
  }

  lemma OrAgrees(e: Expr, types: Vocabulary, bag: Bag)
    requires EvalType(e, types).Some? && e.Fn? && e.op.OR? && EvalType(e.l, types).Some? && EvalType(e.r, types).Some?
    requires PresentMatches(Present(e.l, types, bag), Eval(e.l, bag))
    requires StrictMatches(e.r, types, bag) && Typed(e.r, types, Eval(e.r, bag))
    ensures StrictMatches(e, types, bag)
  {
  }

  /** Both operands agree and are well typed. */
  ghost predicate OperandsMatch(e: Expr, types: Vocabulary, bag: Bag) {
    && EvalType(e, types).Some? && e.Fn? && EvalType(e.l, types).Some? && EvalType(e.r, types).Some?
    && StrictMatches(e.l, types, bag) && Typed(e.l, types, Eval(e.l, bag))
    && StrictMatches(e.r, types, bag) && Typed(e.r, types, Eval(e.r, bag))
  }

  lemma IndexAgrees(e: Expr, types: Vocabulary, bag: Bag)
    requires OperandsMatch(e, types, bag) && e.op.INDEX? && e.l.Var? && !EndsInIndex(e.r)
    ensures StrictMatches(e, types, bag)
  {
    hide PlainString;
    var a, b := Eval(e.l, bag), Eval(e.r, bag);
    if a.Ok? && b.Ok? { assert a.v.value.StrMap? && b.v.value.Str?; }
  }

  /** An OR that may come out empty is a string. */
  lemma {:induction false} EndsInString(e: Expr, types: Vocabulary)
    requires EvalType(e, types).Some? && EndsInIndex(e)
    ensures EvalType(e, types) == Some(STRING)
  {
    if !e.r.op.INDEX? { EndsInString(e.r, types); }
  }

  lemma LogicAgrees(e: Expr, types: Vocabulary, bag: Bag)
    requires OperandsMatch(e, types, bag) && (e.op.LAND? || e.op.LOR?)
    ensures StrictMatches(e, types, bag)
  {
    hide PlainString, PlainValue;
    if EndsInIndex(e.l) { EndsInString(e.l, types); }
    if EndsInIndex(e.r) { EndsInString(e.r, types); }
    var a, b := Eval(e.l, bag), Eval(e.r, bag);
    var x, y := Strict(e.l, types, bag), Strict(e.r, types, bag);
    if a.Ok? { assert a.v.value.Boolean? && (x.Val? ==> a == Ok(Some(x.v))); }
    if b.Ok? { assert b.v.value.Boolean? && (y.Val? ==> b == Ok(Some(y.v))); }
    assert Strict(e, types, bag) == BooleanFn(e, types, bag);
  }

  lemma EqAgrees(e: Expr, types: Vocabulary, bag: Bag)
    requires OperandsMatch(e, types, bag) && (e.op.EQ? || e.op.NEQ?) && !EndsInIndex(e.l) && !EndsInIndex(e.r)
    ensures StrictMatches(e, types, bag)
  {
    hide MatchWithWildcards;
    var a, b := Eval(e.l, bag), Eval(e.r, bag);
    if a.Ok? && b.Ok? {
      if b.v.value.Str? { ExactMatch(b.v.value.s); }
      assert EqValues(a.v, b.v) == (a.v == b.v);
    }
    assert Strict(e, types, bag) == BooleanFn(e, types, bag);
  }

  // ----- with every attribute present there is a value -----

  predicate AllPresent(e: Expr, bag: Bag) {
    match e
    case Const(_) => true
    case Var(name) => name in bag
    case Fn(_, l, r) => AllPresent(l, bag) && AllPresent(r, bag)
  }

  lemma {:induction false} PresentIsNeverBad(e: Expr, types: Vocabulary, bag: Bag)
    requires EvalType(e, types).Some? && JumpOK(e) && PlainBag(types, bag)
    ensures !Present(e, types, bag).Bad?
    ensures Present(e, types, bag).Val? ==> TypeOf(Present(e, types, bag).v) == EvalType(e, types).value
  {
    if e.Fn? {
      PresentIsNeverBad(e.l, types, bag);
      if e.op.OR? { PresentIsNeverBad(e.r, types, bag); } else { assert Present(e.r, types, bag) == Val(e.r.v); }
    }
  }

  predicate Names(e: Expr, name: string) {
    match e
    case Const(_) => false
    case Var(x) => x == name
    case Fn(_, l, r) => Names(l, name) || Names(r, name)
  }

  /** Evaluation only fails for want of an attribute that the expression names. */
  lemma {:induction false} OnlyAbsenceFails(e: Expr, types: Vocabulary, bag: Bag)
    requires EvalType(e, types).Some? && ValueOK(e) && PlainBag(types, bag)
    ensures match Strict(e, types, bag)
      case Val(v) => TypeOf(v) == EvalType(e, types).value
      case Bad(f) => f.LookupFailed? && f.name !in bag && Names(e, f.name)
      case Absent => false
  {
    if e.Fn? {
      if e.op.OR? {
        PresentIsNeverBad(e.l, types, bag);
        if e.r.Fn? && e.r.op.OR? { FallIsValue(e.r); }
      } else {
        OnlyAbsenceFails(e.l, types, bag);
      }
      OnlyAbsenceFails(e.r, types, bag);
    }
  }

  lemma {:induction false} PresentNames(e: Expr, bag: Bag, name: string)
    requires AllPresent(e, bag) && Names(e, name)
    ensures name in bag
  {
    if e.Fn? {
      if Names(e.l, name) { PresentNames(e.l, bag, name); } else { PresentNames(e.r, bag, name); }
    }
  }

  lemma AllPresentHasValue(e: Expr, types: Vocabulary, bag: Bag)
    requires EvalType(e, types).Some? && ValueOK(e) && PlainBag(types, bag) && AllPresent(e, bag)
    ensures Strict(e, types, bag).Val? && TypeOf(Strict(e, types, bag).v) == EvalType(e, types).value
  {
    hide Strict, PlainBag, ValueOK, Names, AllPresent;
    OnlyAbsenceFails(e, types, bag);
    var s := Strict(e, types, bag);
    if s.Bad? { PresentNames(e, bag, s.f.name); }
  }

  // ----- the compiled program -----

  /**
   A result of the machine stands for the value of the tree evaluator, and reads as it does but for empty strings,
   which read as nil.
   */
  ghost predicate SameAnswer(e: Expr, r: Result, t: TreeResult) {
    && (exists v :: Denotes(r, r.t, v) && TreeGives(e, v, t))
    && t.Ok? && AsInterface(r) == if t.v == Some(Str("")) then None else t.v
  }

  lemma AnswerIs(e: Expr, r: Result, v: Value, t: TreeResult)
    requires Denotes(r, r.t, v) && TreeGives(e, v, t) && TypeOf(v) == r.t
    ensures SameAnswer(e, r, t)
  {
  }

  /** The outcome of the machine is the answer of the tree evaluator, or both are failures. */
  ghost predicate SameOutcome(e: Expr, o: Outcome, t: TreeResult) {
    if o.Returned? then SameAnswer(e, o.r, t) else o.Failed? && t.Err?
  }

  /** Compiled into a program, with room to run, in a string table that may have grown since. */
  ghost predicate Runnable(e: Expr, types: Vocabulary, code: seq<nat>, tab: seq<string>, f: Function,
          now: seq<string>) {
    && Compiled(e, types, code, tab, f) && ValueOK(e) && tab <= now && Distinct(now)
    && StackNeed(e, types, NmNone) <= OP_STACK_SIZE && HeapNeed(e, types) <= HEAP_SIZE - 1
  }

  /**
   Where the two evaluators are meant to coincide, the compiled program has the outcome of the tree
   evaluator, failures included, exactly if the tree evaluator does not pass over a failing operand
   of a LAND and go on to a value; and then what fails is the lookup of an attribute that is named.
   */
  lemma ProgramAgreesWithTree(e: Expr, types: Vocabulary, code: seq<nat>, tab: seq<string>, f: Function, bag: Bag,
          now: seq<string>)
    requires Runnable(e, types, code, tab, f, now) && Meant(e) && PlainBag(types, bag)
    ensures var o, t := Evaluate(Env(code, bag, f.ret), f.address, now), Eval(e, bag);
      && !t.Panicked?
      && (SameOutcome(e, o, t) <==> !(t.Ok? && Skips(e, bag)))
      && (o.Returned? <==> t.Ok? && !Skips(e, bag))
      && (!o.Returned? ==> exists name :: o == Failed(LookupFailed(name)) && Names(e, name) && name !in bag)
      && (AllPresent(e, bag) ==> o.Returned?)
  {
    hide Evaluate, Strict, Eval, PlainBag, Meant, ValueOK, StackNeed, HeapNeed, TreeGives, Skips, Typed;
    CompiledProgramCorrect(e, types, code, tab, f, bag, now);
    StrictAgrees(e, types, bag);
    TypedOutcome(e, types, bag);
    OnlyAbsenceFails(e, types, bag);
    if AllPresent(e, bag) { AllPresentHasValue(e, types, bag); }
    var o := Evaluate(Env(code, bag, f.ret), f.address, now);
    if o.Returned? { AnswerIs(e, o.r, Strict(e, types, bag).v, Eval(e, bag)); }
  }

  lemma TypedOutcome(e: Expr, types: Vocabulary, bag: Bag)
    requires EvalType(e, types).Some? && Meant(e) && PlainBag(types, bag)
    ensures !Eval(e, bag).Panicked?
  {
    hide Eval, Meant, PlainBag;
    TreeTyped(e, types, bag);
  }

  // ----- LAND is what makes the difference -----

  predicate NoLand(e: Expr) {
    e.Fn? ==> !e.op.LAND? && NoLand(e.l) && NoLand(e.r)
  }

  lemma {:induction false} NoLandNoSkip(e: Expr, bag: Bag)
    requires NoLand(e)
    ensures !Skips(e, bag)
  {
    if e.Fn? {
      NoLandNoSkip(e.l, bag);
      NoLandNoSkip(e.r, bag);
    }
  }

  /** Without LAND the outcomes are always the same. */
  lemma ProgramAgreesWithoutLand(e: Expr, types: Vocabulary, code: seq<nat>, tab: seq<string>, f: Function, bag: Bag,
          now: seq<string>)
    requires Runnable(e, types, code, tab, f, now) && Meant(e) && PlainBag(types, bag) && NoLand(e)
    ensures SameOutcome(e, Evaluate(Env(code, bag, f.ret), f.address, now), Eval(e, bag))
  {
    hide Evaluate, Runnable, PlainBag, Meant, NoLand, Skips, SameOutcome;
    NoLandNoSkip(e, bag);
    ProgramAgreesWithTree(e, types, code, tab, f, bag, now);
  }

  /** The two evaluators both fail or neither does. */
  ghost predicate FailAlike(e: Expr, types: Vocabulary, bag: Bag)
    requires EvalType(e, types).Some?
  {
    Strict(e, types, bag).Bad? <==> Eval(e, bag).Err?
  }

  /**
   A LAND over operands that agree on failure agrees on failure itself exactly if it is not a false
   left operand with a failing right one.
   */
  lemma LandFailsExactly(e: Expr, types: Vocabulary, bag: Bag)
    requires EvalType(e, types).Some? && ValueOK(e) && Meant(e) && PlainBag(types, bag) && e.Fn? && e.op.LAND?
    requires EvalType(e.l, types).Some? && EvalType(e.r, types).Some?
    requires FailAlike(e.l, types, bag) && FailAlike(e.r, types, bag)
    ensures FailAlike(e, types, bag) <==> !(IsFalse(Eval(e.l, bag)) && Eval(e.r, bag).Err?)
  {
    hide PlainBag;
    StrictAgrees(e.l, types, bag);
    StrictAgrees(e.r, types, bag);
    TreeTyped(e.l, types, bag);
    if EndsInIndex(e.l) { EndsInString(e.l, types); }
    assert Strict(e, types, bag) == BooleanFn(e, types, bag);
  }

  /** The same for the compiled LAND. */
  lemma ProgramLandFailsExactly(e: Expr, types: Vocabulary, code: seq<nat>, tab: seq<string>, f: Function, bag: Bag,
          now: seq<string>)
    requires Runnable(e, types, code, tab, f, now) && Meant(e) && PlainBag(types, bag) && e.Fn? && e.op.LAND?
    requires EvalType(e.l, types).Some? && EvalType(e.r, types).Some?
    requires FailAlike(e.l, types, bag) && FailAlike(e.r, types, bag)
    ensures var o := Evaluate(Env(code, bag, f.ret), f.address, now);
      (o.Failed? <==> Eval(e, bag).Err?) <==> !(IsFalse(Eval(e.l, bag)) && Eval(e.r, bag).Err?)
  {
    hide Evaluate, Strict, Eval, PlainBag, Meant, ValueOK, StackNeed, HeapNeed, IsFalse, EvalType;
    LandFailsExactly(e, types, bag);
    CompiledProgramCorrect(e, types, code, tab, f, bag, now);
  }

  // ----- where strings are special -----

  /** The strict evaluator and the tree evaluator read alike, the empty string as nil. */
  ghost predicate ReadAlike(s: Ev, t: TreeResult) {
    match s
    case Val(v) => t == Ok(Some(v)) || (v == Str("") && t == Ok(None))
    case Bad(_) => t.Err?
    case Absent => false
  }

  /**
   An OR over operands that read alike does so itself exactly if it has no empty left operand before one that is not
   empty.
   */
  lemma OrReadsExactly(e: Expr, types: Vocabulary, bag: Bag)
    requires EvalType(e, types).Some? && e.Fn? && e.op.OR? && EvalType(e.l, types).Some? && EvalType(e.r, types).Some?
    requires match Present(e.l, types, bag)
      case Val(v) => Eval(e.l, bag) == Ok(Some(v))
      case Absent => Eval(e.l, bag).Err?
      case Bad(_) => false
    requires ReadAlike(Strict(e.r, types, bag), Eval(e.r, bag))
    ensures ReadAlike(Strict(e, types, bag), Eval(e, bag)) <==>
      !(Present(e.l, types, bag) == Val(Str("")) && !(Eval(e.r, bag).Ok? && Empty(Eval(e.r, bag).v)))
  {
  }

  /** A pattern matches itself. */
  lemma MatchesItself(p: string)
    ensures MatchWithWildcards(p, p)
  {
    if HasSuffix(p, "*") { assert HasPrefix(p, p[..|p| - 1]); }
  }

  /** A comparison of strings agrees exactly if it does not match a pattern by its star alone. */
  lemma EqReadsExactly(e: Expr, types: Vocabulary, bag: Bag, a: string, b: string)
    requires EvalType(e, types).Some? && e.Fn? && (e.op.EQ? || e.op.NEQ?) && EvalType(e.l, types).Some?
      && EvalType(e.r, types).Some?
    requires Strict(e.l, types, bag) == Val(Str(a)) && Eval(e.l, bag) == Ok(Some(Str(a)))
    requires Strict(e.r, types, bag) == Val(Str(b)) && Eval(e.r, bag) == Ok(Some(Str(b)))
    ensures ReadAlike(Strict(e, types, bag), Eval(e, bag)) <==> !(a != b && MatchedBy(a, b))
  {
    hide MatchWithWildcards, MatchedBy;
    MatchesItself(b);
    MatchesExactly(a, b);
    ExactMatch(b);
    assert Strict(e, types, bag) == BooleanFn(e, types, bag);
  }

  // ----- each hypothesis is needed -----

  const TYPES: Vocabulary := map["a" := STRING, "b" := BOOL, "m" := STRING_MAP]

  const LAND_EXAMPLE := Fn(LAND, Fn(EQ, Const(Int(1)), Const(Int(2))), Var("b"))
  const OR_EXAMPLE := Fn(OR, Var("a"), Const(Str("x")))
  const EQ_EXAMPLE := Fn(EQ, Var("a"), Const(Str("*")))

  lemma LandOnTrees()
    ensures var e := LAND_EXAMPLE;
      && EvalType(e, TYPES) == Some(BOOL) && ValueOK(e) && Meant(e)
      && Strict(e, TYPES, map[]) == Bad(LookupFailed("b")) && Eval(e, map[]) == Ok(Some(Boolean(false)))
  {
    var eq := Fn(EQ, Const(Int(1)), Const(Int(2)));
    assert EvalType(Const(Int(1)), TYPES) == Some(INT64) && EvalType(Const(Int(2)), TYPES) == Some(INT64);
    assert EvalType(eq, TYPES) == Some(BOOL) && ValueOK(eq) && Meant(eq);
    assert Strict(Const(Int(1)), TYPES, map[]) == Val(Int(1)) && Strict(Const(Int(2)), TYPES, map[]) == Val(Int(2));
    assert Strict(eq, TYPES, map[]) == Val(Boolean(false));
    assert Eval(Const(Int(1)), map[]) == Ok(Some(Int(1))) && Eval(Const(Int(2)), map[]) == Ok(Some(Int(2)));
    assert Eval(eq, map[]) == Ok(Some(Boolean(false)));
  }

  lemma LandRoom()
    requires EvalType(LAND_EXAMPLE, TYPES).Some?
    ensures StackNeed(LAND_EXAMPLE, TYPES, NmNone) <= OP_STACK_SIZE && HeapNeed(LAND_EXAMPLE, TYPES) <= HEAP_SIZE - 1
  {
    var eq := LAND_EXAMPLE.l;
    assert EvalType(eq.l, TYPES) == Some(INT64) && EvalType(eq.r, TYPES) == Some(INT64);
    assert StackNeed(eq, TYPES, NmNone) == 4 && HeapNeed(eq, TYPES) == 0;
  }

  /** LAND is strict on the machine: a false left operand does not save it from an absent attribute. */
  lemma LandDiffers(code: seq<nat>, tab: seq<string>, f: Function, now: seq<string>)
    requires Compiled(LAND_EXAMPLE, TYPES, code, tab, f) && tab <= now && Distinct(now)
    ensures Meant(LAND_EXAMPLE) && PlainBag(TYPES, map[]) && Eval(LAND_EXAMPLE, map[]) == Ok(Some(Boolean(false)))
    ensures Evaluate(Env(code, map[], f.ret), f.address, now) == Failed(LookupFailed("b"))
  {
    hide Evaluate, Strict, Eval, Compiled, StackNeed, HeapNeed, ValueOK, Meant;
    LandOnTrees();
    LandRoom();
    CompiledProgramCorrect(LAND_EXAMPLE, TYPES, code, tab, f, map[], now);
  }

  lemma XIsPlain()
    ensures PlainString("x")
  {
    assert "x"[0] == 'x';
  }

  lemma EmptyStringOnTrees()
    ensures var e, bag: Bag := OR_EXAMPLE, map["a" := Str("")];
      && EvalType(e, TYPES) == Some(STRING) && ValueOK(e) && Meant(e)
      && Strict(e, TYPES, bag) == Val(Str("")) && Eval(e, bag) == Ok(Some(Str("x")))
  {
    hide PlainString;
    XIsPlain();
    var bag: Bag := map["a" := Str("")];
    assert EvalType(Var("a"), TYPES) == Some(STRING) && EvalType(Const(Str("x")), TYPES) == Some(STRING);
    assert Present(Var("a"), TYPES, bag) == Val(Str("")) && Eval(Var("a"), bag) == Ok(Some(Str("")));
    assert Eval(Const(Str("x")), bag) == Ok(Some(Str("x")));
    assert Meant(Const(Str("x")));
  }

  lemma OrRoom()
    requires EvalType(OR_EXAMPLE, TYPES).Some?
    ensures StackNeed(OR_EXAMPLE, TYPES, NmNone) <= OP_STACK_SIZE && HeapNeed(OR_EXAMPLE, TYPES) <= HEAP_SIZE - 1
  {
    assert EvalType(OR_EXAMPLE.l, TYPES) == Some(STRING) && EvalType(OR_EXAMPLE.r, TYPES) == Some(STRING);
  }

  /** OR keeps an empty string on the machine, and skips it on the tree. */
  lemma EmptyStringDiffers(code: seq<nat>, tab: seq<string>, f: Function, now: seq<string>)
    requires Compiled(OR_EXAMPLE, TYPES, code, tab, f) && tab <= now && Distinct(now)
    ensures var bag: Bag := map["a" := Str("")];
      && Meant(OR_EXAMPLE) && Eval(OR_EXAMPLE, bag) == Ok(Some(Str("x")))
      && var o := Evaluate(Env(code, bag, f.ret), f.address, now); o.Returned? && o.r.t == STRING && o.r.vs == ""
  {
    hide Evaluate, Strict, Eval, StackNeed, HeapNeed, ValueOK, Meant, EvalType, Supported, At, Body;
    EmptyStringOnTrees();
    OrRoom();
    CompiledProgramCorrect(OR_EXAMPLE, TYPES, code, tab, f, map["a" := Str("")], now);
  }

  lemma StarMatches()
    ensures MatchWithWildcards("x", "*") && PlainString("x") && "x" != "*"
  {
    assert "x"[0] == 'x' && "*"[0] == '*' && "*"[..0] == "";
  }

  lemma WildcardOnTrees()
    ensures var e, bag: Bag := EQ_EXAMPLE, map["a" := Str("x")];
      && EvalType(e, TYPES) == Some(BOOL) && ValueOK(e) && PlainBag(TYPES, bag)
      && Strict(e, TYPES, bag) == Val(Boolean(false)) && Eval(e, bag) == Ok(Some(Boolean(true)))
  {
    hide MatchWithWildcards, PlainString;
    var bag: Bag := map["a" := Str("x")];
    StarMatches();
    assert EvalType(Var("a"), TYPES) == Some(STRING) && EvalType(Const(Str("*")), TYPES) == Some(STRING);
    assert Strict(Var("a"), TYPES, bag) == Val(Str("x")) && Strict(Const(Str("*")), TYPES, bag) == Val(Str("*"));
    assert Eval(Var("a"), bag) == Ok(Some(Str("x"))) && Eval(Const(Str("*")), bag) == Ok(Some(Str("*")));
  }

  lemma EqRoom()
    requires EvalType(EQ_EXAMPLE, TYPES).Some?
    ensures StackNeed(EQ_EXAMPLE, TYPES, NmNone) <= OP_STACK_SIZE && HeapNeed(EQ_EXAMPLE, TYPES) <= HEAP_SIZE - 1
  {
    assert EvalType(EQ_EXAMPLE.l, TYPES) == Some(STRING) && EvalType(EQ_EXAMPLE.r, TYPES) == Some(STRING);
  }

  /** EQ is exact on the machine, and matches a pattern on the tree. */
  lemma WildcardDiffers(code: seq<nat>, tab: seq<string>, f: Function, now: seq<string>)
    requires Compiled(EQ_EXAMPLE, TYPES, code, tab, f) && tab <= now && Distinct(now)
    ensures var bag: Bag := map["a" := Str("x")];
      && PlainBag(TYPES, bag) && Eval(EQ_EXAMPLE, bag) == Ok(Some(Boolean(true)))
      && var o := Evaluate(Env(code, bag, f.ret), f.address, now); o.Returned? && Denotes(o.r, BOOL, Boolean(false))
  {
    hide Evaluate, Strict, Eval, StackNeed, HeapNeed, ValueOK, PlainBag, EvalType, Supported, At, Body;
    WildcardOnTrees();
    EqRoom();
    CompiledProgramCorrect(EQ_EXAMPLE, TYPES, code, tab, f, map["a" := Str("x")], now);
  }

  /** A constant ignores jump mode: as the left operand of an OR it is pushed, and then passed over. */
  lemma ConstantOrDiffers(a: string, b: string, types: Vocabulary, code: seq<nat>, tab: seq<string>, f: Function,
          bag: Bag)
    requires Compiled(Fn(OR, Const(Str(a)), Const(Str(b))), types, code, tab, f)
    ensures var e := Fn(OR, Const(Str(a)), Const(Str(b)));
      && EvalType(e, types).Some? && Strict(e, types, bag) == Val(Str(a)) && !ValueOK(e)
      && var o := Evaluate(Env(code, bag, f.ret), f.address, tab); o.Returned? && o.r.vs == b
  {
    hide Step, Exec, At, Gen, Body, StringsOf, Strict, EvalType, InternAll, Intern, ValueOK;
    var e := Fn(OR, Const(Str(a)), Const(Str(b)));
    ConstOrTree(a, b, types, bag);
    CompiledTable(e, types, code, tab, f);
    ConstOrCode(a, b, Context(types, tab), code, f.address);
    PushPushReturn(Env(code, bag, f.ret), State(f.address, [], [], tab), IndexOf(tab, b));
    ExecStops(Env(code, bag, f.ret), State(f.address, [], [], tab), 3, |code| - 3);
  }

  lemma ConstOrTree(a: string, b: string, types: Vocabulary, bag: Bag)
    ensures var e := Fn(OR, Const(Str(a)), Const(Str(b)));
      && EvalType(e, types) == Some(STRING) && Strict(e, types, bag) == Val(Str(a)) && !ValueOK(e) && b in StringsOf(e)
  {
    var e := Fn(OR, Const(Str(a)), Const(Str(b)));
    assert EvalType(e.l, types) == Some(STRING) && EvalType(e.r, types) == Some(STRING);
    assert Present(e.l, types, bag) == Val(Str(a));
    assert b in StringsOf(e.r);
  }

  lemma PushPushReturn(env: Env, s: State, id: nat)
    requires s.stack == [] && env.ret == STRING && s.ip + 5 <= |env.code| && id < |s.tab|
    requires env.code[s.ip] == APUSH_S && env.code[s.ip + 2] == APUSH_S && env.code[s.ip + 3] == id
      && env.code[s.ip + 4] == RET
    ensures var o := Exec(env, s, 3); o.Returned? && o.r.vs == s.tab[id]
  {
    hide Step, Exec;
    FetchPush(env, s, APUSH_S);
    var s1 := StepPush(env, s, APUSH_S).s;
    FetchPush(env, s1, APUSH_S);
    var s2 := StepPush(env, s1, APUSH_S).s;
    FetchRet(env, s2);
    ExecAdd(env, s, 1, 2);
    ExecAdd(env, s1, 1, 1);
  }

  lemma ConstOrCode(a: string, b: string, cx: Context, code: seq<nat>, base: nat)
    requires EvalType(Fn(OR, Const(Str(a)), Const(Str(b))), cx.types).Some?
    requires At(code, base, Body(Fn(OR, Const(Str(a)), Const(Str(b))), cx))
    ensures base + 5 <= |code| && code[base] == APUSH_S && code[base + 1] == IndexOf(cx.tab, a)
    ensures code[base + 2] == APUSH_S && code[base + 3] == IndexOf(cx.tab, b) && code[base + 4] == RET
  {
    var e := Fn(OR, Const(Str(a)), Const(Str(b)));
    var x, y := I1(APUSH_S, IndexOf(cx.tab, a)), I1(APUSH_S, IndexOf(cx.tab, b));
    assert Gen(e.l, cx, 1, NmJmpOnValue) == x && Gen(e.r, cx, 1, NmNone) == y;
    assert Gen(e, cx, 0, NmNone) == Close(Cat(x, y), 0) == Cat(x, y);
    assert At(code, base, Cat(x, y)) && At(code, base + 4, I0(RET));
    assert At(code, base, x) && At(code, base + 2, y);
  }
}

/**
 Equalities hoisted out of a match expression, and the rule filter that relies on them
 (pkg/expr/expr.go, pkg/runtime/controller.go, pkg/runtime/resolver.go).
 */
module Matching {
  import opened Values
  import opened Expressions
  import opened Agreement

  const PROTOCOL := "context.protocol"
  const TCP := "tcp"

  type EqMap = map<string, Value>

  function RecordIfEq(e: Expr, eqs: EqMap): EqMap
    requires e.Fn?
  {
    if !e.op.EQ? then eqs
    else if e.l.Var? && e.r.Const? then eqs[e.l.name := e.r.v]
    else if e.l.Const? && e.r.Var? then eqs[e.r.name := e.l.v]
    else eqs
  }

  /** Walks down the LANDs; a later equality on the same attribute replaces an earlier one. */
  function Extract(e: Expr, eqs: EqMap): EqMap {
    if !e.Fn? then eqs
    else
      var now := RecordIfEq(e, eqs);
      if e.op.LAND? then Extract(e.r, Extract(e.l, now)) else now
  }

  /** Evaluates without error, and not to false. */
  predicate Passes(e: Expr, bag: Bag) {
    Eval(e, bag).Ok? && Eval(e, bag).v != Some(Boolean(false))
  }

  /** The attribute equals the literal, as a comparison in one of the two orders finds. */
  predicate Confirmed(bag: Bag, name: string, v: Value) {
    name in bag && (EqValues(Some(bag[name]), Some(v)) || EqValues(Some(v), Some(bag[name])))
  }

  ghost predicate AllConfirmed(bag: Bag, eqs: EqMap) {
    forall x :: x in eqs ==> Confirmed(bag, x, eqs[x])
  }

  /** If the match passes, the comparison behind every extracted pair is true. */
  lemma {:induction false} ExtractionSound(e: Expr, bag: Bag, eqs: EqMap)
    requires Passes(e, bag) && AllConfirmed(bag, eqs)
    ensures AllConfirmed(bag, Extract(e, eqs))
    decreases e
  {
    hide EqValues;
    if e.Fn? && e.op.LAND? {
      ExtractionSound(e.l, bag, eqs);
      ExtractionSound(e.r, bag, Extract(e.l, eqs));
    } else if e.Fn? && e.op.EQ? {
      EqConfirmed(e, bag);
    }
  }

  lemma EqConfirmed(e: Expr, bag: Bag)
    requires e.Fn? && e.op.EQ? && Passes(e, bag)
    ensures e.l.Var? && e.r.Const? ==> Confirmed(bag, e.l.name, e.r.v)
    ensures e.l.Const? && e.r.Var? ==> Confirmed(bag, e.r.name, e.l.v)
  {
    hide EqValues;
    var a, b := Eval(e.l, bag), Eval(e.r, bag);
    assert Eval(e, bag) == EqCall(a, b, false);
    assert a.Ok? && b.Ok? && EqValues(a.v, b.v);
  }

  // ----- extraction is exact -----

  /** The expressions joined by the LANDs at the top, from left to right. */
  function Conjuncts(e: Expr): seq<Expr> {
    if e.Fn? && e.op.LAND? then Conjuncts(e.l) + Conjuncts(e.r) else [e]
  }

  /** The expression compares an attribute with a literal, in either order. */
  predicate Compares(c: Expr, name: string, v: Value) {
    c == Fn(EQ, Var(name), Const(v)) || c == Fn(EQ, Const(v), Var(name))
  }

  predicate ComparesSome(c: Expr, name: string) {
    c.Fn? && c.op.EQ? && ((c.l == Var(name) && c.r.Const?) || (c.l.Const? && c.r == Var(name)))
  }

  /** The last of the expressions that compares the attribute compares it with `v`. */
  ghost predicate LastCompared(cs: seq<Expr>, name: string, v: Value) {
    exists i :: 0 <= i < |cs| && Compares(cs[i], name, v) && forall j :: i < j < |cs| ==> !ComparesSome(cs[j], name)
  }

  ghost predicate Compared(cs: seq<Expr>, name: string) {
    exists i :: 0 <= i < |cs| && ComparesSome(cs[i], name)
  }

  /** What is known of an attribute after a list of conjuncts, from what was known before. */
  ghost predicate Learned(cs: seq<Expr>, name: string, before: EqMap, after: EqMap) {
    && (Compared(cs, name) ==> name in after && LastCompared(cs, name, after[name]))
    && (!Compared(cs, name) ==> (name in after <==> name in before) && (name in after ==> after[name] == before[name]))
  }

  lemma LearnedTwice(a: seq<Expr>, b: seq<Expr>, name: string, x: EqMap, y: EqMap, z: EqMap)
    requires Learned(a, name, x, y) && Learned(b, name, y, z)
    ensures Learned(a + b, name, x, z)
  {
    hide Compares, ComparesSome;
    var cs := a + b;
    if Compared(b, name) {
      var i :| 0 <= i < |b| && ComparesSome(b[i], name);
      assert ComparesSome(cs[|a| + i], name);
      var k :| 0 <= k < |b| && Compares(b[k], name, z[name]) && forall j :: k < j < |b| ==> !ComparesSome(b[j], name);
      assert Compares(cs[|a| + k], name, z[name]);
      forall j | |a| + k < j < |cs| ensures !ComparesSome(cs[j], name) { assert cs[j] == b[j - |a|]; }
    } else if Compared(a, name) {
      var i :| 0 <= i < |a| && ComparesSome(a[i], name);
      assert ComparesSome(cs[i], name);
      var k :| 0 <= k < |a| && Compares(a[k], name, y[name]) && forall j :: k < j < |a| ==> !ComparesSome(a[j], name);
      assert Compares(cs[k], name, z[name]);
      forall j | k < j < |cs| ensures !ComparesSome(cs[j], name) {
        if j < |a| { assert cs[j] == a[j]; } else { assert cs[j] == b[j - |a|]; }
      }
    } else {
      forall j | 0 <= j < |cs| ensures !ComparesSome(cs[j], name) {
        if j < |a| { assert cs[j] == a[j]; } else { assert cs[j] == b[j - |a|]; }
      }
    }
  }

  lemma {:induction false} ExtractLearns(e: Expr, eqs: EqMap, name: string)
    ensures Learned(Conjuncts(e), name, eqs, Extract(e, eqs))
    decreases e
  {
    hide Learned;
    if e.Fn? && e.op.LAND? {
      ExtractLearns(e.l, eqs, name);
      ExtractLearns(e.r, Extract(e.l, eqs), name);
      LearnedTwice(Conjuncts(e.l), Conjuncts(e.r), name, eqs, Extract(e.l, eqs), Extract(e, eqs));
    } else {
      OneConjunct(e, eqs, name);
    }
  }

  lemma OneConjunct(e: Expr, eqs: EqMap, name: string)
    requires !(e.Fn? && e.op.LAND?)
    ensures Learned([e], name, eqs, Extract(e, eqs))
  {
    var cs := [e];
    assert cs[0] == e;
    if ComparesSome(e, name) {
      var v := if e.l.Const? then e.l.v else e.r.v;
      assert Compares(cs[0], name, v);
      assert LastCompared(cs, name, v);
    }
  }

  /**
   An attribute is extracted exactly if some conjunct compares it with a literal, in either order, and
   with the literal of the last such conjunct.
   */
  lemma ExtractionExact(e: Expr, name: string, v: Value)
    ensures name in Extract(e, map[]) <==> exists u, i :: 0 <= i < |Conjuncts(e)| && Compares(Conjuncts(e)[i], name, u)
    ensures name in Extract(e, map[]) && Extract(e, map[])[name] == v <==> LastCompared(Conjuncts(e), name, v)
  {
    hide Extract, Conjuncts;
    var cs, eqs := Conjuncts(e), Extract(e, map[]);
    ExtractLearns(e, map[], name);
    if Compared(cs, name) {
      var i :| 0 <= i < |cs| && ComparesSome(cs[i], name);
      assert Compares(cs[i], name, if cs[i].l.Const? then cs[i].l.v else cs[i].r.v);
    }
    if LastCompared(cs, name, v) {
      var i :| 0 <= i < |cs| && Compares(cs[i], name, v) && forall j :: i < j < |cs| ==> !ComparesSome(cs[j], name);
      assert ComparesSome(cs[i], name);
      OneLast(cs, name, v, eqs[name]);
    }
  }

  lemma OneLast(cs: seq<Expr>, name: string, u: Value, v: Value)
    requires LastCompared(cs, name, u) && LastCompared(cs, name, v)
    ensures u == v
  {
    var i :| 0 <= i < |cs| && Compares(cs[i], name, u) && forall j :: i < j < |cs| ==> !ComparesSome(cs[j], name);
    var k :| 0 <= k < |cs| && Compares(cs[k], name, v) && forall j :: k < j < |cs| ==> !ComparesSome(cs[j], name);
    assert ComparesSome(cs[i], name) && ComparesSome(cs[k], name);
    assert i == k;
  }

  /** The walk down the LANDs that fills the map in place. */
  method CollectEqualities(e: Expr, eqs: EqMap) returns (eqs': EqMap)
    ensures eqs' == Extract(e, eqs)
    decreases e
  {
    eqs' := eqs;
    if !e.Fn? { return; }
    if e.op.EQ? {
      if e.l.Var? && e.r.Const? { eqs' := eqs'[e.l.name := e.r.v]; }
      else if e.l.Const? && e.r.Var? { eqs' := eqs'[e.r.name := e.l.v]; }
    }
    if !e.op.LAND? { return; }
    eqs' := CollectEqualities(e.l, eqs');
    eqs' := CollectEqualities(e.r, eqs');
  }

  // ----- rules tagged TCP -----

  /** Whether buildRule tags a rule with this match as TCP. */
  predicate Tagged(e: Expr) {
    var eqs := Extract(e, map[]);
    PROTOCOL in eqs && eqs[PROTOCOL] == Str(TCP)
  }

  predicate IsTcp(bag: Bag) {
    PROTOCOL in bag && bag[PROTOCOL] == Str(TCP)
  }

  /** The request's protocol is a pattern that the literal matches. */
  ghost predicate PatternProtocol(bag: Bag) {
    PROTOCOL in bag && bag[PROTOCOL].Str? && bag[PROTOCOL].s != TCP && MatchedBy(TCP, bag[PROTOCOL].s)
  }

  /** A rule is tagged exactly if the last of its conjuncts about the protocol compares it with tcp. */
  lemma TaggedExactly(e: Expr)
    ensures Tagged(e) <==> LastCompared(Conjuncts(e), "context.protocol", Str("tcp"))
  {
    hide Extract, Conjuncts, LastCompared;
    ExtractionExact(e, PROTOCOL, Str(TCP));
  }

  lemma TcpIsPlain()
    ensures !Starred(TCP)
  {
    assert TCP[0] == 't' && TCP[2] == 'p';
  }

  lemma TaggedNeedsTcp(e: Expr, bag: Bag)
    requires Tagged(e) && Passes(e, bag) && !PatternProtocol(bag)
    ensures IsTcp(bag)
  {
    hide MatchWithWildcards, MatchedBy, Extract;
    ExtractionSound(e, bag, map[]);
    if PROTOCOL in bag && bag[PROTOCOL].Str? { MatchesExactly(TCP, bag[PROTOCOL].s); }
    assert Confirmed(bag, PROTOCOL, Str(TCP));
    TcpIsPlain();
    ExactMatch(TCP);
  }

  /** The literal on the left: the attribute's value is then the pattern. */
  lemma YodaPasses(bag: Bag)
    requires PatternProtocol(bag)
    ensures var e := Fn(EQ, Const(Str(TCP)), Var(PROTOCOL)); Tagged(e) && Passes(e, bag)
  {
    hide MatchWithWildcards, MatchedBy;
    MatchesExactly(TCP, bag[PROTOCOL].s);
    var e := Fn(EQ, Const(Str(TCP)), Var(PROTOCOL));
    assert Extract(e, map[]) == map[PROTOCOL := Str(TCP)];
    assert Eval(e.l, bag) == Ok(Some(Str(TCP))) && Eval(e.r, bag) == Ok(Some(bag[PROTOCOL]));
  }

  /**
   Skipping tagged rules on a request that is not TCP loses no match, exactly when its protocol is no such pattern.
   */
  lemma SkippingLosesNothing(bag: Bag)
    requires !IsTcp(bag)
    ensures (forall e :: Tagged(e) ==> !Passes(e, bag)) <==> !PatternProtocol(bag)
  {
    hide Extract, Eval, MatchedBy, Passes, Tagged;
    if PatternProtocol(bag) {
      YodaPasses(bag);
    } else {
      forall e | Tagged(e) ensures !Passes(e, bag) {
        if Passes(e, bag) { TaggedNeedsTcp(e, bag); }
      }
    }
  }

  // ----- the filter -----

  datatype Rule = Rule(condition: Option<Expr>, labelledTcp: bool, actions: Option<seq<nat>>)

  predicate RuleIsTcp(r: Rule) {
    r.labelledTcp || (r.condition.Some? && Tagged(r.condition.value))
  }

  /** Evaluating a predicate: its truth value, or None for an error or any other value. */
  function Decide(e: Expr, bag: Bag): Option<bool> {
    match Eval(e, bag)
    case Ok(Some(Boolean(b))) => Some(b)
    case _ => None
  }

  /** A predicate is decided exactly if it evaluates, without error, to a truth value. */
  lemma DecidedExactly(e: Expr, bag: Bag, b: bool)
    ensures Decide(e, bag) == Some(b) <==> Eval(e, bag) == Ok(Some(Boolean(b)))
  {
  }

  predicate Considered(r: Rule, bag: Bag) {
    r.actions.Some? && RuleIsTcp(r) == IsTcp(bag)
  }

  predicate Fails(r: Rule, bag: Bag) {
    Considered(r, bag) && r.condition.Some? && Decide(r.condition.value, bag).None?
  }

  predicate Selected(r: Rule, bag: Bag) {
    Considered(r, bag) && (r.condition.None? || Decide(r.condition.value, bag) == Some(true))
  }

  /** The actions of the selected rules, in order. */
  function ActionsOf(rules: seq<Rule>, bag: Bag): seq<nat> {
    if rules == [] then []
    else
      var r := rules[|rules| - 1];
      ActionsOf(rules[..|rules| - 1], bag) + (if Selected(r, bag) then r.actions.value else [])
  }

  function Flatten(rulesArr: seq<seq<Rule>>): seq<Rule> {
    if rulesArr == [] then [] else Flatten(rulesArr[..|rulesArr| - 1]) + rulesArr[|rulesArr| - 1]
  }

  /** Gives the actions of all selected rules, or an error if some considered match cannot be decided. */
  method FilterActions(rulesArr: seq<seq<Rule>>, bag: Bag) returns (res: Option<seq<nat>>)
    ensures res.None? <==> exists r :: r in Flatten(rulesArr) && Fails(r, bag)
    ensures res.Some? ==> res.value == ActionsOf(Flatten(rulesArr), bag)
  {
    hide Fails, Selected, Considered, RuleIsTcp, Decide, ActionsOf, Flatten, Examine;
    FlattenEnds(rulesArr);
    var acts := [];
    for i := 0 to |rulesArr|
      invariant acts == ActionsOf(Flatten(rulesArr[..i]), bag)
      invariant forall r :: r in Flatten(rulesArr[..i]) ==> !Fails(r, bag)
    {
      var rules := rulesArr[i];
      ghost var done := Flatten(rulesArr[..i]);
      FlattenStep(rulesArr, i);
      assert done + rules[..0] == done;
      for j := 0 to |rules|
        invariant acts == ActionsOf(done + rules[..j], bag)
        invariant forall r :: r in done + rules[..j] ==> !Fails(r, bag)
      {
        var r := rules[j];
        ActionsStep(done, rules, j, bag);
        assert rules[..j + 1] == rules[..j] + [r];
        var take := Examine(r, bag);
        if take.None? {
          assert r in Flatten(rulesArr[..i + 1]);
          InFlatten(rulesArr, i + 1, r);
          return None;
        }
        if take.value { acts := acts + r.actions.value; }
      }
      assert done + rules[..|rules|] == done + rules;
    }
    res := Some(acts);
  }

  /** One rule: left out, taken, or in error. */
  function Examine(r: Rule, bag: Bag): (take: Option<bool>)
    ensures take.None? <==> Fails(r, bag)
    ensures take == Some(true) <==> Selected(r, bag)
    ensures take == Some(true) ==> r.actions.Some?
  {
    if r.actions.None? then Some(false)
    else if IsTcp(bag) != RuleIsTcp(r) then Some(false)
    else if r.condition.None? then Some(true)
    else Decide(r.condition.value, bag)
  }

  lemma ActionsStep(done: seq<Rule>, rules: seq<Rule>, j: nat, bag: Bag)
    requires j < |rules|
    ensures ActionsOf(done + rules[..j + 1], bag) ==
      ActionsOf(done + rules[..j], bag) + (if Selected(rules[j], bag) then rules[j].actions.value else [])
  {
    hide Selected;
    var all := done + rules[..j + 1];
    assert all[..|all| - 1] == done + rules[..j] && all[|all| - 1] == rules[j];
  }

  lemma FlattenEnds(rulesArr: seq<seq<Rule>>)
    ensures Flatten(rulesArr[..0]) == [] && Flatten(rulesArr[..|rulesArr|]) == Flatten(rulesArr)
    ensures forall bag :: ActionsOf([], bag) == []
  {
    assert rulesArr[..|rulesArr|] == rulesArr;
  }

  lemma FlattenStep(rulesArr: seq<seq<Rule>>, i: nat)
    requires i < |rulesArr|
    ensures Flatten(rulesArr[..i + 1]) == Flatten(rulesArr[..i]) + rulesArr[i]
  {
    assert rulesArr[..i + 1][..i] == rulesArr[..i];
  }

  lemma {:induction false} InFlatten(rulesArr: seq<seq<Rule>>, i: nat, r: Rule)
    requires i <= |rulesArr| && r in Flatten(rulesArr[..i])
    ensures r in Flatten(rulesArr)
    decreases |rulesArr| - i
  {
    if i == |rulesArr| {
      assert rulesArr[..i] == rulesArr;
    } else {
      FlattenStep(rulesArr, i);
      InFlatten(rulesArr, i + 1, r);
    }
  }

  // ----- what is selected is there -----

  /** The actions stand together somewhere in the result. */
  ghost predicate Includes(all: seq<nat>, part: seq<nat>) {
    exists a: seq<nat>, b: seq<nat> :: all == a + part + b
  }

  lemma {:induction false} SelectedIncluded(rules: seq<Rule>, bag: Bag, r: Rule)
    requires r in rules && Selected(r, bag)
    ensures Includes(ActionsOf(rules, bag), r.actions.value)
    decreases |rules|
  {
    hide Decide, RuleIsTcp, IsTcp;
    var last, front := rules[|rules| - 1], rules[..|rules| - 1];
    var more := if Selected(last, bag) then last.actions.value else [];
    if r == last {
      assert ActionsOf(rules, bag) == ActionsOf(front, bag) + r.actions.value + [];
    } else {
      assert r in front;
      SelectedIncluded(front, bag, r);
      var a, b :| ActionsOf(front, bag) == a + r.actions.value + b;
      assert ActionsOf(rules, bag) == a + r.actions.value + (b + more);
    }
  }

  /**
   A rule whose last conjunct about the protocol asks for tcp is selected on a TCP request on which it
   is true, and its actions are in the result.
   */
  lemma TcpRuleSelected(rules: seq<Rule>, bag: Bag, r: Rule, e: Expr)
    requires r in rules && r.actions.Some? && r.condition == Some(e) && Eval(e, bag) == Ok(Some(Boolean(true)))
    requires LastCompared(Conjuncts(e), "context.protocol", Str("tcp"))
    requires "context.protocol" in bag && bag["context.protocol"] == Str("tcp")
    ensures Includes(ActionsOf(rules, bag), r.actions.value)
  {
    hide Tagged, LastCompared, Conjuncts, ActionsOf, Eval;
    TaggedExactly(e);
    SelectedIncluded(rules, bag, r);
  }

  /** On any other request the same holds of the rules that are neither labelled nor tagged. */
  lemma OtherRuleSelected(rules: seq<Rule>, bag: Bag, r: Rule, e: Expr)
    requires r in rules && r.actions.Some? && r.condition == Some(e) && Eval(e, bag) == Ok(Some(Boolean(true)))
    requires !r.labelledTcp && !LastCompared(Conjuncts(e), "context.protocol", Str("tcp"))
    requires !("context.protocol" in bag && bag["context.protocol"] == Str("tcp"))
    ensures Includes(ActionsOf(rules, bag), r.actions.value)
  {
    hide Tagged, LastCompared, Conjuncts, ActionsOf, Eval;
    TaggedExactly(e);
    SelectedIncluded(rules, bag, r);
  }

  /** A rule of the other kind is passed over: its match is not evaluated, and its actions are not taken. */
  lemma OtherKindSkipped(bag: Bag, r: Rule, e: Expr)
    requires r.condition == Some(e)
    requires (r.labelledTcp || LastCompared(Conjuncts(e), "context.protocol", Str("tcp"))) !=
      ("context.protocol" in bag && bag["context.protocol"] == Str("tcp"))
    ensures !Selected(r, bag) && !Fails(r, bag)
  {
    hide Tagged, LastCompared, Conjuncts, Eval;
    TaggedExactly(e);
  }

  /** A rule of the right kind whose match is an error, or no truth value, makes the whole filter fail. */
  lemma UndecidedFails(bag: Bag, r: Rule, e: Expr)
    requires r.actions.Some? && r.condition == Some(e)
    requires (r.labelledTcp || LastCompared(Conjuncts(e), "context.protocol", Str("tcp"))) ==
      ("context.protocol" in bag && bag["context.protocol"] == Str("tcp"))
    ensures Fails(r, bag) <==> !(exists b :: Eval(e, bag) == Ok(Some(Boolean(b))))
  {
    hide Tagged, LastCompared, Conjuncts, Eval;
    TaggedExactly(e);
    if Decide(e, bag).Some? { DecidedExactly(e, bag, Decide(e, bag).value); }
    forall b | Eval(e, bag) == Ok(Some(Boolean(b))) ensures Decide(e, bag) == Some(b) { DecidedExactly(e, bag, b); }
  }

  /** All that is in the result comes from a selected rule. */
  lemma {:induction false} ActionsAreSelected(rules: seq<Rule>, bag: Bag, act: nat)
    requires act in ActionsOf(rules, bag)
    ensures exists r :: r in rules && Selected(r, bag) && act in r.actions.value
    decreases |rules|
  {
    hide Decide, RuleIsTcp, IsTcp;
    var last, front := rules[|rules| - 1], rules[..|rules| - 1];
    if act in ActionsOf(front, bag) {
      ActionsAreSelected(front, bag, act);
      var r :| r in front && Selected(r, bag) && act in r.actions.value;
      assert r in rules;
    } else {
      assert last in rules;
    }
  }
}

/** Reading what the writer wrote: exactly when the function comes back, and what comes back otherwise. */
module WrittenText {
  import opened Values
  import opened Words
  import opened Opcodes
  import opened Keywords
  import opened Decimals
  import opened Scanners
  import opened Assembly
  import opened Parsing
  import opened TextRoundTrip
  import opened Writing

  // ----- exactly when the function comes back -----

  /** The scan stays within the code and finds the target of every jump, and every target starts an instruction. */
  ghost predicate TargetsFound(code: seq<nat>, address: nat, inss: seq<Ins>) {
    var ls := ScanLabels(code, address, address + CodeSize(inss), []);
    ls.Some? && forall t :: t in Targets(inss, []) ==> t + address in ls.value && StartsAt(inss, 0, t)
  }

  lemma RelativeHas(ls: seq<nat>, base: nat, t: nat)
    ensures t in Relative(ls, base) <==> t + base in ls
  {
    if t in Relative(ls, base) {
      var i :| 0 <= i < |ls| && Relative(ls, base)[i] == t;
      assert ls[i] == t + base;
    }
    if t + base in ls {
      var i :| 0 <= i < |ls| && ls[i] == t + base;
      assert Relative(ls, base)[i] == t;
    }
  }

  /**
   What is written for a function reads back as the function exactly if its targets are found and start
   instructions.
   */
  lemma WrittenReadsBack(code: seq<nat>, address: nat, f: Fun, tab: seq<string>)
    requires FnShaped(f) && AllKnown(f.inss)
    ensures var text := Written(code, address, f);
      (text.Some? && ReadsBack(text.value, f, tab)) <==> TargetsFound(code, address, f.inss)
  {
    hide ScanLabels, PrintWith, ReadsBack, FnShaped, StartsAt, Targets, Relative;
    var ls := ScanLabels(code, address, address + CodeSize(f.inss), []);
    if ls.Some? {
      PrintedReadsBack(f, Relative(ls.value, address), "", tab);
      forall t: nat ensures t in Relative(ls.value, address) <==> t + address in ls.value {
        RelativeHas(ls.value, address, t);
      }
    }
  }

  /** Where no high word of an integer is an opcode with operands, jumps that lead to instructions are enough. */
  lemma FoundIfHighWordsOK(code: seq<nat>, address: nat, inss: seq<Ins>, tab: seq<string>)
    requires InssShaped(inss) && HighWordsOK(inss) && CodeAt(code, address, inss, tab, address)
    ensures TargetsFound(code, address, inss) <==> JumpsWithin(inss)
  {
    hide ScanLabels, StartsAt, Targets, CodeAt, HighWordsOK, InssShaped;
    var ts := Targets(inss, []);
    ScanFindsTargets(code, address, inss, tab, address, []);
    assert Moved([], address) == [];
    forall t: nat ensures t + address in Moved(ts, address) <==> t in ts { MovedHas(ts, address, t); }
    if JumpsWithin(inss) {
      forall t | t in ts ensures StartsAt(inss, 0, t) {
        var i :| 0 <= i < |ts| && ts[i] == t;
      }
    }
  }

  /** Writes a function and reads its text back, into any string table. */
  method WriteAndRead(code: seq<nat>, address: nat, f: Fun, tab: seq<string>, strings: seq<string>) returns (same: bool)
    requires FnShaped(f) && AllKnown(f.inss) && CodeAt(code, address, f.inss, tab, address)
    ensures same <==> TargetsFound(code, address, f.inss)
    ensures HighWordsOK(f.inss) && JumpsWithin(f.inss) ==> same
  {
    hide TargetsFound, Written, ReadsBack, CodeAt, HighWordsOK, InssOK, JumpsWithin, CodeSize;
    ShapedParts(f);
    var text := WriteFn(code, address, CodeSize(f.inss), f.name, f.params, f.ret, tab, f.inss);
    WrittenReadsBack(code, address, f, strings);
    same := text.Some? && ReadsBack(text.value, f, strings);
    if HighWordsOK(f.inss) { FoundIfHighWordsOK(code, address, f.inss, tab); }
  }

  lemma ShapedParts(f: Fun)
    requires FnShaped(f)
    ensures InssShaped(f.inss)
  {
    hide InsShaped, OperandsOK;
  }

  // ----- what comes back otherwise -----

  /** A jump whose target was missed reads as a jump to the first target found. */
  function RedirectOperand(o: Operand, labels: seq<int>): Operand {
    if o.OAddress? && o.t !in labels && labels != [] && labels[0] >= 0 then OAddress(labels[0]) else o
  }

  function RedirectOperands(os: seq<Operand>, labels: seq<int>): (r: seq<Operand>)
    ensures |r| == |os|
  {
    if os == [] then [] else [RedirectOperand(os[0], labels)] + RedirectOperands(os[1..], labels)
  }

  function Redirect(inss: seq<Ins>, labels: seq<int>): (r: seq<Ins>)
    ensures |r| == |inss|
  {
    if inss == [] then []
    else [inss[0].(operands := RedirectOperands(inss[0].operands, labels))] + Redirect(inss[1..], labels)
  }

  lemma {:induction false} OperandsRedirected(os: seq<Operand>, labels: seq<int>, tail: string)
    requires labels != [] && labels[0] >= 0
    ensures PrintOperands(RedirectOperands(os, labels), labels, tail) == PrintOperands(os, labels, tail)
    ensures OperandsSize(RedirectOperands(os, labels)) == OperandsSize(os)
    ensures OperandsOK(os) ==> OperandsOK(RedirectOperands(os, labels))
    ensures forall args :: AllSuit(args, os) ==> AllSuit(args, RedirectOperands(os, labels))
    decreases |os|
  {
    hide Decimal, Escape, Printed, LabelIndex;
    if os != [] {
      OperandsRedirected(os[1..], labels, tail);
      var o, rest := RedirectOperand(os[0], labels), RedirectOperands(os[1..], labels);
      var all := RedirectOperands(os, labels);
      assert all[0] == o && all[1..] == rest;
      FirstNumber(labels);
      assert PrintOperand(o, labels, PrintOperands(rest, labels, tail)) ==
        PrintOperand(os[0], labels, PrintOperands(rest, labels, tail));
      if OperandsOK(os) {
        assert OperandOK(os[0]) && OperandsOK(os[1..]);
      }
    }
  }

  lemma FirstNumber(labels: seq<int>)
    requires labels != []
    ensures LabelNumber(labels, labels[0]) == 0
  {
  }

  lemma {:induction false} NothingRedirected(inss: seq<Ins>, labels: seq<int>)
    requires labels == [] || labels[0] < 0
    ensures Redirect(inss, labels) == inss
    decreases |inss|
  {
    if inss != [] {
      OperandsUnchanged(inss[0].operands, labels);
      NothingRedirected(inss[1..], labels);
    }
  }

  lemma {:induction false} OperandsUnchanged(os: seq<Operand>, labels: seq<int>)
    requires labels == [] || labels[0] < 0
    ensures RedirectOperands(os, labels) == os
    decreases |os|
  {
    if os != [] { OperandsUnchanged(os[1..], labels); }
  }

  /** The text of a function and of the redirected one are the same. */
  lemma {:induction false} RedirectedPrints(inss: seq<Ins>, labels: seq<int>, pos: nat, tail: string)
    requires labels != [] && labels[0] >= 0 && InssOK(inss) && AllKnown(inss)
    ensures InssOK(Redirect(inss, labels)) && AllKnown(Redirect(inss, labels))
    ensures PrintBody(Redirect(inss, labels), labels, pos, tail) == PrintBody(inss, labels, pos, tail)
    decreases |inss|
  {
    hide RedirectOperands, PrintOperands, OperandsOK, AllSuit, LabelText, Keyword, Known, Args, OperandsSize;
    if inss != [] {
      var ins, rest := inss[0], Redirect(inss[1..], labels);
      var to := ins.(operands := RedirectOperands(ins.operands, labels));
      assert InsOK(ins) && InssOK(inss[1..]) && AllKnown(inss[1..]);
      RedirectedPrints(inss[1..], labels, pos + InsSize(ins), tail);
      OperandsRedirected(ins.operands, labels, ['\n'] + PrintBody(inss[1..], labels, pos + InsSize(ins), tail));
      assert Redirect(inss, labels)[1..] == rest && Redirect(inss, labels)[0] == to;
      assert InsOK(to);
    }
  }

  lemma SizeKept(ins: Ins, labels: seq<int>)
    requires labels != [] && labels[0] >= 0
    ensures InsSize(ins.(operands := RedirectOperands(ins.operands, labels))) == InsSize(ins)
  {
    OperandsRedirected(ins.operands, labels, "");
  }

  lemma {:induction false} StartsRedirected(inss: seq<Ins>, labels: seq<int>, pos: nat, t: int)
    requires labels != [] && labels[0] >= 0
    ensures StartsAt(Redirect(inss, labels), pos, t) <==> StartsAt(inss, pos, t)
    decreases |inss|
  {
    hide RedirectOperands, OperandsSize;
    if inss != [] {
      SizeKept(inss[0], labels);
      var all := Redirect(inss, labels);
      assert all[0] == inss[0].(operands := RedirectOperands(inss[0].operands, labels));
      assert all[1..] == Redirect(inss[1..], labels);
      StartsRedirected(inss[1..], labels, pos + InsSize(inss[0]), t);
    }
  }

  /** Where the text makes a jump to `t` lead, if anywhere. */
  function Landing(labels: seq<int>, t: nat): int {
    if t in labels then t else if labels == [] then -1 else labels[0]
  }

  lemma {:induction false} OperandsAimed(os: seq<Operand>, labels: seq<int>, u: nat) returns (t: nat)
    requires OAddress(u) in RedirectOperands(os, labels) && labels != [] && labels[0] >= 0
    ensures OAddress(t) in os && u == Landing(labels, t)
    decreases |os|
  {
    if RedirectOperand(os[0], labels) == OAddress(u) {
      t := os[0].t;
    } else {
      t := OperandsAimed(os[1..], labels, u);
    }
  }

  /** A redirected jump leads to where the text made one of the jumps lead. */
  lemma {:induction false} RedirectedAimed(inss: seq<Ins>, labels: seq<int>, u: nat) returns (t: nat)
    requires Aimed(Redirect(inss, labels), u) && labels != [] && labels[0] >= 0
    ensures Aimed(inss, t) && u == Landing(labels, t)
    decreases |inss|
  {
    hide RedirectOperands, Landing;
    var all := Redirect(inss, labels);
    assert all[0].operands == RedirectOperands(inss[0].operands, labels) && all[1..] == Redirect(inss[1..], labels);
    if OAddress(u) in all[0].operands {
      t := OperandsAimed(inss[0].operands, labels, u);
    } else {
      t := RedirectedAimed(inss[1..], labels, u);
    }
  }

  ghost predicate AllLandSomewhere(inss: seq<Ins>, labels: seq<int>) {
    forall t :: t in Targets(inss, []) ==> StartsAt(inss, 0, Landing(labels, t))
  }

  /** Then the redirected jumps all lead to instructions. */
  lemma RedirectedLands(inss: seq<Ins>, labels: seq<int>)
    requires AllLandSomewhere(inss, labels)
    ensures AllLand(Redirect(inss, labels), labels)
  {
    hide Redirect, StartsAt, Targets, Aimed;
    var to := Redirect(inss, labels);
    if labels == [] || labels[0] < 0 {
      NothingRedirected(inss, labels);
      forall t | t in Targets(inss, [])
          ensures t in labels && StartsAt(inss, 0, t) { StartsForward(inss, 0, Landing(labels, t)); }
    } else {
      forall u | u in Targets(to, []) ensures u in labels && StartsAt(to, 0, u) {
        TargetsAre(to, [], u);
        var t := RedirectedAimed(inss, labels, u);
        TargetsAre(inss, [], t);
        StartsRedirected(inss, labels, 0, u);
      }
    }
  }

  lemma {:induction false} StartsForward(inss: seq<Ins>, pos: nat, t: int)
    requires StartsAt(inss, pos, t)
    ensures t >= pos
    decreases |inss|
  {
    if t != pos { StartsForward(inss[1..], pos + InsSize(inss[0]), t); }
  }

  /** Labels with one text lead to one place. */
  lemma OnePlace(labels: seq<int>, t: nat, u: nat)
    requires u in labels && LabelText(labels, t) == LabelText(labels, u)
    ensures u == Landing(labels, t)
  {
    hide Decimal, LabelIndex;
    if t in labels {
      LabelsDiffer(labels, t, u);
    } else {
      FirstNumber(labels);
      LabelsDiffer(labels, labels[0], u);
    }
  }

  lemma SomeJumpLost(inss: seq<Ins>, labels: seq<int>, tab: seq<string>)
    requires !AllLandSomewhere(inss, labels)
    ensures Resolve(Lines(inss, labels, tab)) == None
  {
    hide StartsAt, Targets, LabelText, Landing, Resolve, Lines;
    var t :| t in Targets(inss, []) && !StartsAt(inss, 0, Landing(labels, t));
    forall u ensures !Names(inss, 0, labels, LabelText(labels, t), u) {
      if Names(inss, 0, labels, LabelText(labels, t), u) { OnePlace(labels, t, u); }
    }
    LabelNeverSet(inss, labels, tab, t);
  }

  /**
   What reading gives for any function and any labels: the function with its missed jumps redirected
   to the first label, if then every jump leads to an instruction; and an error otherwise.
   */
  lemma ReadsAsRedirected(f: Fun, labels: seq<int>, tail: string, tab: seq<string>)
    requires FnShaped(f) && AllKnown(f.inss)
    ensures var text := PrintWith(f, labels, tail);
      if AllLandSomewhere(f.inss, labels) then ReadsBack(text, f.(inss := Redirect(f.inss, labels)), tab)
      else ParseFunctionDef(Next(text), tab) == None
  {
    hide AllLandSomewhere, Redirect, PrintBody, ReadsBack, Next, ParseFunctionDef, Resolve, Lines, AllLand;
    var g := f.(inss := Redirect(f.inss, labels));
    if AllLandSomewhere(f.inss, labels) {
      if labels == [] || labels[0] < 0 { NothingRedirected(f.inss, labels); }
      else { RedirectedPrints(f.inss, labels, 0, tail); }
      RedirectedLands(f.inss, labels);
      PrintedReadsBack(g, labels, tail, tab);
    } else {
      SomeJumpLost(f.inss, labels, tab);
      var r := PrintedParses(f, labels, tail, tab);
    }
  }

  // ----- a function that comes back as another one -----

  const FIRST := Ins(JMP, [OAddress(2)])
  const PUSH := Ins(APUSH_I, [OInt(JMP * TWO32)])
  const SECOND := Ins(JMP, [OAddress(7)])
  const LOOP := Ins(JMP, [OAddress(2)])
  const LAST := Ins(RET, [])

  /** An integer whose high word is the opcode of a jump, before a jump to the end. */
  const ASTRAY := Fun("f", [], Void, [FIRST, PUSH, SECOND, LAST])

  /** The same with the second jump back to the push. */
  const MISREAD := Fun("f", [], Void, [FIRST, PUSH, LOOP, LAST])

  /** The program that holds the function alone. */
  const ASTRAY_CODE: seq<nat> := [HALT, HALT, JMP, 4, APUSH_I, 0, JMP, JMP, 9, RET]

  lemma HighOfJump()
    ensures High(JMP * TWO32) == JMP && Low(JMP * TWO32) == 0
  {
  }

  lemma OneSize(o: Operand)
    ensures OperandsSize([o]) == OperandSize(o) && forall a :: AllSuit([a], [o]) <==> Suits(a, o)
  {
    assert [o][1..] == [];
    assert forall a: Arg :: [a][1..] == [];
  }

  lemma AstraySizes()
    ensures InsSize(FIRST) == 2 && InsSize(PUSH) == 3 && InsSize(SECOND) == 2 && InsSize(LAST) == 1
    ensures ASTRAY.inss[1..] == [PUSH, SECOND, LAST] && ASTRAY.inss[1..][1..] == [SECOND, LAST]
    ensures ASTRAY.inss[1..][1..][1..] == [LAST] && ASTRAY.inss[1..][1..][1..][1..] == []
    ensures CodeSize([LAST]) == 1 && CodeSize([SECOND, LAST]) == 3 && CodeSize([PUSH, SECOND, LAST]) == 6
      && CodeSize(ASTRAY.inss) == 8
  {
    OneSize(OAddress(2));
    OneSize(OAddress(7));
    OneSize(OInt(JMP * TWO32));
    assert CodeSize([]) == 0 && [LAST][1..] == [] && [SECOND, LAST][1..] == [LAST];
    assert [PUSH, SECOND, LAST][1..] == [SECOND, LAST];
  }

  lemma AstrayPlaced()
    ensures CodeAt(ASTRAY_CODE, 2, ASTRAY.inss, [], 2)
  {
    hide CodeSize;
    AstraySizes();
    HighOfJump();
    var c := ASTRAY_CODE;
    assert OperandsAt(c, 10, [], [], 2) && CodeAt(c, 10, [], [], 2) && CodeAt(c, 9, [LAST], [], 2);
    assert OperandsAt(c, 8, SECOND.operands, [], 2) && CodeAt(c, 7, [SECOND, LAST], [], 2);
    assert OperandsAt(c, 5, PUSH.operands, [], 2) && CodeAt(c, 4, [PUSH, SECOND, LAST], [], 2);
    assert OperandsAt(c, 3, FIRST.operands, [], 2);
  }

  lemma NoteOne(code: seq<nat>, i: nat, a: Arg, ls: seq<nat>)
    requires i < |code|
    ensures NoteArgs(code, i, [a], ls) == Some(Note(ls, a, code[i]))
  {
    NoArgs(code, i + 1, Note(ls, a, code[i]));
    assert [a][1..] == [];
  }

  lemma AstrayArgs()
    ensures Args(JMP) == [ArgAddress] && Args(APUSH_I) == [ArgInt] && Args(9) == [] && Args(RET) == []
  {
  }

  lemma AstrayScan()
    ensures ScanLabels(ASTRAY_CODE, 2, 10, []) == Some([4, JMP])
  {
    hide ScanLabels, NoteArgs, Args;
    AstrayArgs();
    var c := ASTRAY_CODE;
    ScanStep(c, 2, 10, []);
    NoteOne(c, 3, ArgAddress, []);
    assert Note([], ArgAddress, 4) == [4];
    ScanStep(c, 4, 10, [4]);
    NoteOne(c, 5, ArgInt, [4]);
    ScanStep(c, 6, 10, [4]);
    NoteOne(c, 7, ArgAddress, [4]);
    assert Note([4], ArgAddress, JMP) == [4, JMP];
    ScanStep(c, 8, 10, [4, JMP]);
    NoArgs(c, 9, [4, JMP]);
    ScanStep(c, 9, 10, [4, JMP]);
    NoArgs(c, 10, [4, JMP]);
    ScanEnds(c, 10, [4, JMP]);
  }

  lemma AstrayAims(t: nat)
    ensures t in Targets(ASTRAY.inss, []) <==> t in [2, 7]
    ensures StartsAt(ASTRAY.inss, 0, 2) && StartsAt(ASTRAY.inss, 0, 7)
  {
    hide CodeSize, InsSize;
    AstraySizes();
    TargetsAre(ASTRAY.inss, [], t);
    assert Aimed([LAST], t) <==> OAddress(t) in LAST.operands;
    assert Aimed([SECOND, LAST], t) <==> t == 7;
    assert Aimed([PUSH, SECOND, LAST], t) <==> t == 7;
    assert StartsAt([LAST], 7, 7) && StartsAt([SECOND, LAST], 5, 7) && StartsAt([PUSH, SECOND, LAST], 2, 7);
  }

  lemma AstrayRedirect()
    ensures Redirect(ASTRAY.inss, [2, 198]) == MISREAD.inss
  {
    hide CodeSize, InsSize;
    AstraySizes();
    var l := [2, 198];
    OneOperand(OAddress(2), l);
    OneOperand(OAddress(7), l);
    OneOperand(OInt(JMP * TWO32), l);
    assert Redirect([], l) == [] && Redirect([LAST], l) == [LAST];
    assert Redirect([SECOND, LAST], l) == [LOOP] + [LAST];
    assert Redirect([PUSH, SECOND, LAST], l) == [PUSH] + ([LOOP] + [LAST]);
  }

  lemma OneOperand(o: Operand, labels: seq<int>)
    ensures RedirectOperands([o], labels) == [RedirectOperand(o, labels)]
  {
    assert [o][1..] == [];
  }

  lemma AstrayShaped()
    ensures FnOK(ASTRAY) && AllKnown(ASTRAY.inss)
  {
    hide Targets, StartsAt;
    var a := ASTRAY.inss;
    forall t: nat ensures t in Targets(a, []) ==> StartsAt(a, 0, t) { AstrayAims(t); }
    AstrayArgs();
    OneSize(OAddress(2));
    OneSize(OAddress(7));
    OneSize(OInt(JMP * TWO32));
    assert AllSuit(Args(JMP), FIRST.operands) && AllSuit(Args(APUSH_I), PUSH.operands)
      && AllSuit(Args(JMP), SECOND.operands);
    assert AllSuit(Args(RET), LAST.operands);
    assert InsOK(FIRST) && InsOK(PUSH) && InsOK(SECOND) && InsOK(LAST);
    assert IsWord("f") by { assert |"f"| == 1 && "f"[0] == 'f'; }
  }

  /**
   The scan takes the high word of the integer for a jump and misses the jump after it. The text is
   accepted, and reads as a function that loops where the one written returns.
   */
  lemma ScanGoesAstray(tab: seq<string>)
    ensures FnOK(ASTRAY) && AllKnown(ASTRAY.inss) && CodeAt(ASTRAY_CODE, 2, ASTRAY.inss, [], 2)
    ensures ScanLabels(ASTRAY_CODE, 2, 10, []) == Some([4, JMP])
    ensures Written(ASTRAY_CODE, 2, ASTRAY).Some? && ReadsBack(Written(ASTRAY_CODE, 2, ASTRAY).value, MISREAD, tab)
  {
    hide ScanLabels, ReadsBack, Redirect, CodeAt, FnShaped, AllKnown, JumpsWithin, Targets, StartsAt, PrintWith,
      CodeSize, InsSize;
    AstrayShaped();
    AstrayPlaced();
    AstrayScan();
    AstraySizes();
    AstrayRedirect();
    var labels := Relative([4, JMP], 2);
    assert labels == [2, 198];
    forall t | t in Targets(ASTRAY.inss, []) ensures StartsAt(ASTRAY.inss, 0, Landing(labels, t)) { AstrayAims(t); }
    ReadsAsRedirected(ASTRAY, labels, "", tab);
  }
}

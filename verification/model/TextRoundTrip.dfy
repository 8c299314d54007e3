/** Parsing what was printed gives the same function back. */
module TextRoundTrip {
  import opened Values
  import opened Words
  import opened StringTables
  import opened Opcodes
  import opened Keywords
  import opened Decimals
  import opened Scanners
  import opened Assembly
  import opened Parsing

  // ----- what the parser builds, instruction by instruction -----

  function AddOperand(p: Partial, o: Operand, labels: seq<int>): Partial {
    match o
    case OString(s) => AddString(p, s)
    case OFunction(s) => AddString(p, s)
    case ORegister(n) => p.(body := p.body + [n])
    case OInt(i) => p.(body := p.body + [Low(i), High(i)])
    case OBool(b) => p.(body := p.body + [BoolToByteCode(b)])
    case OAddress(t) => p.(body := p.body + [0], fixups := p.fixups[|p.body| := LabelText(labels, t)])
  }

  function AddOperands(p: Partial, os: seq<Operand>, labels: seq<int>): Partial
    decreases |os|
  {
    if os == [] then p else AddOperands(AddOperand(p, os[0], labels), os[1..], labels)
  }

  function AddLabel(p: Partial, labels: seq<int>): Partial {
    if |p.body| in labels then p.(labels := p.labels[LabelText(labels, |p.body|) := |p.body|]) else p
  }

  function AddIns(p: Partial, ins: Ins, labels: seq<int>): Partial {
    var q := AddLabel(p, labels);
    AddOperands(q.(body := q.body + [ins.op]), ins.operands, labels)
  }

  function AddAll(p: Partial, inss: seq<Ins>, labels: seq<int>): Partial
    decreases |inss|
  {
    if inss == [] then p else AddAll(AddIns(p, inss[0], labels), inss[1..], labels)
  }

  // ----- operands -----

  /** The scanner has read a token, and this is what follows. */
  predicate Before(cur: Scanned, rest: string) {
    !AtEnd(cur) && cur.rest == rest
  }

  lemma DigitsWord(w: string, n: nat)
    requires w == "r" + Decimal(n) || w == "L" + Decimal(n)
    ensures IsWord(w)
  {
    forall i | 0 <= i < |w| ensures WordChar(w[i]) {
      if i > 0 { assert w[i] == Decimal(n)[i - 1]; }
    }
  }

  lemma RegisterOf(n: nat)
    ensures Register("r" + Decimal(n)) == Some(n)
  {
    var w := "r" + Decimal(n);
    assert w[1..] == Decimal(n);
    forall i | 1 <= i < |w| ensures IsDigit(w[i]) { assert w[i] == Decimal(n)[i - 1]; }
    DecimalRoundTrip(n);
  }

  lemma WordNext(cur: Scanned, w: string, tail: string)
    requires Before(cur, [' '] + (w + tail)) && IsWord(w) && Delimited(tail)
    ensures NextOrFail(cur) == Some(Scanned(TkIdentifier, w, tail, IdentifierOrLabel))
  {
    hide Next;
    Punctuation(w + tail);
    WordScanned(w, tail);
  }

  lemma BlankIsBounded(tail: string)
    requires Blank(tail)
    ensures Delimited(tail)
  {
  }

  lemma BoolWords()
    ensures IsWord("true") && IsWord("false") && "true" != "false"
  {
    assert |"true"| != |"false"|;
  }

  lemma StringNext(cur: Scanned, s: string, tail: string) returns (r: Scanned)
    requires Before(cur, [' '] + (['"'] + (Escape(s) + (['"'] + tail)))) && Quotable(s)
    ensures NextOrFail(cur) == Some(r) && Before(r, tail) && AsStringLiteral(r) == Some(s)
  {
    hide Next;
    Punctuation(['"'] + (Escape(s) + (['"'] + tail)));
    QuotedScanned(s, tail);
    r := Next(cur.rest);
  }

  lemma IntNext(cur: Scanned, i: int64, tail: string) returns (r: Scanned)
    requires Before(cur, [' '] + (Printed(i) + tail)) && Blank(tail)
    ensures NextOrFail(cur) == Some(r) && Before(r, tail) && AsIntegerLiteral(r) == Some(i)
  {
    hide Next;
    Punctuation(Printed(i) + tail);
    IntegerScanned(i, tail);
    r := Next(cur.rest);
  }

  lemma OperandParsed(a: Arg, o: Operand, labels: seq<int>, cur: Scanned, tail: string, p: Partial) returns (r: Scanned)
    requires Suits(a, o) && OperandOK(o) && Blank(tail) && Before(cur, [' '] + PrintOperand(o, labels, tail))
    ensures NextOrFail(cur) == Some(r) && Before(r, tail) && ParseOperand(a, r, p) == Some(AddOperand(p, o, labels))
  {
    hide Next, NextOrFail, AsStringLiteral, AsIntegerLiteral, Decimal, Escape, Printed, Register, IsWord, Quotable,
      LabelNumber;
    BlankIsBounded(tail);
    match o {
      case OString(s) => r := StringNext(cur, s, tail);
      case OFunction(s) => WordNext(cur, s, tail); r := NextOrFail(cur).value;
      case ORegister(n) => DigitsWord("r" + Decimal(n), n); RegisterOf(n); WordNext(cur, "r" + Decimal(n), tail);
        r := NextOrFail(cur).value;
      case OInt(i) => r := IntNext(cur, i, tail);
      case OBool(b) => BoolWords(); WordNext(cur, if b then "true" else "false", tail); r := NextOrFail(cur).value;
      case OAddress(t) => DigitsWord(LabelText(labels, t), LabelNumber(labels, t));
        WordNext(cur, LabelText(labels, t), tail); r := NextOrFail(cur).value;
    }
  }

  lemma OperandsBlank(os: seq<Operand>, labels: seq<int>, tail: string)
    requires Blank(tail)
    ensures Blank(PrintOperands(os, labels, tail))
  {
  }

  lemma {:induction false} OperandsParsed(args: seq<Arg>, os: seq<Operand>, labels: seq<int>, cur: Scanned,
          tail: string, p: Partial)
    returns (r: Scanned)
    requires AllSuit(args, os) && OperandsOK(os) && Blank(tail) && Before(cur, PrintOperands(os, labels, tail))
    ensures ParseOperands(args, cur, p) == Some((r, AddOperands(p, os, labels))) && Before(r, tail)
    decreases |os|
  {
    hide PrintOperand, NextOrFail, ParseOperand, AddOperand, OperandOK;
    if os == [] {
      r := cur;
    } else {
      var next := PrintOperands(os[1..], labels, tail);
      OperandsBlank(os[1..], labels, tail);
      var c := OperandParsed(args[0], os[0], labels, cur, next, p);
      r := OperandsParsed(args[1..], os[1..], labels, c, tail, AddOperand(p, os[0], labels));
    }
  }

  // ----- lines -----

  lemma ControlWords(op: nat)
    ensures IsWord(ControlKeyword(op)) && ControlKeyword(op) != "end"
  {
    var k := ControlKeyword(op);
    assert k != "end" by { assert |k| == 3 ==> k[0] != 'e' || k[1] != 'n'; assert "end"[0] == 'e' && "end"[1] == 'n'; }
  }

  lemma StackWords(op: nat)
    ensures IsWord(StackKeyword(op)) && StackKeyword(op) != "end"
  {
    assert |StackKeyword(op)| > |"end"|;
  }

  lemma PushWords(op: nat)
    ensures IsWord(PushKeyword(op)) && PushKeyword(op) != "end"
  {
    assert |PushKeyword(op)| > |"end"|;
  }

  lemma CompareWords(op: nat)
    ensures IsWord(CompareKeyword(op)) && CompareKeyword(op) != "end"
  {
    var k := CompareKeyword(op);
    assert k != "end" by { assert |k| == 3 ==> k[0] != 'e' || k[1] != 'n'; assert "end"[0] == 'e' && "end"[1] == 'n'; }
  }

  lemma ResolveWords(op: nat)
    ensures IsWord(ResolveKeyword(op)) && ResolveKeyword(op) != "end"
  {
    assert |ResolveKeyword(op)| > |"end"|;
  }

  lemma ArithmeticWords(op: nat)
    ensures IsWord(ArithmeticKeyword(op)) && ArithmeticKeyword(op) != "end"
  {
    assert |ArithmeticKeyword(op)| > |"end"|;
  }

  lemma FlowWords(op: nat)
    ensures IsWord(FlowKeyword(op)) && FlowKeyword(op) != "end"
  {
    var k := FlowKeyword(op);
    assert k != "end" by { assert |k| == 3 ==> k[0] != 'e' || k[1] != 'n'; assert "end"[0] == 'e' && "end"[1] == 'n'; }
  }

  lemma KeywordIsWord(op: nat)
    requires Known(op)
    ensures IsWord(Keyword(op)) && Keyword(op) != "end" && GetOpcode(Keyword(op)) == Some(op)
  {
    hide IsWord, GetOpcode, ControlKeyword, StackKeyword, PushKeyword, CompareKeyword, ResolveKeyword,
      ArithmeticKeyword, FlowKeyword;
    OpcodeOfKeyword(op, Keyword(op));
    if op <= 4 { ControlWords(op); }
    else if op <= 33 { StackWords(op); }
    else if op <= 53 { PushWords(op); }
    else if op <= 86 { CompareWords(op); }
    else if op <= 104 { ResolveWords(op); }
    else if op <= 117 { ArithmeticWords(op); }
    else { FlowWords(op); }
  }

  /** A line break has been read, and this is what follows. */
  predicate AtLine(cur: Scanned, rest: string) {
    Before(cur, rest) && cur.token == TkNewLine
  }

  lemma KeywordNext(cur: Scanned, w: string, tail: string)
    requires AtLine(cur, [' '] + ([' '] + (w + tail))) && IsWord(w) && Delimited(tail)
    ensures SkipNewlines(cur) == Scanned(TkIdentifier, w, tail, IdentifierOrLabel)
  {
    hide Next;
    Punctuation([' '] + (w + tail));
    Punctuation(w + tail);
    WordScanned(w, tail);
  }

  lemma NewLineNext(cur: Scanned, tail: string)
    requires Before(cur, ['\n'] + tail)
    ensures NextOrFail(cur) == NextToken(cur, TkNewLine) == Some(Scanned(TkNewLine, "\n", tail, Scan))
  {
    hide Next;
    Punctuation(tail);
  }

  lemma InsParsed(ins: Ins, labels: seq<int>, cur: Scanned, tail: string, p: Partial)
    requires InsOK(ins) && AtLine(cur, PrintIns(ins, labels, tail))
    ensures var q := AddOperands(p.(body := p.body + [ins.op]), ins.operands, labels);
      ParseLines(cur, p) == ParseLines(Scanned(TkNewLine, "\n", tail, Scan), q)
  {
    hide Next, NextOrFail, NextToken, SkipNewlines, Keyword, GetOpcode, ParseOperands, AddOperands, PrintOperands,
      IsWord, AllSuit, OperandsOK, Args;
    var after := PrintOperands(ins.operands, labels, ['\n'] + tail);
    KeywordIsWord(ins.op);
    OperandsBlank(ins.operands, labels, ['\n'] + tail);
    BlankIsBounded(after);
    KeywordNext(cur, Keyword(ins.op), after);
    var c := SkipNewlines(cur);
    var r := OperandsParsed(Args(ins.op), ins.operands, labels, c, ['\n'] + tail, p.(body := p.body + [ins.op]));
    NewLineNext(r, tail);
  }

  lemma LabelParsed(labels: seq<int>, cur: Scanned, tail: string, p: Partial)
    requires AtLine(cur, PrintLabel(labels, |p.body|, tail))
    ensures |p.body| in labels ==>
      ParseLines(cur, p) == ParseLines(Scanned(TkNewLine, "\n", tail, Scan), AddLabel(p, labels))
    ensures |p.body| !in labels ==> cur.rest == tail && AddLabel(p, labels) == p
  {
    hide Decimal, LabelNumber, NextToken, Loop, IsWord;
    if |p.body| in labels {
      var w := LabelText(labels, |p.body|);
      DigitsWord(w, LabelNumber(labels, |p.body|));
      LabelScanned(w, ['\n'] + tail);
      var c := Scanned(TkLabel, w + [':'], ['\n'] + tail, IdentifierOrLabel);
      assert SkipNewlines(cur) == c;
      assert (w + [':'])[..|w + [':']| - 1] == w;
      NewLineNext(c, tail);
    }
  }

  lemma {:induction false} LinesParsed(inss: seq<Ins>, labels: seq<int>, cur: Scanned, tail: string, p: Partial)
    returns (r: Scanned)
    requires InssOK(inss) && AllKnown(inss) && AtLine(cur, PrintBody(inss, labels, |p.body|, tail))
    ensures ParseLines(cur, p) == Some((r, AddAll(p, inss, labels))) && Before(r, ['\n'] + tail)
    decreases |inss|
  {
    hide PrintIns, PrintLabel, ParseLines, InsOK, AddLabel, AddOperands;
    if inss == [] {
      r := EndParsed(cur, tail, p);
    } else {
      assert InsOK(inss[0]);
      var q := AddLabel(p, labels);
      var next := PrintBody(inss[1..], labels, |p.body| + InsSize(inss[0]), tail);
      var line := PrintIns(inss[0], labels, next);
      LabelParsed(labels, cur, line, p);
      AddedSizes(p, inss[0], labels);
      var c := if |p.body| in labels then Scanned(TkNewLine, "\n", line, Scan) else cur;
      InsParsed(inss[0], labels, c, next, q);
      r := LinesParsed(inss[1..], labels, Scanned(TkNewLine, "\n", next, Scan), tail, AddIns(p, inss[0], labels));
    }
  }

  lemma EndParsed(cur: Scanned, tail: string, p: Partial) returns (r: Scanned)
    requires AtLine(cur, "end" + (['\n'] + tail))
    ensures ParseLines(cur, p) == Some((r, p)) && Before(r, ['\n'] + tail)
  {
    hide Next, GetOpcode, ParseOperands;
    EndIsWord();
    WordScanned("end", ['\n'] + tail);
    r := Scanned(TkIdentifier, "end", ['\n'] + tail, IdentifierOrLabel);
    assert SkipNewlines(cur) == r;
  }

  lemma EndIsWord()
    ensures IsWord("end") && IsWord("fn")
  {
  }

  lemma {:induction false} OperandsSizes(p: Partial, os: seq<Operand>, labels: seq<int>)
    ensures |AddOperands(p, os, labels).body| == |p.body| + OperandsSize(os)
    decreases |os|
  {
    if os != [] { OperandsSizes(AddOperand(p, os[0], labels), os[1..], labels); }
  }

  lemma AddedSizes(p: Partial, ins: Ins, labels: seq<int>)
    ensures |AddIns(p, ins, labels).body| == |p.body| + InsSize(ins) && |AddLabel(p, labels).body| == |p.body|
  {
    var q := AddLabel(p, labels);
    OperandsSizes(q.(body := q.body + [ins.op]), ins.operands, labels);
  }

  // ----- the code that was built -----

  /** Word `i` of what was built is the word `w`, or a hole for the label at `w`. */
  predicate WordIs(p: Partial, i: nat, w: nat, labels: seq<int>, aims: seq<nat>)
    requires i < |p.body|
  {
    if i in p.fixups then p.fixups[i] == LabelText(labels, w) && w in aims else p.body[i] == w
  }

  /** From `p` to `q` the words `code` were added, with holes for labels. */
  ghost predicate Built(p: Partial, q: Partial, code: seq<nat>, labels: seq<int>, aims: seq<nat>) {
    && |q.body| == |p.body| + |code| && p.tab <= q.tab
    && (forall i :: 0 <= i < |p.body| ==> q.body[i] == p.body[i] && (i in q.fixups <==> i in p.fixups))
    && (forall i :: i in p.fixups && i < |p.body| ==> i in q.fixups && q.fixups[i] == p.fixups[i])
    && (forall i :: 0 <= i < |code| ==> WordIs(q, |p.body| + i, code[i], labels, aims))
  }

  ghost predicate HolesWithin(p: Partial) {
    forall i :: i in p.fixups ==> i < |p.body|
  }

  lemma BuiltTwice(p: Partial, q: Partial, r: Partial, c: seq<nat>, d: seq<nat>, labels: seq<int>, aims: seq<nat>)
    requires Built(p, q, c, labels, aims) && Built(q, r, d, labels, aims)
    ensures Built(p, r, c + d, labels, aims)
  {
    hide LabelText;
    forall i | 0 <= i < |c + d| ensures WordIs(r, |p.body| + i, (c + d)[i], labels, aims) {
      if i < |c| {
        assert WordIs(q, |p.body| + i, c[i], labels, aims);
      } else {
        assert WordIs(r, |q.body| + (i - |c|), d[i - |c|], labels, aims);
      }
    }
  }

  lemma BuiltWord(p: Partial, w: nat, labels: seq<int>, aims: seq<nat>)
    requires HolesWithin(p)
    ensures Built(p, p.(body := p.body + [w]), [w], labels, aims) && HolesWithin(p.(body := p.body + [w]))
  {
  }

  /** The strings of an operand are in the table that it is read with. */
  predicate InTable(o: Operand, tab: seq<string>) {
    (o.OString? ==> o.s in tab) && (o.OFunction? ==> o.name in tab)
  }

  lemma OperandBuilt(p: Partial, o: Operand, tab: seq<string>, labels: seq<int>, aims: seq<nat>)
    requires HolesWithin(p) && AddOperand(p, o, labels).tab <= tab && (o.OAddress? ==> o.t in aims)
    ensures Built(p, AddOperand(p, o, labels), OperandWords(o, tab, 0), labels, aims)
      && HolesWithin(AddOperand(p, o, labels))
  {
    hide LabelText, IndexOf;
    match o {
      case OString(s) => IdStable(Intern(p.tab, s), tab, s);
      case OFunction(s) => IdStable(Intern(p.tab, s), tab, s);
      case _ =>
    }
  }

  predicate AddressesIn(os: seq<Operand>, aims: seq<nat>) {
    forall i :: 0 <= i < |os| && os[i].OAddress? ==> os[i].t in aims
  }

  lemma OperandTable(p: Partial, o: Operand, labels: seq<int>)
    ensures AddOperand(p, o, labels).tab == InternAll(p.tab, StringIn(o)) && AddOperand(p, o, labels).labels == p.labels
  {
    hide LabelText;
    NoStrings(p.tab);
    if o.OString? { OneString(p.tab, o.s); } else if o.OFunction? { OneString(p.tab, o.name); }
  }

  lemma OneString(tab: seq<string>, s: string)
    ensures InternAll(tab, [s]) == Intern(tab, s)
  {
    assert [s][..0] == [];
  }

  lemma {:induction false} OperandsTable(p: Partial, os: seq<Operand>, labels: seq<int>)
    ensures AddOperands(p, os, labels).tab == InternAll(p.tab, StringsIn(os))
    ensures AddOperands(p, os, labels).labels == p.labels
    decreases |os|
  {
    hide InternAll, AddOperand, StringIn;
    if os == [] {
      NoStrings(p.tab);
    } else {
      OperandTable(p, os[0], labels);
      OperandsTable(AddOperand(p, os[0], labels), os[1..], labels);
      InternAllConcat(p.tab, StringIn(os[0]), StringsIn(os[1..]));
    }
  }

  lemma {:induction false} OperandsBuilt(p: Partial, os: seq<Operand>, tab: seq<string>, labels: seq<int>,
          aims: seq<nat>)
    requires HolesWithin(p) && AddOperands(p, os, labels).tab <= tab && AddressesIn(os, aims)
    ensures Built(p, AddOperands(p, os, labels), OperandsWords(os, tab, 0), labels, aims)
      && HolesWithin(AddOperands(p, os, labels))
    decreases |os|
  {
    hide AddOperand, OperandWords, Built;
    if os == [] {
      NothingBuilt(p, labels, aims);
    } else {
      var q := AddOperand(p, os[0], labels);
      OperandsTable(q, os[1..], labels);
      assert AddressesIn(os[1..], aims);
      OperandBuilt(p, os[0], tab, labels, aims);
      OperandsBuilt(q, os[1..], tab, labels, aims);
      BuiltTwice(p, q, AddOperands(q, os[1..], labels), OperandWords(os[0], tab, 0), OperandsWords(os[1..], tab, 0),
          labels, aims);
    }
  }

  lemma NothingBuilt(p: Partial, labels: seq<int>, aims: seq<nat>)
    ensures Built(p, p, [], labels, aims)
  {
  }

  lemma InsBuilt(p: Partial, ins: Ins, tab: seq<string>, labels: seq<int>, aims: seq<nat>)
    requires HolesWithin(p) && AddIns(p, ins, labels).tab <= tab && AddressesIn(ins.operands, aims)
    ensures Built(p, AddIns(p, ins, labels), [ins.op] + OperandsWords(ins.operands, tab, 0), labels, aims)
      && HolesWithin(AddIns(p, ins, labels))
    ensures AddIns(p, ins, labels).tab == InternAll(p.tab, StringsIn(ins.operands))
    ensures AddIns(p, ins, labels).labels == AddLabel(p, labels).labels
  {
    hide Built, AddOperands, OperandsWords, LabelText, AddressesIn;
    var q := AddLabel(p, labels);
    var r := q.(body := q.body + [ins.op]);
    LabelBuilt(p, labels, aims);
    BuiltWord(q, ins.op, labels, aims);
    OperandsTable(r, ins.operands, labels);
    OperandsBuilt(r, ins.operands, tab, labels, aims);
    BuiltTwice(q, r, AddOperands(r, ins.operands, labels), [ins.op], OperandsWords(ins.operands, tab, 0), labels, aims);
    var code := [ins.op] + OperandsWords(ins.operands, tab, 0);
    BuiltTwice(p, q, AddIns(p, ins, labels), [], code, labels, aims);
    assert [] + code == code;
  }

  lemma LabelBuilt(p: Partial, labels: seq<int>, aims: seq<nat>)
    requires HolesWithin(p)
    ensures Built(p, AddLabel(p, labels), [], labels, aims) && HolesWithin(AddLabel(p, labels))
      && AddLabel(p, labels).tab == p.tab
  {
    hide LabelText;
  }

  predicate AllAddressesIn(inss: seq<Ins>, aims: seq<nat>) {
    forall i :: 0 <= i < |inss| ==> AddressesIn(inss[i].operands, aims)
  }

  lemma {:induction false} AllTable(p: Partial, inss: seq<Ins>, labels: seq<int>)
    ensures AddAll(p, inss, labels).tab == InternAll(p.tab, StringsInAll(inss))
    decreases |inss|
  {
    hide AddOperands, InternAll, StringsIn;
    if inss == [] {
      NoStrings(p.tab);
    } else {
      var q := AddLabel(p, labels);
      OperandsTable(q.(body := q.body + [inss[0].op]), inss[0].operands, labels);
      AllTable(AddIns(p, inss[0], labels), inss[1..], labels);
      InternAllConcat(p.tab, StringsIn(inss[0].operands), StringsInAll(inss[1..]));
    }
  }

  lemma NoStrings(tab: seq<string>)
    ensures InternAll(tab, []) == tab
  {
  }

  lemma {:induction false} AllBuilt(p: Partial, inss: seq<Ins>, tab: seq<string>, labels: seq<int>, aims: seq<nat>)
    requires HolesWithin(p) && AddAll(p, inss, labels).tab <= tab && AllAddressesIn(inss, aims)
    ensures Built(p, AddAll(p, inss, labels), CodeOf(inss, tab, 0), labels, aims)
      && HolesWithin(AddAll(p, inss, labels))
    decreases |inss|
  {
    hide Built, AddIns, OperandsWords, AddressesIn, HolesWithin;
    if inss == [] {
      NothingBuilt(p, labels, aims);
    } else {
      var q := AddIns(p, inss[0], labels);
      assert AddressesIn(inss[0].operands, aims) && AllAddressesIn(inss[1..], aims);
      AllTable(q, inss[1..], labels);
      InsBuilt(p, inss[0], tab, labels, aims);
      AllBuilt(q, inss[1..], tab, labels, aims);
      BuiltTwice(p, q, AddAll(q, inss[1..], labels), [inss[0].op] + OperandsWords(inss[0].operands, tab, 0),
          CodeOf(inss[1..], tab, 0), labels, aims);
    }
  }

  // ----- labels -----

  /** Different targets have different labels. */
  lemma LabelsDiffer(labels: seq<int>, t: int, u: int)
    requires t in labels && u in labels && LabelText(labels, t) == LabelText(labels, u)
    ensures t == u
  {
    hide Decimal;
    var i, j := LabelIndex(labels, t), LabelIndex(labels, u);
    assert LabelText(labels, t)[1..] == Decimal(i) && LabelText(labels, u)[1..] == Decimal(j);
    DecimalInjective(i, j);
  }

  /** Where a label was set. */
  predicate Set(p: Partial, labels: seq<int>, t: nat) {
    LabelText(labels, t) in p.labels && p.labels[LabelText(labels, t)] == t
  }

  lemma AddLabelSets(p: Partial, labels: seq<int>, t: nat)
    requires t in labels && (t == |p.body| || Set(p, labels, t))
    ensures Set(AddLabel(p, labels), labels, t)
  {
    hide LabelText;
    if t != |p.body| && |p.body| in labels && LabelText(labels, t) == LabelText(labels, |p.body|) {
      LabelsDiffer(labels, t, |p.body|);
    }
  }

  /** Every target at which an instruction starts has its label set there. */
  lemma {:induction false} LabelsSet(p: Partial, inss: seq<Ins>, labels: seq<int>, t: nat)
    requires t in labels && (StartsAt(inss, |p.body|, t) || Set(p, labels, t))
    ensures Set(AddAll(p, inss, labels), labels, t)
    decreases |inss|
  {
    hide Set, AddOperands, LabelText;
    if inss != [] {
      var q := AddLabel(p, labels);
      OperandsTable(q.(body := q.body + [inss[0].op]), inss[0].operands, labels);
      AddedSizes(p, inss[0], labels);
      if t == |p.body| || Set(p, labels, t) {
        AddLabelSets(p, labels, t);
        SetStays(q, AddIns(p, inss[0], labels), labels, t);
      }
      LabelsSet(AddIns(p, inss[0], labels), inss[1..], labels, t);
    }
  }

  /** The label `l` names a target at which an instruction starts. */
  ghost predicate Names(inss: seq<Ins>, pos: nat, labels: seq<int>, l: string, t: nat) {
    t in labels && StartsAt(inss, pos, t) && l == LabelText(labels, t)
  }

  /** No other label is set. */
  lemma {:induction false} LabelsOnly(p: Partial, inss: seq<Ins>, labels: seq<int>, l: string)
    requires l in AddAll(p, inss, labels).labels
    ensures var at := AddAll(p, inss, labels).labels[l];
      (l in p.labels && p.labels[l] == at) || Names(inss, |p.body|, labels, l, at)
    decreases |inss|
  {
    hide AddOperands, LabelText;
    if inss != [] {
      var q := AddLabel(p, labels);
      OperandsTable(q.(body := q.body + [inss[0].op]), inss[0].operands, labels);
      AddedSizes(p, inss[0], labels);
      LabelsOnly(AddIns(p, inss[0], labels), inss[1..], labels, l);
    }
  }

  lemma SetStays(p: Partial, q: Partial, labels: seq<int>, t: nat)
    requires Set(p, labels, t) && q.labels == p.labels
    ensures Set(q, labels, t)
  {
  }

  /** A jump leads there. */
  predicate Aimed(inss: seq<Ins>, t: nat) {
    inss != [] && (OAddress(t) in inss[0].operands || Aimed(inss[1..], t))
  }

  /** The targets are what jumps lead to. */
  lemma {:induction false} TargetsAre(inss: seq<Ins>, labels: seq<nat>, t: nat)
    ensures t in Targets(inss, labels) <==> t in labels || Aimed(inss, t)
    decreases |inss|
  {
    if inss != [] {
      TargetsInAre(inss[0].operands, labels, t);
      TargetsAre(inss[1..], TargetsIn(inss[0].operands, labels), t);
    }
  }

  lemma {:induction false} TargetsInAre(os: seq<Operand>, labels: seq<nat>, t: nat)
    ensures t in TargetsIn(os, labels) <==> t in labels || OAddress(t) in os
    decreases |os|
  {
    if os != [] {
      TargetsInAre(os[1..], if os[0].OAddress? && os[0].t !in labels then labels + [os[0].t] else labels, t);
    }
  }

  /** A jump to `t` leaves a hole for the label of `t`. */
  lemma {:induction false} OperandsHole(p: Partial, os: seq<Operand>, tab: seq<string>, labels: seq<int>,
          aims: seq<nat>, t: nat)
    returns (i: nat)
    requires HolesWithin(p) && AddOperands(p, os, labels).tab <= tab && AddressesIn(os, aims) && OAddress(t) in os
    ensures var q := AddOperands(p, os, labels);
      && |p.body| <= i < |q.body| && i in q.fixups && q.fixups[i] == LabelText(labels, t)
      && i - |p.body| < OperandsSize(os) && OperandsWords(os, tab, 0)[i - |p.body|] == t
    decreases |os|
  {
    hide AddOperand, OperandWords, OperandSize, LabelText, Built, HolesWithin;
    var q := AddOperand(p, os[0], labels);
    OperandsTable(q, os[1..], labels);
    assert AddressesIn(os[1..], aims);
    OperandBuilt(p, os[0], tab, labels, aims);
    OperandAdds(p, os[0], tab, labels);
    OperandsSizes(q, os[1..], labels);
    if os[0] == OAddress(t) {
      i := |p.body|;
      OperandsBuilt(q, os[1..], tab, labels, aims);
      HoleStays(q, AddOperands(q, os[1..], labels), OperandsWords(os[1..], tab, 0), labels, aims, i);
    } else {
      i := OperandsHole(q, os[1..], tab, labels, aims, t);
    }
  }

  lemma OperandAdds(p: Partial, o: Operand, tab: seq<string>, labels: seq<int>)
    ensures var q := AddOperand(p, o, labels);
      && |q.body| == |p.body| + OperandSize(o)
      && (o.OAddress? ==>
            && |p.body| in q.fixups && q.fixups[|p.body|] == LabelText(labels, o.t)
            && OperandSize(o) == 1 && OperandWords(o, tab, 0)[0] == o.t)
  {
    hide LabelText;
  }

  lemma HoleStays(p: Partial, q: Partial, code: seq<nat>, labels: seq<int>, aims: seq<nat>, i: nat)
    requires Built(p, q, code, labels, aims) && i in p.fixups && i < |p.body|
    ensures i in q.fixups && q.fixups[i] == p.fixups[i] && i < |q.body|
  {
    hide WordIs;
  }

  lemma {:induction false} HoleFor(p: Partial, inss: seq<Ins>, tab: seq<string>, labels: seq<int>, aims: seq<nat>,
          t: nat)
    returns (i: nat)
    requires HolesWithin(p) && AddAll(p, inss, labels).tab <= tab && AllAddressesIn(inss, aims) && Aimed(inss, t)
    ensures var q := AddAll(p, inss, labels);
      && |p.body| <= i < |q.body| && i in q.fixups && q.fixups[i] == LabelText(labels, t)
      && i - |p.body| < CodeSize(inss) && CodeOf(inss, tab, 0)[i - |p.body|] == t
    decreases |inss|
  {
    hide Built, AddOperands, OperandsWords, LabelText, AddressesIn, HolesWithin, AddLabel;
    var ins, q := inss[0], AddIns(p, inss[0], labels);
    assert AddressesIn(ins.operands, aims) && AllAddressesIn(inss[1..], aims);
    AllTable(q, inss[1..], labels);
    InsBuilt(p, ins, tab, labels, aims);
    AddedSizes(p, ins, labels);
    if OAddress(t) in ins.operands {
      var l := AddLabel(p, labels);
      var r := l.(body := l.body + [ins.op]);
      LabelBuilt(p, labels, aims);
      BuiltWord(l, ins.op, labels, aims);
      OperandsTable(r, ins.operands, labels);
      i := OperandsHole(r, ins.operands, tab, labels, aims, t);
      AllBuilt(q, inss[1..], tab, labels, aims);
      HoleStays(q, AddAll(q, inss[1..], labels), CodeOf(inss[1..], tab, 0), labels, aims, i);
    } else {
      i := HoleFor(q, inss[1..], tab, labels, aims, t);
    }
  }

  lemma {:induction false} TargetsInKeep(os: seq<Operand>, labels: seq<nat>)
    ensures labels <= TargetsIn(os, labels) && AddressesIn(os, TargetsIn(os, labels))
    decreases |os|
  {
    if os != [] {
      var next := if os[0].OAddress? && os[0].t !in labels then labels + [os[0].t] else labels;
      TargetsInKeep(os[1..], next);
      var all := TargetsIn(os, labels);
      forall i | 0 <= i < |os| && os[i].OAddress? ensures os[i].t in all {
        if i == 0 { assert os[0].t in next; } else { assert os[i] == os[1..][i - 1]; }
      }
    }
  }

  lemma {:induction false} TargetsKeep(inss: seq<Ins>, labels: seq<nat>)
    ensures labels <= Targets(inss, labels) && AllAddressesIn(inss, Targets(inss, labels))
    decreases |inss|
  {
    hide TargetsIn;
    if inss != [] {
      var next := TargetsIn(inss[0].operands, labels);
      TargetsInKeep(inss[0].operands, labels);
      TargetsKeep(inss[1..], next);
      var all := Targets(inss, labels);
      forall i | 0 <= i < |inss| ensures AddressesIn(inss[i].operands, all) {
        if i > 0 { assert inss[i] == inss[1..][i - 1]; }
      }
    }
  }

  // ----- the function as a whole -----

  /** Every jump leads to an instruction, and its target is in the list. */
  ghost predicate AllLand(inss: seq<Ins>, labels: seq<int>) {
    forall t :: t in Targets(inss, []) ==> t in labels && StartsAt(inss, 0, t)
  }

  /** Filling the holes gives the code, if every label is set where it leads to. */
  lemma HolesResolved(p: Partial, code: seq<nat>, labels: seq<int>, aims: seq<nat>, tab: seq<string>)
    requires Built(Partial([], map[], map[], tab), p, code, labels, aims) && HolesWithin(p)
    requires forall t :: t in aims ==> Set(p, labels, t)
    ensures Resolve(p) == Some(code)
  {
    hide LabelText;
    forall i | i in p.fixups ensures p.fixups[i] in p.labels {
      assert WordIs(p, 0 + i, code[i], labels, aims);
    }
    forall i | 0 <= i < |code|
      ensures (if i in p.fixups && p.fixups[i] in p.labels then p.labels[p.fixups[i]] else p.body[i]) == code[i]
    {
      assert WordIs(p, 0 + i, code[i], labels, aims);
    }
    assert Resolve(p).Some? && |Resolve(p).value| == |code|;
    assert Resolve(p).value == code;
  }

  /** What the parser has built from the lines of a function. */
  function Lines(inss: seq<Ins>, labels: seq<int>, tab: seq<string>): Partial {
    AddAll(Partial([], map[], map[], tab), inss, labels)
  }

  /** The holes are filled with the function's own targets exactly if these are in the list and start instructions. */
  lemma ResolvedExactly(inss: seq<Ins>, labels: seq<int>, tab: seq<string>)
    ensures Lines(inss, labels, tab).tab == InternAll(tab, StringsInAll(inss))
    ensures Resolve(Lines(inss, labels, tab)) == Some(CodeOf(inss, Lines(inss, labels, tab).tab, 0)) <==>
      AllLand(inss, labels)
  {
    hide AddAll, CodeOf, InternAll, Resolve, Built, Set, Targets, AllAddressesIn, StartsAt;
    var p, aims, q := Partial([], map[], map[], tab), Targets(inss, []), Lines(inss, labels, tab);
    TargetsKeep(inss, []);
    AllTable(p, inss, labels);
    AllBuilt(p, inss, q.tab, labels, aims);
    if AllLand(inss, labels) {
      forall t | t in aims ensures Set(q, labels, t) { LabelsSet(p, inss, labels, t); }
      HolesResolved(q, CodeOf(inss, q.tab, 0), labels, aims, tab);
    }
    if Resolve(q) == Some(CodeOf(inss, q.tab, 0)) {
      forall t | t in aims ensures t in labels && StartsAt(inss, 0, t) {
        TargetsAre(inss, [], t);
        var i := HoleFor(p, inss, q.tab, labels, aims, t);
        FilledIn(q, CodeOf(inss, q.tab, 0), i);
        LabelsOnly(p, inss, labels, LabelText(labels, t));
      }
    }
  }

  lemma FilledIn(p: Partial, code: seq<nat>, i: nat)
    requires Resolve(p) == Some(code) && i in p.fixups && i < |p.body|
    ensures p.fixups[i] in p.labels && |code| == |p.body| && p.labels[p.fixups[i]] == code[i]
  {
  }

  /** A jump whose label names no instruction is an error. */
  lemma LabelNeverSet(inss: seq<Ins>, labels: seq<int>, tab: seq<string>, t: nat)
    requires t in Targets(inss, []) && forall u :: !Names(inss, 0, labels, LabelText(labels, t), u)
    ensures Resolve(Lines(inss, labels, tab)) == None
  {
    hide AddAll, CodeOf, Built, Targets, AllAddressesIn, Names, LabelText;
    var p, aims, q := Partial([], map[], map[], tab), Targets(inss, []), Lines(inss, labels, tab);
    TargetsKeep(inss, []);
    TargetsAre(inss, [], t);
    var i := HoleFor(p, inss, q.tab, labels, aims, t);
    if LabelText(labels, t) in q.labels { LabelsOnly(p, inss, labels, LabelText(labels, t)); }
  }

  lemma BodyParsed(f: Fun, labels: seq<int>, cur: Scanned, tail: string, tab: seq<string>) returns (r: Scanned)
    requires FnShaped(f) && AllKnown(f.inss) && AtLine(cur, PrintBody(f.inss, labels, 0, tail))
    ensures ParseBody(cur, f.name, f.params, f.ret, tab) == AsRead(f, labels, tab, r) && Before(r, ['\n'] + tail)
  {
    hide ParseLines, PrintBody, AddAll, Resolve, InsOK, IsWord;
    r := LinesParsed(f.inss, labels, cur, tail, Partial([], map[], map[], tab));
  }

  /** What reading the text of a function with these labels gives, up to the last token. */
  function AsRead(f: Fun, labels: seq<int>, tab: seq<string>, r: Scanned): Option<(Scanned, Parsed)> {
    var p := Lines(f.inss, labels, tab);
    match Resolve(p)
    case None => None
    case Some(body) => Some((r, Parsed(f.name, f.params, f.ret, body, p.tab)))
  }

  lemma TypeOfName(t: ILType)
    ensures IsWord(TypeName(t))
    ensures t != Unknown ==> GetType(TypeName(t)) == Some(t)
  {
    assert |"void"| == |"bool"| == 4 && "void"[0] == 'v' && "bool"[0] == 'b';
    assert |"string"| == |"double"| == 6 && "string"[0] == 's' && "double"[0] == 'd';
    assert |"integer"| == 7 && |"duration"| == 8 && |"interface"| == 9;
  }

  /** The types of the parameters, up to the closing parenthesis. */
  lemma {:induction false} TypesParsed(ts: seq<ILType>, first: bool, tail: string, cur: Scanned, done: seq<ILType>)
    requires (forall i :: 0 <= i < |ts| ==> TypeKnown(ts[i])) && Before(cur, PrintTypes(ts, first, [')'] + tail))
    ensures ParseTypes(cur, done) == Some((Scanned(TkCloseParen, ")", tail, Scan), done + ts))
    decreases |ts|
  {
    hide Next, GetType, TypeName, IsWord;
    if ts == [] {
      Punctuation(tail);
      assert done + ts == done;
    } else {
      var w, next := TypeName(ts[0]), PrintTypes(ts[1..], false, [')'] + tail);
      TypeOfName(ts[0]);
      TypesBounded(ts[1..], tail);
      Punctuation(w + next);
      WordScanned(w, next);
      var c := Scanned(TkIdentifier, w, next, IdentifierOrLabel);
      assert NextOrFail(cur) == Some(c);
      TypesParsed(ts[1..], false, tail, c, done + [ts[0]]);
      assert done + [ts[0]] + ts[1..] == done + ts;
    }
  }

  lemma TypesBounded(ts: seq<ILType>, tail: string)
    ensures Delimited(PrintTypes(ts, false, [')'] + tail))
  {
  }

  lemma ReturnParsed(f: Fun, labels: seq<int>, cur: Scanned, tail: string, tab: seq<string>) returns (r: Scanned)
    requires FnShaped(f) && AllKnown(f.inss)
    requires Before(cur, [' '] + (TypeName(f.ret) + (['\n'] + PrintBody(f.inss, labels, 0, tail))))
    ensures ParseReturn(cur, f.name, f.params, tab) == AsRead(f, labels, tab, r) && Before(r, ['\n'] + tail)
  {
    hide Next, NextOrFail, PrintBody, ParseBody, AsRead, GetType, TypeName, IsWord;
    var body := PrintBody(f.inss, labels, 0, tail);
    TypeOfName(f.ret);
    WordNext(cur, TypeName(f.ret), ['\n'] + body);
    var c := Scanned(TkIdentifier, TypeName(f.ret), ['\n'] + body, IdentifierOrLabel);
    NewLineNext(c, body);
    r := BodyParsed(f, labels, Scanned(TkNewLine, "\n", body, Scan), tail, tab);
  }

  /** Reading a function printed with any list of labels. */
  lemma PrintedParses(f: Fun, labels: seq<int>, tail: string, tab: seq<string>) returns (r: Scanned)
    requires FnShaped(f) && AllKnown(f.inss)
    ensures ParseFunctionDef(Next(PrintWith(f, labels, tail)), tab) == AsRead(f, labels, tab, r)
      && Before(r, ['\n'] + tail)
  {
    hide Next, PrintBody, ParseReturn, AsRead, TypeName, IsWord, PrintTypes, FnShaped, ParseTypes;
    var ret := [' '] + (TypeName(f.ret) + (['\n'] + PrintBody(f.inss, labels, 0, tail)));
    var types := PrintTypes(f.params, true, [')'] + ret);
    EndIsWord();
    WordScanned("fn", [' '] + (f.name + (['('] + types)));
    var fn := Scanned(TkIdentifier, "fn", [' '] + (f.name + (['('] + types)), IdentifierOrLabel);
    FnParts(f);
    WordNext(fn, f.name, ['('] + types);
    var n := Scanned(TkIdentifier, f.name, ['('] + types, IdentifierOrLabel);
    Punctuation(types);
    var o := Scanned(TkOpenParen, "(", types, Scan);
    TypesParsed(f.params, true, ret, o, []);
    assert [] + f.params == f.params;
    r := ReturnParsed(f, labels, Scanned(TkCloseParen, ")", ret, Scan), tail, tab);
  }

  lemma FnParts(f: Fun)
    requires FnShaped(f)
    ensures IsWord(f.name) && forall i :: 0 <= i < |f.params| ==> TypeKnown(f.params[i])
  {
  }

  /** A text reads as the function: its name and types, its own code, and a table that has grown by its strings. */
  predicate ReadsBack(text: string, f: Fun, tab: seq<string>) {
    var all, r := InternAll(tab, StringsInAll(f.inss)), ParseFunctionDef(Next(text), tab);
    r.Some? && r.value.1 == Parsed(f.name, f.params, f.ret, CodeOf(f.inss, all, 0), all)
  }

  /**
   A function printed with any list of labels reads back as itself exactly if the target of every
   jump is in the list and starts an instruction.
   */
  lemma PrintedReadsBack(f: Fun, labels: seq<int>, tail: string, tab: seq<string>)
    requires FnShaped(f) && AllKnown(f.inss)
    ensures ReadsBack(PrintWith(f, labels, tail), f, tab) <==> AllLand(f.inss, labels)
  {
    hide Next, PrintWith, ParseFunctionDef, Lines, Resolve, CodeOf, InternAll, AllLand, FnShaped;
    var r := PrintedParses(f, labels, tail, tab);
    ResolvedExactly(f.inss, labels, tab);
  }

  /**
   The text form round trip: reading a printed function gives its name and types, the same code
   local to the function, and a string table that has grown by its strings.
   */
  lemma PrintedIsParsed(f: Fun, tail: string, tab: seq<string>) returns (r: Scanned)
    requires FnOK(f) && AllKnown(f.inss)
    ensures var all := InternAll(tab, StringsInAll(f.inss));
      ParseFunctionDef(Next(Print(f, tail)), tab) ==
          Some((r, Parsed(f.name, f.params, f.ret, CodeOf(f.inss, all, 0), all)))
    ensures Before(r, ['\n'] + tail)
  {
    hide Next, PrintWith, ParseFunctionDef, Lines, Resolve, CodeOf, InternAll, FnShaped, StartsAt, Targets;
    r := PrintedParses(f, Targets(f.inss, []), tail, tab);
    ResolvedExactly(f.inss, Targets(f.inss, []), tab);
  }
}

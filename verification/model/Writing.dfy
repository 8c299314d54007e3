/** Writing a function as text (pkg/il/text/write.go). */
module Writing {
  import opened Values
  import opened Words
  import opened StringTables
  import opened Opcodes
  import opened Keywords
  import opened Decimals
  import opened Scanners
  import opened Assembly
  import opened TextRoundTrip

  // ----- a function's words in the code of a program -----

  ghost predicate OperandAt(code: seq<nat>, i: nat, o: Operand, tab: seq<string>, base: nat) {
    && i + OperandSize(o) <= |code|
    && match o
       case OString(s) => GetString(tab, code[i]) == Some(s)
       case OFunction(s) => GetString(tab, code[i]) == Some(s)
       case ORegister(n) => code[i] == n
       case OInt(x) => code[i] == Low(x) && code[i + 1] == High(x)
       case OBool(b) => code[i] == BoolToByteCode(b)
       case OAddress(t) => code[i] == t + base
  }

  ghost predicate OperandsAt(code: seq<nat>, i: nat, os: seq<Operand>, tab: seq<string>, base: nat)
    decreases |os|
  {
    os != [] ==> OperandAt(code, i, os[0], tab, base) && OperandsAt(code, i + OperandSize(os[0]), os[1..], tab, base)
  }

  ghost predicate CodeAt(code: seq<nat>, i: nat, inss: seq<Ins>, tab: seq<string>, base: nat)
    decreases |inss|
  {
    && i <= |code|
    && (inss != [] ==>
          && i < |code| && code[i] == inss[0].op
          && OperandsAt(code, i + 1, inss[0].operands, tab, base)
          && CodeAt(code, i + InsSize(inss[0]), inss[1..], tab, base))
  }

  predicate AllInTable(os: seq<Operand>, tab: seq<string>) {
    forall k :: 0 <= k < |os| ==> InTable(os[k], tab)
  }

  lemma OperandPlaced(code: seq<nat>, i: nat, o: Operand, tab: seq<string>, base: nat)
    requires i + OperandSize(o) <= |code| && code[i..i + OperandSize(o)] == OperandWords(o, tab, base)
      && InTable(o, tab)
    ensures OperandAt(code, i, o, tab, base)
  {
    hide IndexOf;
    var ws := code[i..i + OperandSize(o)];
    assert ws[0] == code[i] && (o.OInt? ==> ws[1] == code[i + 1]);
  }

  lemma {:induction false} OperandsPlaced(code: seq<nat>, i: nat, os: seq<Operand>, tab: seq<string>, base: nat)
    requires i + OperandsSize(os) <= |code| && code[i..i + OperandsSize(os)] == OperandsWords(os, tab, base)
      && AllInTable(os, tab)
    ensures OperandsAt(code, i, os, tab, base)
    decreases |os|
  {
    hide OperandWords, OperandAt, InTable, OperandSize;
    if os != [] {
      var n, m := OperandSize(os[0]), OperandsSize(os);
      var ws := code[i..i + m];
      assert ws[0..n] == OperandWords(os[0], tab, base) && ws[n..m] == OperandsWords(os[1..], tab, base);
      Subslice(code, i, i + m, 0, n);
      Subslice(code, i, i + m, n, m);
      assert InTable(os[0], tab) && AllInTable(os[1..], tab);
      OperandPlaced(code, i, os[0], tab, base);
      OperandsPlaced(code, i + n, os[1..], tab, base);
    }
  }

  lemma ThreeParts(ws: seq<nat>, x: nat, os: seq<nat>, rest: seq<nat>)
    requires ws == [x] + os + rest
    ensures ws[0] == x && ws[1..1 + |os|] == os && ws[1 + |os|..|ws|] == rest
  {
  }

  lemma Subslice(code: seq<nat>, i: nat, j: nat, a: nat, b: nat)
    requires i <= j <= |code| && a <= b <= j - i
    ensures code[i..j][a..b] == code[i + a..i + b]
    ensures i < j ==> code[i..j][0] == code[i]
  {
    var x, y := code[i..j][a..b], code[i + a..i + b];
    assert |x| == |y| && forall k :: 0 <= k < |x| ==> x[k] == code[i + a + k] == y[k];
  }

  lemma CodeOfParts(inss: seq<Ins>, tab: seq<string>, base: nat)
    requires inss != []
    ensures CodeOf(inss, tab, base) == [inss[0].op] + OperandsWords(inss[0].operands, tab, base)
      + CodeOf(inss[1..], tab, base)
    ensures CodeSize(inss) == InsSize(inss[0]) + CodeSize(inss[1..])
      && InsSize(inss[0]) == 1 + |OperandsWords(inss[0].operands, tab, base)|
  {
  }

  /** The words of the instructions, somewhere in the code, are the instructions. */
  lemma {:induction false} CodePlaced(code: seq<nat>, i: nat, inss: seq<Ins>, tab: seq<string>, base: nat)
    requires i + CodeSize(inss) <= |code| && code[i..i + CodeSize(inss)] == CodeOf(inss, tab, base)
    requires forall k :: 0 <= k < |inss| ==> AllInTable(inss[k].operands, tab)
    ensures CodeAt(code, i, inss, tab, base)
    decreases |inss|
  {
    hide OperandsWords, AllInTable, CodeOf, CodeSize, InsSize, OperandsAt;
    if inss != [] {
      var n, m := InsSize(inss[0]), CodeSize(inss);
      CodeOfParts(inss, tab, base);
      ThreeParts(code[i..i + m], inss[0].op, OperandsWords(inss[0].operands, tab, base), CodeOf(inss[1..], tab, base));
      Subslice(code, i, i + m, 1, n);
      Subslice(code, i, i + m, n, m);
      assert AllInTable(inss[0].operands, tab);
      OperandsPlaced(code, i + 1, inss[0].operands, tab, base);
      CodePlaced(code, i + n, inss[1..], tab, base);
    }
  }

  // ----- the scan for labels -----

  function Note(ls: seq<nat>, a: Arg, adr: nat): seq<nat> {
    if a.ArgAddress? && adr !in ls then ls + [adr] else ls
  }

  /** One word is read for every operand, whatever its size; past the end of the code Go panics. */
  function NoteArgs(code: seq<nat>, i: nat, args: seq<Arg>, ls: seq<nat>): Option<seq<nat>>
    decreases |args|
  {
    if args == [] then Some(ls)
    else if i >= |code| then None
    else NoteArgs(code, i + 1, args[1..], Note(ls, args[0], code[i]))
  }

  /** The jump targets as the writer finds them, in order; None where Go panics. */
  function ScanLabels(code: seq<nat>, i: nat, end: nat, ls: seq<nat>): Option<seq<nat>>
    decreases end - i
  {
    if i >= end then Some(ls)
    else if i >= |code| then None
    else
      var args := Args(code[i]);
      match NoteArgs(code, i + 1, args, ls)
      case None => None
      case Some(next) => ScanLabels(code, i + 1 + |args|, end, next)
  }

  /** The targets, moved to where the function lies. */
  function Moved(labels: seq<nat>, base: nat): (r: seq<nat>)
    ensures |r| == |labels|
  {
    seq(|labels|, i requires 0 <= i < |labels| => labels[i] + base)
  }

  /** An integer operand whose high word does not look like an instruction with operands. */
  predicate HighWordOK(o: Operand) {
    o.OInt? ==> Args(High(o.i)) == []
  }

  predicate HighWordsOK(inss: seq<Ins>) {
    forall i, j :: 0 <= i < |inss| && 0 <= j < |inss[i].operands| ==> HighWordOK(inss[i].operands[j])
  }

  /** The high word of an integer of at most 33 bits is 0 or all ones, and no opcode with operands. */
  lemma SmallIntegerOK(i: int64)
    requires -TWO32 <= i < TWO32
    ensures HighWordOK(OInt(i))
  {
    assert High(i) == if i < 0 then TWO32 - 1 else 0;
  }

  lemma MovedHas(labels: seq<nat>, base: nat, t: nat)
    ensures t + base in Moved(labels, base) <==> t in labels
    ensures Moved(labels + [t], base) == Moved(labels, base) + [t + base]
  {
    if t in labels {
      var i :| 0 <= i < |labels| && labels[i] == t;
      assert Moved(labels, base)[i] == t + base;
    }
    if t + base in Moved(labels, base) {
      var i :| 0 <= i < |labels| && Moved(labels, base)[i] == t + base;
      assert labels[i] == t;
    }
  }

  /** An integer can only be the last operand. */
  lemma IntIsLast(op: nat, k: nat)
    requires k < |Args(op)| && Args(op)[k].ArgInt?
    ensures k == |Args(op)| - 1
  {
  }

  /** The scan over the operands of one instruction notes its targets. */
  lemma {:induction false} NoteOperands(code: seq<nat>, i: nat, args: seq<Arg>, os: seq<Operand>, tab: seq<string>,
          base: nat, labels: seq<nat>)
    requires AllSuit(args, os) && OperandsAt(code, i, os, tab, base)
    requires forall k :: 0 <= k < |args| && args[k].ArgInt? ==> k == |args| - 1
    ensures NoteArgs(code, i, args, Moved(labels, base)) == Some(Moved(TargetsIn(os, labels), base))
    decreases |os|
  {
    hide GetString;
    if os != [] {
      var o := os[0];
      if o.OAddress? { MovedHas(labels, base, o.t); }
      var next := if o.OAddress? && o.t !in labels then labels + [o.t] else labels;
      assert Note(Moved(labels, base), args[0], code[i]) == Moved(next, base);
      if o.OInt? {
        assert args[1..] == [] && os[1..] == [];
      } else {
        NoteOperands(code, i + 1, args[1..], os[1..], tab, base, next);
      }
    }
  }

  /** Where the scan is after one instruction: at the next, or at the high word of an integer before it. */
  lemma {:induction false} OperandsEnd(code: seq<nat>, i: nat, args: seq<Arg>, os: seq<Operand>, tab: seq<string>,
          base: nat)
    requires AllSuit(args, os) && OperandsAt(code, i, os, tab, base) && i <= |code|
    requires forall k :: 0 <= k < |args| && args[k].ArgInt? ==> k == |args| - 1
    requires forall j :: 0 <= j < |os| ==> HighWordOK(os[j])
    ensures i + OperandsSize(os) <= |code|
    ensures OperandsSize(os) == |args| || (OperandsSize(os) == |args| + 1 && Args(code[i + |args|]) == [])
    decreases |os|
  {
    hide GetString, Args;
    if os != [] {
      if os[0].OInt? {
        assert args[1..] == [] && os[1..] == [] && HighWordOK(os[0]);
      } else {
        OperandsEnd(code, i + 1, args[1..], os[1..], tab, base);
      }
    }
  }

  lemma ScanStep(code: seq<nat>, i: nat, end: nat, ls: seq<nat>)
    requires i < end && i < |code|
    ensures ScanLabels(code, i, end, ls) ==
      match NoteArgs(code, i + 1, Args(code[i]), ls)
      case None => None
      case Some(next) => ScanLabels(code, i + 1 + |Args(code[i])|, end, next)
  {
    hide Args;
  }

  lemma ScanIns(code: seq<nat>, i: nat, end: nat, ins: Ins, tab: seq<string>, base: nat, labels: seq<nat>)
    requires InsShaped(ins) && i < |code| && code[i] == ins.op && OperandsAt(code, i + 1, ins.operands, tab, base)
    requires (forall j :: 0 <= j < |ins.operands| ==> HighWordOK(ins.operands[j])) && i + InsSize(ins) <= end
    ensures ScanLabels(code, i, end, Moved(labels, base)) ==
      ScanLabels(code, i + InsSize(ins), end, Moved(TargetsIn(ins.operands, labels), base))
  {
    hide ScanLabels, NoteArgs, Moved, TargetsIn, OperandsAt, AllSuit, Known;
    var args, ls := Args(ins.op), Moved(TargetsIn(ins.operands, labels), base);
    forall k | 0 <= k < |args| && args[k].ArgInt? ensures k == |args| - 1 { IntIsLast(ins.op, k); }
    ScanStep(code, i, end, Moved(labels, base));
    NoteOperands(code, i + 1, args, ins.operands, tab, base, labels);
    OperandsEnd(code, i + 1, args, ins.operands, tab, base);
    if OperandsSize(ins.operands) == |args| + 1 {
      ScanStep(code, i + 1 + |args|, end, ls);
      NoArgs(code, i + 2 + |args|, ls);
    }
  }

  lemma NoArgs(code: seq<nat>, i: nat, ls: seq<nat>)
    ensures NoteArgs(code, i, [], ls) == Some(ls)
  {
  }

  lemma TailOK(inss: seq<Ins>)
    requires inss != [] && InssShaped(inss) && HighWordsOK(inss)
    ensures InsShaped(inss[0]) && (forall j :: 0 <= j < |inss[0].operands| ==> HighWordOK(inss[0].operands[j]))
    ensures InssShaped(inss[1..]) && HighWordsOK(inss[1..])
  {
    hide InsShaped, HighWordOK;
    forall k, j | 0 <= k < |inss[1..]| && 0 <= j < |inss[1..][k].operands|
        ensures HighWordOK(inss[1..][k].operands[j]) {
      assert inss[1..][k] == inss[k + 1];
    }
  }

  lemma ScanEnds(code: seq<nat>, i: nat, ls: seq<nat>)
    ensures ScanLabels(code, i, i, ls) == Some(ls)
  {
  }

  /** The scan finds the targets of the jumps, in order. */
  lemma {:induction false} ScanFindsTargets(code: seq<nat>, i: nat, inss: seq<Ins>, tab: seq<string>, base: nat,
          labels: seq<nat>)
    requires InssShaped(inss) && HighWordsOK(inss) && CodeAt(code, i, inss, tab, base)
    ensures ScanLabels(code, i, i + CodeSize(inss), Moved(labels, base)) == Some(Moved(Targets(inss, labels), base))
    decreases |inss|
  {
    hide Moved, TargetsIn, OperandsAt, InsShaped, InssShaped, HighWordOK, HighWordsOK, ScanLabels, InsSize;
    if inss == [] {
      ScanEnds(code, i, Moved(labels, base));
    } else {
      TailOK(inss);
      ScanIns(code, i, i + CodeSize(inss), inss[0], tab, base, labels);
      ScanFindsTargets(code, i + InsSize(inss[0]), inss[1..], tab, base, TargetsIn(inss[0].operands, labels));
    }
  }

  // ----- the writer -----

  /** The labels by address, numbered in order. */
  ghost predicate Numbering(labels: map<nat, nat>, ls: seq<nat>) {
    && (forall i :: 0 <= i < |ls| ==> ls[i] in labels && labels[ls[i]] == i)
    && (forall a :: a in labels ==> a in ls)
  }

  method NoteLabels(code: seq<nat>, i: nat, args: seq<Arg>, labels: map<nat, nat>, id: nat, ghost ls: seq<nat>)
    returns (ok: bool, labels': map<nat, nat>, id': nat, ghost ls': seq<nat>)
    requires Numbering(labels, ls) && id == |ls|
    ensures NoteArgs(code, i, args, ls) == (if ok then Some(ls') else None)
    ensures Numbering(labels', ls') && id' == |ls'|
  {
    hide Numbering, NoteArgs;
    labels', id', ls' := labels, id, ls;
    var k := 0;
    assert args[0..] == args;
    while k < |args|
      invariant k <= |args| && Numbering(labels', ls') && id' == |ls'|
      invariant NoteArgs(code, i, args, ls) == NoteArgs(code, i + k, args[k..], ls')
    {
      NoteStep(code, i + k, args, k, ls');
      if i + k >= |code| { return false, labels', id', ls'; }
      var adr := code[i + k];
      NumberingMore(labels', ls', adr);
      if args[k].ArgAddress? && adr !in labels' {
        labels', id', ls' := labels'[adr := id'], id' + 1, ls' + [adr];
      }
      k := k + 1;
    }
    assert args[k..] == [];
    NoArgs(code, i + k, ls');
    ok := true;
  }

  lemma NumberingMore(labels: map<nat, nat>, ls: seq<nat>, adr: nat)
    requires Numbering(labels, ls)
    ensures adr in labels <==> adr in ls
    ensures adr !in labels ==> Numbering(labels[adr := |ls|], ls + [adr])
  {
  }

  lemma NoteStep(code: seq<nat>, i: nat, args: seq<Arg>, k: nat, ls: seq<nat>)
    requires k < |args|
    ensures NoteArgs(code, i, args[k..], ls) ==
      if i >= |code| then None else NoteArgs(code, i + 1, args[k + 1..], Note(ls, args[k], code[i]))
  {
    assert args[k..][1..] == args[k + 1..] && args[k..][0] == args[k];
  }

  /** First the jump targets are numbered. */
  method FindLabels(code: seq<nat>, start: nat, end: nat) returns (ok: bool, labels: map<nat, nat>, ghost ls: seq<nat>)
    ensures ScanLabels(code, start, end, []) == (if ok then Some(ls) else None) && Numbering(labels, ls)
  {
    hide NoteArgs, Numbering, ScanLabels, Args;
    labels, ls := map[], [];
    NothingNumbered();
    var i, id := start, 0;
    while i < end
      invariant Numbering(labels, ls) && id == |ls|
      invariant ScanLabels(code, start, end, []) == ScanLabels(code, i, end, ls)
    {
      if i >= |code| {
        ScanStops(code, i, end, ls);
        return false, labels, ls;
      }
      var args := Args(code[i]);
      ScanStep(code, i, end, ls);
      ok, labels, id, ls := NoteLabels(code, i + 1, args, labels, id, ls);
      if !ok { return; }
      i := i + 1 + |args|;
    }
    ScanStops(code, i, end, ls);
    ok := true;
  }

  lemma ScanStops(code: seq<nat>, i: nat, end: nat, ls: seq<nat>)
    requires i >= end || i >= |code|
    ensures ScanLabels(code, i, end, ls) == if i >= end then Some(ls) else None
  {
  }

  lemma NothingNumbered()
    ensures Numbering(map[], [])
  {
  }

  /** Label addresses relative to the function; what the scan took for an address may lie before it. */
  function Relative(ls: seq<nat>, base: nat): (r: seq<int>)
    ensures |r| == |ls|
  {
    seq(|ls|, i requires 0 <= i < |ls| => ls[i] - base)
  }

  /** The number of a label, or Go's 0 for an address that was not found. */
  lemma NumberIs(ls: seq<nat>, m: map<nat, nat>, base: nat, t: nat)
    requires Numbering(m, ls)
    ensures t + base in m <==> t in Relative(ls, base)
    ensures LabelNumber(Relative(ls, base), t) == if t + base in m then m[t + base] else 0
  {
    var rel := Relative(ls, base);
    if t + base in m {
      var i :| 0 <= i < |ls| && ls[i] == t + base;
      assert rel[i] == t;
    }
    if t in rel {
      var i := LabelIndex(rel, t);
      assert rel[i] == ls[i] - base;
    }
  }

  /** The text of an operand, on its own. */
  function OperandText(o: Operand, labels: seq<int>): string {
    PrintOperand(o, labels, "")
  }

  lemma OperandAppend(o: Operand, labels: seq<int>, tail: string)
    ensures PrintOperand(o, labels, tail) == OperandText(o, labels) + tail
  {
    hide LabelText, Decimal, Printed, Escape;
    if o.OString? {
      assert ['"'] + (Escape(o.s) + (['"'] + "")) + tail == ['"'] + (Escape(o.s) + (['"'] + tail));
    }
  }

  method WriteOperand(code: seq<nat>, i: nat, a: Arg, labels: map<nat, nat>, tab: seq<string>,
                      ghost o: Operand, ghost ls: seq<nat>, ghost base: nat)
    returns (text: string, next: nat)
    requires Suits(a, o) && OperandAt(code, i, o, tab, base) && Numbering(labels, ls)
    ensures text == OperandText(o, Relative(ls, base)) && next == i + OperandSize(o)
  {
    hide Decimal, Numbering, Relative, Escape, GetString, LabelNumber;
    var val := code[i];
    next := i + 1;
    match a {
      case ArgString => text := ['"'] + Escape(GetString(tab, val).value) + ['"'];
      case ArgFunction => text := GetString(tab, val).value;
      case ArgAddress =>
        NumberIs(ls, labels, base, o.t);
        text := ['L'] + Decimal(if val in labels then labels[val] else 0);
      case ArgRegister => text := ['r'] + Decimal(val);
      case ArgInt =>
        IntegerRoundTrip(o.i);
        text, next := Printed(ByteCodeToInteger(val, code[i + 1])), i + 2;
      case ArgBool => text := if ByteCodeToBool(val) then "true" else "false";
      case ArgDouble => assert false;
    }
  }

  lemma {:induction false} OperandsAppend(os: seq<Operand>, labels: seq<int>, tail: string)
    ensures PrintOperands(os, labels, tail) == PrintOperands(os, labels, "") + tail
    decreases |os|
  {
    hide PrintOperand, OperandText;
    if os != [] {
      var rest := PrintOperands(os[1..], labels, "");
      OperandsAppend(os[1..], labels, tail);
      OperandAppend(os[0], labels, rest + tail);
      OperandAppend(os[0], labels, rest);
      var x := OperandText(os[0], labels);
      assert [' '] + (x + (rest + tail)) == [' '] + (x + rest) + tail;
    }
  }

  /** One operand more. */
  lemma OperandsStep(os: seq<Operand>, labels: seq<int>, text: string)
    requires os != []
    ensures text + PrintOperands(os, labels, "") == (text + [' '] + OperandText(os[0], labels))
      + PrintOperands(os[1..], labels, "")
  {
    hide OperandText;
    var rest := PrintOperands(os[1..], labels, "");
    OperandAppend(os[0], labels, rest);
    assert text + ([' '] + (OperandText(os[0], labels) + rest)) == (text + [' '] + OperandText(os[0], labels)) + rest;
  }

  method WriteOperands(code: seq<nat>, i: nat, args: seq<Arg>, labels: map<nat, nat>, tab: seq<string>,
                       ghost os: seq<Operand>, ghost ls: seq<nat>, ghost base: nat)
    returns (text: string, next: nat)
    requires AllSuit(args, os) && OperandsAt(code, i, os, tab, base) && Numbering(labels, ls)
    ensures text == PrintOperands(os, Relative(ls, base), "") && next == i + OperandsSize(os)
  {
    hide OperandAt, OperandText, PrintOperand, Suits, Numbering, Relative;
    text, next := "", i;
    ghost var rest, rel := os, Relative(ls, base);
    var k := 0;
    assert args[0..] == args && "" + PrintOperands(os, rel, "") == PrintOperands(os, rel, "");
    while k < |args|
      invariant k <= |args| && AllSuit(args[k..], rest) && OperandsAt(code, next, rest, tab, base)
      invariant text + PrintOperands(rest, rel, "") == PrintOperands(os, rel, "")
      invariant next + OperandsSize(rest) == i + OperandsSize(os)
    {
      assert args[k..][0] == args[k] && args[k..][1..] == args[k + 1..];
      OperandsStep(rest, rel, text);
      var t, n := WriteOperand(code, next, args[k], labels, tab, rest[0], ls, base);
      text, next, k := text + [' '] + t, n, k + 1;
      rest := rest[1..];
    }
    assert rest == [] && text + "" == text;
  }

  /** One instruction, with its label if it has one. */
  lemma LineStep(text: string, inss: seq<Ins>, ls: seq<int>, pos: nat)
    requires inss != [] && AllKnown(inss) && AllKnown(inss[1..])
    ensures var head := if pos in ls then LabelText(ls, pos) + ":\n" else "";
      text + PrintBody(inss, ls, pos, "") ==
      (text + head + "  " + Keyword(inss[0].op) + PrintOperands(inss[0].operands, ls, "") + "\n")
        + PrintBody(inss[1..], ls, pos + InsSize(inss[0]), "")
  {
    hide LabelText, Keyword, PrintOperands;
    var rest := PrintBody(inss[1..], ls, pos + InsSize(inss[0]), "");
    var k, o := Keyword(inss[0].op), PrintOperands(inss[0].operands, ls, "");
    OperandsAppend(inss[0].operands, ls, ['\n'] + rest);
    var line := PrintIns(inss[0], ls, rest);
    assert line == "  " + k + o + "\n" + rest;
    if pos in ls {
      assert text + (LabelText(ls, pos) + ([':'] + (['\n'] + line))) == text + (LabelText(ls, pos) + ":\n") + line;
    }
  }

  lemma {:induction false} TypesAppend(ts: seq<ILType>, first: bool, tail: string)
    ensures PrintTypes(ts, first, tail) == PrintTypes(ts, first, "") + tail
    decreases |ts|
  {
    hide TypeName;
    if ts != [] {
      var rest := PrintTypes(ts[1..], false, "");
      TypesAppend(ts[1..], false, tail);
      assert TypeName(ts[0]) + (rest + tail) == TypeName(ts[0]) + rest + tail;
    }
  }

  method WriteTypes(ts: seq<ILType>) returns (text: string)
    ensures text == PrintTypes(ts, true, "")
  {
    hide TypeName;
    text := "";
    assert ts[0..] == ts && "" + PrintTypes(ts, true, "") == PrintTypes(ts, true, "");
    for i := 0 to |ts|
      invariant text + PrintTypes(ts[i..], i == 0, "") == PrintTypes(ts, true, "")
    {
      var rest := PrintTypes(ts[i + 1..], false, "");
      assert ts[i..][0] == ts[i] && ts[i..][1..] == ts[i + 1..];
      if i > 0 {
        assert text + ([' '] + (TypeName(ts[i]) + rest)) == text + [' '] + TypeName(ts[i]) + rest;
        text := text + [' '];
      } else {
        assert text + (TypeName(ts[i]) + rest) == text + TypeName(ts[i]) + rest;
      }
      text := text + TypeName(ts[i]);
    }
    assert ts[|ts|..] == [] && text + "" == text;
  }

  lemma HeaderIs(f: Fun, ls: seq<int>)
    requires AllKnown(f.inss)
    ensures PrintWith(f, ls, "") ==
      ("fn " + f.name + "(" + PrintTypes(f.params, true, "") + ") " + TypeName(f.ret) + "\n")
          + PrintBody(f.inss, ls, 0, "")
  {
    hide PrintTypes, PrintBody, TypeName;
    var body := PrintBody(f.inss, ls, 0, "");
    var tail := [')'] + ([' '] + (TypeName(f.ret) + (['\n'] + body)));
    TypesAppend(f.params, true, tail);
    var ts := PrintTypes(f.params, true, "");
    assert "fn" + ([' '] + (f.name + (['('] + (ts + tail)))) ==
      ("fn " + f.name + "(" + ts + ") " + TypeName(f.ret) + "\n") + body;
  }

  /** The body, line by line. */
  method WriteBody(code: seq<nat>, address: nat, length: nat, labels: map<nat, nat>, tab: seq<string>, head: string,
                   ghost inss: seq<Ins>, ghost ls: seq<nat>)
    returns (b: string)
    requires InssShaped(inss) && AllKnown(inss) && CodeAt(code, address, inss, tab, address) && length == CodeSize(inss)
    requires Numbering(labels, ls)
    ensures b == head + PrintBody(inss, Relative(ls, address), 0, "")
  {
    hide OperandsAt, InsShaped, Numbering, Relative, LabelText, Keyword, PrintOperands, InsSize, PrintBody, CodeSize,
      CodeAt, InssShaped, AllSuit, Args, OperandsSize;
    b := head;
    var i := address;
    ghost var rest, rel := inss, Relative(ls, address);
    while i < address + length
      invariant address <= i && i + CodeSize(rest) == address + length && CodeAt(code, i, rest, tab, address)
      invariant InssShaped(rest) && AllKnown(rest)
      invariant b + PrintBody(rest, rel, i - address, "") == head + PrintBody(inss, rel, 0, "")
    {
      LinesTail(rest);
      LineStep(b, rest, rel, i - address);
      CodeParts(code, i, rest, tab, address);
      ghost var ins := rest[0];
      var line := WriteLabel(labels, i, ls, address);
      var args := Args(code[i]);
      InsParts(ins);
      var text, next := WriteOperands(code, i + 1, args, labels, tab, ins.operands, ls, address);
      b := b + line + "  " + Keyword(code[i]) + text + "\n";
      i, rest := next, rest[1..];
    }
    NoSize(rest);
    LastLine(rel, i - address);
    b := b + "end\n";
  }

  lemma CodeParts(code: seq<nat>, i: nat, inss: seq<Ins>, tab: seq<string>, base: nat)
    requires CodeAt(code, i, inss, tab, base) && inss != []
    ensures i < |code| && code[i] == inss[0].op && OperandsAt(code, i + 1, inss[0].operands, tab, base)
    ensures CodeAt(code, i + InsSize(inss[0]), inss[1..], tab, base)
      && CodeSize(inss) == InsSize(inss[0]) + CodeSize(inss[1..])
  {
    hide OperandsAt;
  }

  lemma LastLine(ls: seq<int>, pos: nat)
    ensures PrintBody([], ls, pos, "") == "end\n"
  {
    assert "end" + (['\n'] + "") == "end\n";
  }

  lemma NoSize(inss: seq<Ins>)
    requires CodeSize(inss) == 0
    ensures inss == []
  {
  }

  method WriteLabel(labels: map<nat, nat>, i: nat, ghost ls: seq<nat>, ghost base: nat) returns (line: string)
    requires Numbering(labels, ls) && base <= i
    ensures var rel := Relative(ls, base); line == if i - base in rel then LabelText(rel, i - base) + ":\n" else ""
  {
    hide Numbering, Relative, LabelNumber;
    NumberIs(ls, labels, base, i - base);
    line := if i in labels then ['L'] + Decimal(labels[i]) + ":\n" else "";
  }

  lemma LinesTail(inss: seq<Ins>)
    requires InssShaped(inss) && AllKnown(inss) && CodeSize(inss) > 0
    ensures inss != [] && InsShaped(inss[0]) && InssShaped(inss[1..]) && AllKnown(inss[1..])
  {
    hide InsShaped;
  }

  lemma InsParts(ins: Ins)
    requires InsShaped(ins)
    ensures AllSuit(Args(ins.op), ins.operands) && InsSize(ins) == 1 + OperandsSize(ins.operands)
  {
  }

  /** The text that is written for a function, from the labels that the scan finds; None where the scan panics. */
  function Written(code: seq<nat>, address: nat, f: Fun): Option<string>
    requires AllKnown(f.inss)
  {
    match ScanLabels(code, address, address + CodeSize(f.inss), [])
    case None => None
    case Some(ls) => Some(PrintWith(f, Relative(ls, address), ""))
  }

  /** The writer, on any function that lies in the code, whatever its integers, strings and jumps. */
  method WriteFn(code: seq<nat>, address: nat, length: nat, name: string, params: seq<ILType>, ret: ILType,
          tab: seq<string>,
                 ghost inss: seq<Ins>)
    returns (b: Option<string>)
    requires InssShaped(inss) && AllKnown(inss)
    requires CodeAt(code, address, inss, tab, address) && length == CodeSize(inss)
    ensures b == Written(code, address, Fun(name, params, ret, inss))
  {
    hide Numbering, Relative, PrintBody, CodeAt, InssShaped, ScanLabels, PrintTypes, TypeName, PrintWith;
    var ok, labels, found := FindLabels(code, address, address + length);
    if !ok { return None; }
    var types := WriteTypes(params);
    var head := "fn " + name + "(" + types + ") " + TypeName(ret) + "\n";
    HeaderIs(Fun(name, params, ret, inss), Relative(found, address));
    var text := WriteBody(code, address, length, labels, tab, head, inss, found);
    b := Some(text);
  }
}

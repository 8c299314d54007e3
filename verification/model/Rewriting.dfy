/** Writing a function out of a program and reading it into the program again. */
module Rewriting {
  import opened Values
  import opened StringTables
  import opened Opcodes
  import opened Scanners
  import opened Assembly
  import opened Parsing
  import opened TextRoundTrip
  import opened Writing
  import opened WrittenText
  import opened Disassembly
  import opened Programs

  // ----- the table may have grown -----

  lemma {:induction false} OperandsGrow(args: seq<Arg>, ws: seq<nat>, tab: seq<string>, now: seq<string>)
    requires OperandsReadable(args, ws, tab) && tab <= now
    ensures OperandsReadable(args, ws, now) && ReadOperands(args, ws, now) == ReadOperands(args, ws, tab)
    decreases |args|
  {
    hide Quotable, IsWord;
    if args != [] { OperandsGrow(args[1..], ws[ArgSize(args[0])..], tab, now); }
  }

  lemma {:induction false} ReadableGrows(body: seq<nat>, i: nat, tab: seq<string>, now: seq<string>)
    requires Readable(body, i, tab) && tab <= now
    ensures Readable(body, i, now) && Disassemble(body, i, now) == Disassemble(body, i, tab)
    decreases |body| - i
  {
    hide OpSize, OperandsReadable, ReadOperands, Args, Known;
    if i < |body| {
      OperandsGrow(Args(body[i]), body[i + 1..i + OpSize(body[i])], tab, now);
      ReadableGrows(body, i + OpSize(body[i]), tab, now);
    }
  }

  // ----- its strings are in the table -----

  lemma {:induction false} NothingInterned(tab: seq<string>, ss: seq<string>)
    requires forall i :: 0 <= i < |ss| ==> ss[i] in tab
    ensures InternAll(tab, ss) == tab
    decreases |ss|
  {
    if ss != [] { NothingInterned(tab, ss[..|ss| - 1]); }
  }

  lemma {:induction false} OperandStringsIn(os: seq<Operand>, tab: seq<string>)
    requires AllInTable(os, tab)
    ensures forall i :: 0 <= i < |StringsIn(os)| ==> StringsIn(os)[i] in tab
    decreases |os|
  {
    if os != [] {
      assert InTable(os[0], tab) && AllInTable(os[1..], tab);
      OperandStringsIn(os[1..], tab);
    }
  }

  lemma {:induction false} AllStringsIn(inss: seq<Ins>, tab: seq<string>)
    requires forall k :: 0 <= k < |inss| ==> AllInTable(inss[k].operands, tab)
    ensures forall i :: 0 <= i < |StringsInAll(inss)| ==> StringsInAll(inss)[i] in tab
    decreases |inss|
  {
    hide AllInTable, StringsIn;
    if inss != [] {
      OperandStringsIn(inss[0].operands, tab);
      AllStringsIn(inss[1..], tab);
    }
  }

  // ----- any readable function -----

  /** A function of a program as name, types and instructions. */
  function FunctionOf(name: string, params: seq<ILType>, ret: ILType, body: seq<nat>, tab: seq<string>): Fun
    requires Readable(body, 0, tab)
  {
    Fun(name, params, ret, Disassemble(body, 0, tab))
  }

  predicate HeaderOK(name: string, params: seq<ILType>, ret: ILType) {
    IsWord(name) && TypeKnown(ret) && forall i :: 0 <= i < |params| ==> TypeKnown(params[i])
  }

  /** Reading a text into the table of the program gives the function's own words, and nothing else. */
  predicate ReadsAgain(text: Option<string>, name: string, params: seq<ILType>, ret: ILType, body: seq<nat>,
          tab: seq<string>) {
    text.Some? && var r := ParseFunctionDef(Next(text.value), tab);
    r.Some? && r.value.1 == Parsed(name, params, ret, body, tab)
  }

  /** It can be written, and it comes back exactly if the scan finds its targets and they start instructions. */
  lemma RewrittenExactly(name: string, params: seq<ILType>, ret: ILType, body: seq<nat>, tab: seq<string>,
          code: seq<nat>, address: nat)
    requires Readable(body, 0, tab) && Distinct(tab) && PlacedAt(code, address, body) && HeaderOK(name, params, ret)
    ensures var f := FunctionOf(name, params, ret, body, tab);
      && FnShaped(f) && AllKnown(f.inss) && CodeAt(code, address, f.inss, tab, address) && CodeSize(f.inss) == |body|
      && (ReadsAgain(Written(code, address, f), name, params, ret, body, tab) <==> TargetsFound(code, address, f.inss))
  {
    hide Readable, Disassemble, PlacedAt, CodeAt, TargetsFound, Written, InsOK, CodeOf, Relocate, AllInTable,
      ParseFunctionDef, Next, InternAll, Whole, Distinct, IsWord;
    var f := FunctionOf(name, params, ret, body, tab);
    DisassembleExact(body, 0, tab, address);
    DisassembleExact(body, 0, tab, 0);
    RelocatedNowhere(body, 0);
    PlacedWords(code, address, body);
    CodePlaced(code, address, f.inss, tab, address);
    WrittenReadsBack(code, address, f, tab);
    AllStringsIn(f.inss, tab);
    NothingInterned(tab, StringsInAll(f.inss));
    assert body[0..] == body;
  }

  lemma PlacedWords(code: seq<nat>, start: nat, body: seq<nat>)
    requires PlacedAt(code, start, body)
    ensures start + |body| <= |code| && code[start..start + |body|] == Relocate(body, 0, start)
  {
  }

  /** Where no high word of an integer is an opcode with operands, it comes back exactly if no jump leads to its end. */
  lemma RewrittenIfHighWordsOK(name: string, params: seq<ILType>, ret: ILType, body: seq<nat>, tab: seq<string>,
          code: seq<nat>, address: nat)
    requires Readable(body, 0, tab) && Distinct(tab) && PlacedAt(code, address, body) && HeaderOK(name, params, ret)
    requires JumpsStay(body) && HighWordsOK(Disassemble(body, 0, tab))
    ensures var f := FunctionOf(name, params, ret, body, tab);
      AllKnown(f.inss) && (ReadsAgain(Written(code, address, f), name, params, ret, body, tab) <==>
          !JumpsTo(body, 0, |body|))
  {
    hide Readable, Disassemble, PlacedAt, CodeAt, TargetsFound, Written, Distinct, HighWordsOK, JumpsWithin, JumpsTo,
      JumpsStay, InssOK, ReadsAgain, HeaderOK;
    RewrittenExactly(name, params, ret, body, tab, code, address);
    var f := FunctionOf(name, params, ret, body, tab);
    ShapedParts(f);
    FoundIfHighWordsOK(code, address, f.inss, tab);
    JumpsWithinExactly(body, tab);
  }
}

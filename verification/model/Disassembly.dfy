/** The words of a function as instructions again. */
module Disassembly {
  import opened Values
  import opened Words
  import opened StringTables
  import opened Opcodes
  import opened Scanners
  import opened Assembly
  import opened TextRoundTrip
  import opened Writing
  import opened Programs

  // ----- operands -----

  /** Words that an operand can have: strings that can be written, words of 32 bits for an integer, truth values. */
  predicate OperandReadable(a: Arg, ws: seq<nat>, tab: seq<string>) {
    && |ws| == ArgSize(a)
    && match a
       case ArgString => ws[0] < |tab| && Quotable(tab[ws[0]])
       case ArgFunction => ws[0] < |tab| && IsWord(tab[ws[0]])
       case ArgInt => ws[0] < TWO32 && ws[1] < TWO32
       case ArgBool => ws[0] <= 1
       case ArgDouble => false
       case _ => true
  }

  function ReadOperand(a: Arg, ws: seq<nat>, tab: seq<string>): Operand
    requires OperandReadable(a, ws, tab)
  {
    match a
    case ArgString => OString(tab[ws[0]])
    case ArgFunction => OFunction(tab[ws[0]])
    case ArgInt => OInt(ByteCodeToInteger(ws[0], ws[1]))
    case ArgBool => OBool(ws[0] == 1)
    case ArgAddress => OAddress(ws[0])
    case ArgRegister => ORegister(ws[0])
  }

  predicate OperandsReadable(args: seq<Arg>, ws: seq<nat>, tab: seq<string>)
    decreases |args|
  {
    if args == [] then ws == []
    else
      var n := ArgSize(args[0]);
      n <= |ws| && OperandReadable(args[0], ws[..n], tab) && OperandsReadable(args[1..], ws[n..], tab)
  }

  function ReadOperands(args: seq<Arg>, ws: seq<nat>, tab: seq<string>): seq<Operand>
    requires OperandsReadable(args, ws, tab)
    decreases |args|
  {
    if args == [] then []
    else
      var n := ArgSize(args[0]);
      [ReadOperand(args[0], ws[..n], tab)] + ReadOperands(args[1..], ws[n..], tab)
  }

  /** The words, moved to where the function lies. */
  function MovedWords(args: seq<Arg>, ws: seq<nat>, base: nat): seq<nat> {
    if args == [ArgAddress] && |ws| == 1 then [ws[0] + base] else ws
  }

  lemma OperandExact(a: Arg, ws: seq<nat>, tab: seq<string>, base: nat)
    requires OperandReadable(a, ws, tab) && Distinct(tab)
    ensures var o := ReadOperand(a, ws, tab);
      && Suits(a, o) && OperandOK(o) && InTable(o, tab)
      && OperandWords(o, tab, base) == if a.ArgAddress? then [ws[0] + base] else ws
  {
    hide IndexOf, Quotable, IsWord, ByteCodeToInteger;
    match a {
      case ArgString => IdsDecideEquality(tab, ws[0], ws[0]);
      case ArgFunction => IdsDecideEquality(tab, ws[0], ws[0]);
      case ArgInt => WordsRoundTrip(ws[0], ws[1]);
      case _ =>
    }
  }

  /** Reading operands loses nothing. */
  lemma {:induction false} OperandsExact(args: seq<Arg>, ws: seq<nat>, tab: seq<string>, base: nat)
    requires OperandsReadable(args, ws, tab) && Distinct(tab)
    requires args == [ArgAddress] || ArgAddress !in args
    ensures var os := ReadOperands(args, ws, tab);
      && AllSuit(args, os) && OperandsOK(os) && AllInTable(os, tab)
      && OperandsWords(os, tab, base) == MovedWords(args, ws, base)
    decreases |args|
  {
    hide ReadOperand, OperandReadable, Suits, OperandOK, InTable, OperandWords, ArgSize;
    if args != [] {
      var n := ArgSize(args[0]);
      var o, rest := ReadOperand(args[0], ws[..n], tab), ReadOperands(args[1..], ws[n..], tab);
      OperandExact(args[0], ws[..n], tab, base);
      OperandsExact(args[1..], ws[n..], tab, base);
      assert ([o] + rest)[1..] == rest;
      assert ws[..n] + ws[n..] == ws;
      if args == [ArgAddress] { OneAddress(args, ws, tab); }
    }
  }

  lemma OneAddress(args: seq<Arg>, ws: seq<nat>, tab: seq<string>)
    requires OperandsReadable(args, ws, tab) && args == [ArgAddress]
    ensures |ws| == 1 && ArgSize(args[0]) == 1 && ws[..1][0] == ws[0] && ws[1..] == []
  {
  }

  // ----- instructions -----

  predicate InsReadable(body: seq<nat>, i: nat, tab: seq<string>) {
    && i < |body| && i + OpSize(body[i]) <= |body| && Known(body[i])
    && OperandsReadable(Args(body[i]), body[i + 1..i + OpSize(body[i])], tab)
  }

  /** From `i` on, the body consists of instructions that can be written. */
  predicate Readable(body: seq<nat>, i: nat, tab: seq<string>)
    decreases |body| - i
  {
    i < |body| ==> InsReadable(body, i, tab) && Readable(body, i + OpSize(body[i]), tab)
  }

  function ReadIns(body: seq<nat>, i: nat, tab: seq<string>): Ins
    requires InsReadable(body, i, tab)
  {
    Ins(body[i], ReadOperands(Args(body[i]), body[i + 1..i + OpSize(body[i])], tab))
  }

  function Disassemble(body: seq<nat>, i: nat, tab: seq<string>): seq<Ins>
    requires Readable(body, i, tab)
    decreases |body| - i
  {
    if i >= |body| then [] else [ReadIns(body, i, tab)] + Disassemble(body, i + OpSize(body[i]), tab)
  }

  lemma InsExact(body: seq<nat>, i: nat, tab: seq<string>, base: nat)
    requires InsReadable(body, i, tab) && Distinct(tab)
    ensures var ins := ReadIns(body, i, tab);
      && InsOK(ins) && AllInTable(ins.operands, tab) && ins.op == body[i] && InsSize(ins) == OpSize(body[i])
      && [ins.op] + OperandsWords(ins.operands, tab, base) == Instruction(body, i, base)
  {
    hide OperandsReadable, ReadOperands, AllSuit, OperandsOK, AllInTable, OperandsWords, Args, ArgsSize, Known,
      Instruction, OperandsSize;
    var args, ws := Args(body[i]), body[i + 1..i + OpSize(body[i])];
    OnlyJumpsHoldAddresses(body[i]);
    OperandsExact(args, ws, tab, base);
    OnlyAddressesShift(body, i, base);
    SliceHead(body, i, OpSize(body[i]));
  }

  lemma SliceHead(body: seq<nat>, i: nat, n: nat)
    requires 0 < n && i + n <= |body|
    ensures body[i..i + n] == [body[i]] + body[i + 1..i + n]
    ensures n == 2 ==> body[i + 1..i + n] == [body[i + 1]]
  {
  }

  /** Disassembling loses nothing: the instructions, laid out at any address, are the body relocated there. */
  lemma {:induction false} DisassembleExact(body: seq<nat>, i: nat, tab: seq<string>, base: nat)
    requires Readable(body, i, tab) && i <= |body| && Distinct(tab)
    ensures var inss := Disassemble(body, i, tab);
      && InssOK(inss) && AllKnown(inss) && CodeSize(inss) == |body| - i && Whole(body, i)
      && (forall k :: 0 <= k < |inss| ==> AllInTable(inss[k].operands, tab))
      && CodeOf(inss, tab, base) == Relocate(body, i, base)
    decreases |body| - i
  {
    hide InsReadable, ReadIns, InsOK, AllInTable, OperandsWords, Instruction, InsSize, OpSize, Distinct;
    if i < |body| {
      ReadableIn(body, i, tab);
      var n := OpSize(body[i]);
      var ins, rest := ReadIns(body, i, tab), Disassemble(body, i + n, tab);
      InsExact(body, i, tab, base);
      InsKnown(ins);
      DisassembleExact(body, i + n, tab, base);
      assert ([ins] + rest)[1..] == rest && ([ins] + rest)[0] == ins;
    }
  }

  lemma ReadableIn(body: seq<nat>, i: nat, tab: seq<string>)
    requires InsReadable(body, i, tab)
    ensures i < |body| && i + OpSize(body[i]) <= |body| && Known(body[i])
  {
  }

  lemma InsKnown(ins: Ins)
    requires InsOK(ins)
    ensures Known(ins.op)
  {
  }

  lemma {:induction false} RelocatedNowhere(body: seq<nat>, i: nat)
    requires Whole(body, i) && i <= |body|
    ensures Relocate(body, i, 0) == body[i..]
    decreases |body| - i
  {
    hide OpSize, Instruction;
    if i < |body| {
      var n := OpSize(body[i]);
      RelocatedNowhere(body, i + n);
      NotShifted(body, i);
      assert body[i..] == body[i..i + n] + body[i + n..];
    }
  }

  lemma NotShifted(body: seq<nat>, i: nat)
    requires i < |body| && i + OpSize(body[i]) <= |body|
    ensures Instruction(body, i, 0) == body[i..i + OpSize(body[i])]
  {
    hide OpSize, Instruction;
    OnlyAddressesShift(body, i, 0);
    if IsJump(body[i]) { assert body[i..i + 2] == [body[i], body[i + 1]]; }
  }

  // ----- jumps -----

  /** Instructions start at the boundaries. */
  lemma {:induction false} StartsAre(body: seq<nat>, i: nat, tab: seq<string>, t: nat)
    requires Readable(body, i, tab) && i <= |body| && Distinct(tab)
    ensures StartsAt(Disassemble(body, i, tab), i, t) <==> t in Boundaries(body, i)
    decreases |body| - i
  {
    hide InsReadable, ReadIns, InsSize, OpSize, Distinct;
    if i < |body| {
      ReadableIn(body, i, tab);
      var n := OpSize(body[i]);
      InsExact(body, i, tab, 0);
      StartsAre(body, i + n, tab, t);
      var all := Disassemble(body, i, tab);
      assert all[0] == ReadIns(body, i, tab) && all[1..] == Disassemble(body, i + n, tab);
    }
  }

  /** A jump of the body leads to `t`. */
  ghost predicate JumpsTo(body: seq<nat>, i: nat, t: nat) {
    exists b :: b in Boundaries(body, i) && b + 1 < |body| && IsJump(body[b]) && body[b + 1] == t
  }

  lemma AimOf(body: seq<nat>, i: nat, tab: seq<string>, t: nat)
    requires InsReadable(body, i, tab) && Distinct(tab)
    ensures OAddress(t) in ReadIns(body, i, tab).operands <==> i + 1 < |body| && IsJump(body[i]) && body[i + 1] == t
  {
    hide OperandsReadable, ReadOperands, Args, ArgsSize, OperandsWords, Known;
    var args, ws := Args(body[i]), body[i + 1..i + OpSize(body[i])];
    var os := ReadOperands(args, ws, tab);
    OnlyJumpsHoldAddresses(body[i]);
    OperandsExact(args, ws, tab, 0);
    SuitAddress(args, os, t);
    if args == [ArgAddress] {
      OneAddress(args, ws, tab);
      assert ws[0] == body[i + 1];
      AddressRead(ws, tab);
    }
  }

  lemma AddressRead(ws: seq<nat>, tab: seq<string>)
    requires OperandsReadable([ArgAddress], ws, tab) && |ws| == 1
    ensures ReadOperands([ArgAddress], ws, tab) == [OAddress(ws[0])]
  {
    assert [ArgAddress][1..] == [] && ws[..1] == ws;
  }

  lemma {:induction false} SuitAddress(args: seq<Arg>, os: seq<Operand>, t: nat)
    requires AllSuit(args, os)
    ensures OAddress(t) in os ==> ArgAddress in args
    decreases |os|
  {
    if os != [] { SuitAddress(args[1..], os[1..], t); }
  }

  lemma {:induction false} AimedAre(body: seq<nat>, i: nat, tab: seq<string>, t: nat)
    requires Readable(body, i, tab) && i <= |body| && Distinct(tab)
    ensures Aimed(Disassemble(body, i, tab), t) <==> JumpsTo(body, i, t)
    decreases |body| - i
  {
    hide InsReadable, ReadIns, OpSize, Distinct, IsJump;
    if i < |body| {
      ReadableIn(body, i, tab);
      var n := OpSize(body[i]);
      AimOf(body, i, tab, t);
      AimedAre(body, i + n, tab, t);
      var all := Disassemble(body, i, tab);
      assert all[0] == ReadIns(body, i, tab) && all[1..] == Disassemble(body, i + n, tab);
      assert Boundaries(body, i) == {i} + Boundaries(body, i + n);
    }
  }

  /** Jumps lead to instructions of the function exactly if none leads to its end. */
  lemma JumpsWithinExactly(body: seq<nat>, tab: seq<string>)
    requires Readable(body, 0, tab) && Distinct(tab) && JumpsStay(body)
    ensures JumpsWithin(Disassemble(body, 0, tab)) <==> !JumpsTo(body, 0, |body|)
  {
    hide Readable, Disassemble, Boundaries, StartsAt, Targets, Aimed, Distinct, IsJump;
    var inss := Disassemble(body, 0, tab);
    var ts := Targets(inss, []);
    if JumpsWithin(inss) && JumpsTo(body, 0, |body|) {
      AimedAre(body, 0, tab, |body|);
      TargetsAre(inss, [], |body|);
      var i :| 0 <= i < |ts| && ts[i] == |body|;
      StartsAre(body, 0, tab, |body|);
      NotAtEnd(body, 0, tab, |body|);
    }
    if !JumpsTo(body, 0, |body|) {
      forall i | 0 <= i < |ts| ensures StartsAt(inss, 0, ts[i]) {
        TargetsAre(inss, [], ts[i]);
        AimedAre(body, 0, tab, ts[i]);
        StartsAre(body, 0, tab, ts[i]);
      }
    }
  }

  lemma {:induction false} NotAtEnd(body: seq<nat>, i: nat, tab: seq<string>, b: nat)
    requires Readable(body, i, tab) && b in Boundaries(body, i)
    ensures b < |body|
    decreases |body| - i
  {
    hide InsReadable, OpSize;
    if b != i { NotAtEnd(body, i + OpSize(body[i]), tab, b); }
  }
}

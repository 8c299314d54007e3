/** Every function that the parser accepts can be written again. */
module AcceptedFunctions {
  import opened Values
  import opened Words
  import opened StringTables
  import opened Opcodes
  import opened Keywords
  import opened Scanners
  import opened Assembly
  import opened Parsing
  import opened Programs
  import opened AcceptedText
  import opened Writing
  import opened WrittenText
  import opened Disassembly
  import opened Rewriting

  // ----- the words that the parser adds -----

  lemma OperandReads(a: Arg, r: Scanned, p: Partial) returns (ws: seq<nat>)
    requires ParseOperand(a, r, p).Some? && TokenOK(r) && Distinct(p.tab)
    ensures var q := ParseOperand(a, r, p).value;
      q.body == p.body + ws && p.tab <= q.tab && Distinct(q.tab) && OperandReadable(a, ws, q.tab)
  {
    hide AsStringLiteral, AsIntegerLiteral, Register, IndexOf, IsWord, Quotable, TokenOK;
    var q := ParseOperand(a, r, p).value;
    ws := q.body[|p.body|..];
    match a {
      case ArgString => LiteralIsQuotable(r);
      case ArgFunction => IdentifierIsWord(r);
      case ArgInt => IntegerRoundTrip(AsIntegerLiteral(r).value);
      case _ =>
    }
  }

  lemma IdentifierIsWord(r: Scanned)
    requires TokenOK(r) && AsIdentifier(r).Some?
    ensures IsWord(AsIdentifier(r).value)
  {
  }

  lemma NextFine(cur: Scanned)
    requires NextOrFail(cur).Some?
    ensures TokenOK(NextOrFail(cur).value)
  {
    hide Next, TokenOK;
    NextTokenOK(cur.rest);
  }

  lemma {:induction false} OperandsRead(args: seq<Arg>, cur: Scanned, p: Partial) returns (ws: seq<nat>)
    requires ParseOperands(args, cur, p).Some? && Distinct(p.tab)
    ensures var q := ParseOperands(args, cur, p).value.1;
      q.body == p.body + ws && p.tab <= q.tab && Distinct(q.tab) && OperandsReadable(args, ws, q.tab)
    decreases |args|
  {
    hide ParseOperand, NextOrFail, OperandReadable, TokenOK, Distinct;
    if args == [] {
      ws := [];
      assert p.body + ws == p.body;
    } else {
      var r := NextOrFail(cur).value;
      NextFine(cur);
      var w := OperandReads(args[0], r, p);
      var p' := ParseOperand(args[0], r, p).value;
      var rest := OperandsRead(args[1..], r, p');
      var q := ParseOperands(args, cur, p).value.1;
      ws := w + rest;
      assert p.body + w + rest == p.body + ws;
      OperandGrows(args[0], w, p'.tab, q.tab);
      assert ws[..|w|] == w && ws[|w|..] == rest;
    }
  }

  lemma OperandGrows(a: Arg, ws: seq<nat>, tab: seq<string>, now: seq<string>)
    requires OperandReadable(a, ws, tab) && tab <= now
    ensures OperandReadable(a, ws, now) && |ws| == ArgSize(a)
  {
    hide Quotable, IsWord;
  }

  lemma {:induction false} OperandsSizeIs(args: seq<Arg>, ws: seq<nat>, tab: seq<string>)
    requires OperandsReadable(args, ws, tab)
    ensures |ws| == ArgsSize(args)
    decreases |args|
  {
    hide OperandReadable;
    if args != [] {
      ArgsSizeStep(args);
      OperandsSizeIs(args[1..], ws[ArgSize(args[0])..], tab);
    }
  }

  /** One instruction more. */
  lemma {:induction false} ReadableAppend(body: seq<nat>, ins: seq<nat>, i: nat, tab: seq<string>)
    requires Readable(body, i, tab) && i <= |body| && InsReadable(ins, 0, tab) && |ins| == OpSize(ins[0])
    ensures Readable(body + ins, i, tab)
    decreases |body| - i
  {
    hide OpSize, OperandsReadable, Known, Args;
    var all := body + ins;
    if i < |body| {
      assert all[i] == body[i] && all[i + 1..i + OpSize(body[i])] == body[i + 1..i + OpSize(body[i])];
      ReadableAppend(body, ins, i + OpSize(body[i]), tab);
    } else {
      assert all[i] == ins[0] && all[i + 1..i + OpSize(ins[0])] == ins[0 + 1..0 + OpSize(ins[0])];
      assert Readable(all, i + OpSize(ins[0]), tab);
    }
  }

  ghost predicate Fine(p: Partial) {
    Distinct(p.tab) && Readable(p.body, 0, p.tab)
  }

  lemma InstructionFine(op: nat, cur: Scanned, p: Partial)
    requires Fine(p) && Known(op) && ParseOperands(Args(op), cur, p.(body := p.body + [op])).Some?
    ensures Fine(ParseOperands(Args(op), cur, p.(body := p.body + [op])).value.1)
  {
    hide ParseOperands, Args, ArgsSize, Known, OperandsReadable, Readable, Distinct;
    var s := p.(body := p.body + [op]);
    var q := ParseOperands(Args(op), cur, s).value.1;
    var ws := OperandsRead(Args(op), cur, s);
    var ins := [op] + ws;
    assert q.body == p.body + ins;
    OperandsSizeIs(Args(op), ws, q.tab);
    assert ins[1..1 + |ws|] == ws;
    assert InsReadable(ins, 0, q.tab);
    ReadableGrows(p.body, 0, p.tab, q.tab);
    ReadableAppend(p.body, ins, 0, q.tab);
  }

  lemma {:induction false} LinesFine(cur: Scanned, p: Partial)
    requires Fine(p) && ParseLines(cur, p).Some?
    ensures Fine(ParseLines(cur, p).value.1)
    decreases |cur.rest|
  {
    hide Fine, SkipNewlines, GetOpcode, NextOrFail, NextToken, ParseOperands, Args;
    var c := SkipNewlines(cur);
    if c.token == TkLabel && AsLabel(c).Some? {
      LabelFine(p, AsLabel(c).value);
      LinesFine(NextOrFail(c).value, p.(labels := p.labels[AsLabel(c).value := |p.body|]));
    } else if c.raw != "end" {
      var op := GetOpcode(c.raw).value;
      OpcodeOfKeyword(op, c.raw);
      InstructionFine(op, c, p);
      var (c2, p2) := ParseOperands(Args(op), c, p.(body := p.body + [op])).value;
      LinesFine(NextToken(c2, TkNewLine).value, p2);
    }
  }

  lemma LabelFine(p: Partial, l: string)
    requires Fine(p)
    ensures Fine(p.(labels := p.labels[l := |p.body|]))
  {
    hide Readable, Distinct;
  }

  // ----- filling the holes -----

  /** Words of an instruction other than a jump are not holes. */
  lemma NoHoleIn(p: Partial, b: nat, i: nat)
    requires Sound(p) && b in Boundaries(p.body, 0) && b < |p.body| && !IsJump(p.body[b])
    requires b <= i < b + OpSize(p.body[b])
    ensures i !in p.fixups
  {
    hide Boundaries, Whole, OpSize;
    if i in p.fixups {
      assert HoleOK(p.body, i);
      if i - 1 < b {
        BoundaryNoHole(p, b);
      } else if b < i - 1 {
        NotInside(p.body, 0, b, i - 1);
      }
    }
  }

  lemma InsFilled(p: Partial, body: seq<nat>, i: nat)
    requires Sound(p) && Resolve(p) == Some(body) && i in Boundaries(p.body, 0) && InsReadable(p.body, i, p.tab)
    ensures |body| == |p.body| && body[i] == p.body[i] && InsReadable(body, i, p.tab)
  {
    hide Boundaries, Whole, Sound, Args, ArgsSize, Known, OperandsReadable;
    var n := OpSize(p.body[i]);
    BoundaryNoHole(p, i);
    if IsJump(p.body[i]) {
      OnlyJumpsHoldAddresses(p.body[i]);
      OneWord(body[i + 1..i + n], p.tab);
    } else {
      forall k | i <= k < i + n ensures body[k] == p.body[k] { NoHoleIn(p, i, k); }
      assert body[i + 1..i + n] == p.body[i + 1..i + n];
    }
  }

  lemma OneWord(ws: seq<nat>, tab: seq<string>)
    requires |ws| == 1
    ensures OperandsReadable([ArgAddress], ws, tab)
  {
    assert ws[1..] == [] && [ArgAddress][1..] == [];
  }

  lemma {:induction false} FilledReadable(p: Partial, body: seq<nat>, i: nat)
    requires Sound(p) && Resolve(p) == Some(body) && Readable(p.body, i, p.tab) && i <= |p.body|
    requires forall b :: b in Boundaries(p.body, i) ==> b in Boundaries(p.body, 0)
    ensures |body| == |p.body| && Readable(body, i, p.tab)
    decreases |p.body| - i
  {
    hide OpSize, InsReadable, Sound, Resolve;
    FilledSize(p, body);
    if i < |p.body| {
      assert i in Boundaries(p.body, i);
      ReadableIn(p.body, i, p.tab);
      InsFilled(p, body, i);
      FilledReadable(p, body, i + OpSize(p.body[i]));
    }
  }

  lemma FilledSize(p: Partial, body: seq<nat>)
    requires Resolve(p) == Some(body)
    ensures |body| == |p.body|
  {
  }

  // ----- the whole function -----

  lemma NothingFine(tab: seq<string>)
    requires Distinct(tab)
    ensures Fine(Partial([], map[], map[], tab))
  {
  }

  lemma BodyReads(cur: Scanned, name: string, params: seq<ILType>, ret: ILType, tab: seq<string>)
    requires ParseBody(cur, name, params, ret, tab).Some? && Distinct(tab)
    ensures var f := ParseBody(cur, name, params, ret, tab).value.1;
      && Distinct(f.tab) && Readable(f.body, 0, f.tab) && JumpsStay(f.body)
      && f.name == name && f.params == params && f.ret == ret
  {
    hide Sound, Fine, ParseLines, Resolve, Readable, JumpsStay, Boundaries;
    var p := Partial([], map[], map[], tab);
    var q := ParseLines(cur, p).value.1;
    NothingFine(tab);
    EmptySound(tab);
    LinesFine(cur, p);
    LinesSound(cur, p);
    FineParts(q);
    FilledReadable(q, Resolve(q).value, 0);
    FilledLands(q, Resolve(q).value);
  }

  lemma FineParts(p: Partial)
    requires Fine(p)
    ensures Distinct(p.tab) && Readable(p.body, 0, p.tab)
  {
  }

  lemma {:induction false} TypesKnown(cur: Scanned, ts: seq<ILType>)
    requires ParseTypes(cur, ts).Some? && forall i :: 0 <= i < |ts| ==> TypeKnown(ts[i])
    ensures var rs := ParseTypes(cur, ts).value.1; forall i :: 0 <= i < |rs| ==> TypeKnown(rs[i])
    decreases |cur.rest|
  {
    hide NextOrFail;
    var r := NextOrFail(cur).value;
    if r.token == TkIdentifier { TypesKnown(r, ts + [GetType(r.raw).value]); }
  }

  /** Its name is a word, its types are known, and its body consists of instructions that can be written. */
  lemma AcceptedIsReadable(cur: Scanned, tab: seq<string>)
    requires ParseFunctionDef(cur, tab).Some? && Distinct(tab)
    ensures var f := ParseFunctionDef(cur, tab).value.1;
      Distinct(f.tab) && Readable(f.body, 0, f.tab) && JumpsStay(f.body) && HeaderOK(f.name, f.params, f.ret)
  {
    hide Distinct, Readable, JumpsStay, ParseBody, NextOrFail, SkipNewlines, ParseTypes, TokenOK, IsWord, GetType;
    var c := SkipNewlines(cur);
    NextFine(c);
    var n := NextToken(c, TkIdentifier).value;
    IdentifierIsWord(n);
    var o := NextToken(n, TkOpenParen).value;
    TypesKnown(o, []);
    var (d, params) := ParseTypes(o, []).value;
    var r := NextToken(d, TkIdentifier).value;
    var ret := GetType(r.raw).value;
    KnownType(r.raw);
    BodyReads(NextToken(r, TkNewLine).value, n.raw, params, ret, tab);
  }

  lemma KnownType(name: string)
    ensures GetType(name).Some? ==> TypeKnown(GetType(name).value)
  {
  }

  /**
   Any accepted function, put into a program and written out of it, can be read into the program
   again: its own words come back exactly if the scan finds the targets of its jumps and these start
   instructions. Where no high word of an integer is an opcode with operands, that is exactly if no
   jump leads to its end.
   */
  lemma AcceptedRewrites(cur: Scanned, tab: seq<string>, now: seq<string>, code: seq<nat>, address: nat)
    requires ParseFunctionDef(cur, tab).Some? && Distinct(tab) && Distinct(now)
      && ParseFunctionDef(cur, tab).value.1.tab <= now
    requires PlacedAt(code, address, ParseFunctionDef(cur, tab).value.1.body)
    ensures var p := ParseFunctionDef(cur, tab).value.1;
      && Readable(p.body, 0, now)
      && var f := FunctionOf(p.name, p.params, p.ret, p.body, now);
         var again := AllKnown(f.inss) && ReadsAgain(Written(code, address, f), p.name, p.params, p.ret, p.body, now);
         && (again <==> TargetsFound(code, address, f.inss))
         && (HighWordsOK(f.inss) ==> (again <==> !JumpsTo(p.body, 0, |p.body|)))
  {
    hide ParseFunctionDef, Readable, Disassemble, PlacedAt, Distinct, TargetsFound, Written, ReadsAgain, HighWordsOK,
      JumpsTo, JumpsStay, HeaderOK, FnShaped, CodeAt, AllKnown;
    AcceptedIsReadable(cur, tab);
    var p := ParseFunctionDef(cur, tab).value.1;
    ReadableGrows(p.body, 0, p.tab, now);
    RewrittenExactly(p.name, p.params, p.ret, p.body, now, code, address);
    if HighWordsOK(Disassemble(p.body, 0, now)) {
      RewrittenIfHighWordsOK(p.name, p.params, p.ret, p.body, now, code, address);
    }
  }
}

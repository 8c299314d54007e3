/** The parser as it moves its scanner along a text (pkg/il/text/read.go). */
module Parsers {
  import opened Values
  import opened Words
  import opened StringTables
  import opened Opcodes
  import opened Keywords
  import opened Scanners
  import opened Assembly
  import opened Parsing

  class Parser {
    const scanner: Scanner
    const strings: StringTable

    ghost predicate Valid()
      reads this, scanner, strings
    {
      scanner.Valid() && strings.Valid()
    }

    ghost function Cur(): Scanned
      requires scanner.Valid()
      reads this, scanner
    {
      Scanned(scanner.token, scanner.RawText(), scanner.text[scanner.current..], scanner.state)
    }

    constructor (s: Scanner, strings: StringTable)
      ensures scanner == s && this.strings == strings
    {
      scanner, this.strings := s, strings;
    }

    method NextOrFail() returns (ok: bool)
      requires scanner.Valid()
      modifies scanner
      ensures scanner.Valid() && ok == Parsing.NextOrFail(old(Cur())).Some?
      ensures ok ==> Cur() == Parsing.NextOrFail(old(Cur())).value
    {
      hide Loop;
      var done := scanner.Next();
      ok := done && scanner.token != TkNone && scanner.token != TkError;
    }

    method NextToken(t: Token) returns (ok: bool)
      requires scanner.Valid()
      modifies scanner
      ensures scanner.Valid() && ok == Parsing.NextToken(old(Cur()), t).Some?
      ensures ok ==> Cur() == Parsing.NextToken(old(Cur()), t).value
    {
      hide Parsing.NextOrFail;
      ok := NextOrFail();
      ok := ok && !scanner.AtEnd() && scanner.token == t;
    }

    method SkipNewlines()
      requires scanner.Valid()
      modifies scanner
      ensures scanner.Valid() && Cur() == Parsing.SkipNewlines(old(Cur()))
    {
      hide Loop;
      var more := true;
      while more && scanner.token == TkNewLine
        invariant scanner.Valid()
        invariant Parsing.SkipNewlines(old(Cur())) == if more then Parsing.SkipNewlines(Cur()) else Cur()
        decreases if more && scanner.token == TkNewLine then 1 + |scanner.text| - scanner.current else 0
      {
        more := scanner.Next();
      }
    }

    /** Appends the words of one operand, read from the current token. */
    method ParseOperand(a: Arg, body: seq<nat>, ghost labels: map<string, nat>, fixups: map<nat, string>)
      returns (ok: bool, body': seq<nat>, fixups': map<nat, string>)
      requires Valid()
      modifies strings
      ensures Valid()
      ensures var p := Parsing.ParseOperand(a, old(Cur()), Partial(body, labels, fixups, old(strings.Contents())));
        ok == p.Some? && (ok ==> p.value == Partial(body', labels, fixups', strings.Contents()))
    {
      hide Register, ParseInt, Unescape, Intern, IndexOf;
      ok, body', fixups' := false, body, fixups;
      ghost var c := Cur();
      var token, raw := scanner.token, scanner.RawText();
      match a {
        case ArgString =>
          var s := AsStringLiteral(Scanned(token, raw, "", Scan));
          if s.Some? { var id := strings.GetID(s.value); ok, body' := true, body + [id]; }
        case ArgFunction =>
          if token == TkIdentifier { var id := strings.GetID(raw); ok, body' := true, body + [id]; }
        case ArgInt =>
          var i := AsIntegerLiteral(Scanned(token, raw, "", Scan));
          if i.Some? { ok, body' := true, body + [Low(i.value), High(i.value)]; }
        case ArgDouble =>
        case ArgBool =>
          if token == TkIdentifier && raw == "true" { ok, body' := true, body + [1]; }
          else if token == TkIdentifier && raw == "false" { ok, body' := true, body + [0]; }
        case ArgAddress =>
          if token == TkIdentifier { ok, fixups', body' := true, fixups[|body| := raw], body + [0]; }
        case ArgRegister =>
          if token == TkIdentifier {
            var n := Register(raw);
            if n.Some? { ok, body' := true, body + [n.value]; }
          }
      }
    }

    method ParseOperands(args: seq<Arg>, body: seq<nat>, ghost labels: map<string, nat>, fixups: map<nat, string>)
      returns (ok: bool, body': seq<nat>, fixups': map<nat, string>)
      requires Valid()
      modifies scanner, strings
      ensures Valid()
      ensures var r := Parsing.ParseOperands(args, old(Cur()), Partial(body, labels, fixups, old(strings.Contents())));
        ok == r.Some? && (ok ==> r.value == (Cur(), Partial(body', labels, fixups', strings.Contents())))
    {
      hide Parsing.ParseOperand, Parsing.NextOrFail;
      ghost var c0, p0 := Cur(), Partial(body, labels, fixups, strings.Contents());
      ok, body', fixups' := true, body, fixups;
      var k := 0;
      assert args[0..] == args;
      while k < |args|
        invariant k <= |args| && Valid()
        invariant Parsing.ParseOperands(args, c0, p0) == Parsing.ParseOperands(args[k..], Cur(),
          Partial(body', labels, fixups', strings.Contents()))
      {
        assert args[k..][0] == args[k] && args[k..][1..] == args[k + 1..];
        ok := NextOrFail();
        if !ok { return; }
        ok, body', fixups' := ParseOperand(args[k], body', labels, fixups');
        if !ok { return; }
        k := k + 1;
      }
    }

    /** The lines of a body; the current token ends the line before it. */
    method ParseLines() returns (ok: bool, body: seq<nat>, labels: map<string, nat>, fixups: map<nat, string>)
      requires Valid()
      modifies scanner, strings
      ensures Valid()
      ensures var r := Parsing.ParseLines(old(Cur()), Partial([], map[], map[], old(strings.Contents())));
        ok == r.Some? && (ok ==> r.value == (Cur(), Partial(body, labels, fixups, strings.Contents())))
    {
      hide Parsing.SkipNewlines, Parsing.ParseOperands, GetOpcode, Parsing.NextOrFail, Parsing.NextToken;
      ok, body, labels, fixups := false, [], map[], map[];
      ghost var r := Parsing.ParseLines(Cur(), Partial([], map[], map[], strings.Contents()));
      while true
        invariant Valid() && !ok
        invariant r == Parsing.ParseLines(Cur(), Partial(body, labels, fixups, strings.Contents()))
        decreases |Cur().rest|
      {
        ghost var here := Cur();
        SkipNewlines();
        if scanner.token == TkLabel && |scanner.RawText()| >= 1 {
          var raw := scanner.RawText();
          labels := labels[raw[..|raw| - 1] := |body|];
          var more := NextOrFail();
          if !more { return; }
        } else {
          if scanner.token != TkIdentifier { return; }
          if scanner.RawText() == "end" {
            ok := true;
            return;
          }
          var op := GetOpcode(scanner.RawText());
          if op.None? { return; }
          var more;
          more, body, fixups := ParseOperands(Args(op.value), body + [op.value], labels, fixups);
          if !more { return; }
          more := NextToken(TkNewLine);
          if !more { return; }
        }
      }
    }

    /** A body: its lines, and the positions of labels filled in. */
    method ParseFunctionBody() returns (body: Option<seq<nat>>)
      requires Valid()
      modifies scanner, strings
      ensures Valid()
      ensures forall name, params, ret ::
        var r := ParseBody(old(Cur()), name, params, ret, old(strings.Contents()));
        body.Some? == r.Some?
            && (body.Some? ==> r.value == (Cur(), Parsed(name, params, ret, body.value, strings.Contents())))
    {
      hide Parsing.ParseLines, Resolve;
      var ok, words, labels, fixups := ParseLines();
      if !ok { return None; }
      body := FillHoles(words, labels, fixups, strings.Contents());
    }

    /** Parameter types, up to the first token that is not a name. */
    method ParseParamTypes() returns (params: Option<seq<ILType>>)
      requires Valid()
      modifies scanner
      ensures Valid()
      ensures var r := ParseTypes(old(Cur()), []);
        params.Some? == r.Some? && (params.Some? ==> r.value == (Cur(), params.value))
    {
      hide Parsing.NextOrFail, GetType;
      ghost var r := ParseTypes(Cur(), []);
      var ts: seq<ILType> := [];
      while true
        invariant Valid() && r == ParseTypes(Cur(), ts)
        decreases |Cur().rest|
      {
        var more := NextOrFail();
        if !more { return None; }
        if scanner.token != TkIdentifier { return Some(ts); }
        var t := GetType(scanner.RawText());
        if t.None? { return None; }
        ts := ts + [t.value];
      }
    }

    /** The rest of a definition once its name is known: parameters, return type and body. */
    method ParseSignature(name: string) returns (f: Option<(seq<ILType>, ILType, seq<nat>)>)
      requires Valid()
      modifies scanner, strings
      ensures Valid()
      ensures var r := ParseParams(old(Cur()), name, old(strings.Contents()));
        f.Some? == r.Some?
            && (f.Some? ==> r.value == (Cur(), Parsed(name, f.value.0, f.value.1, f.value.2, strings.Contents())))
    {
      hide Parsing.NextToken, ParseTypes, ParseBody, GetType;
      var ok := NextToken(TkOpenParen);
      if !ok { return None; }
      var params := ParseParamTypes();
      if params.None? || scanner.AtEnd() || scanner.token != TkCloseParen { return None; }
      ok := NextToken(TkIdentifier);
      if !ok { return None; }
      var ret := GetType(scanner.RawText());
      if ret.None? { return None; }
      ok := NextToken(TkNewLine);
      if !ok { return None; }
      ghost var r := ParseBody(Cur(), name, params.value, ret.value, strings.Contents());
      var body := ParseFunctionBody();
      assert body.Some? == r.Some?;
      if body.None? { return None; }
      f := Some((params.value, ret.value, body.value));
    }

    /** One function definition, with its strings added to the table. */
    method ParseFunctionDef() returns (name: string, f: Option<(seq<ILType>, ILType, seq<nat>)>)
      requires Valid()
      modifies scanner, strings
      ensures Valid()
      ensures var r := Parsing.ParseFunctionDef(old(Cur()), old(strings.Contents()));
        f.Some? == r.Some?
            && (f.Some? ==> r.value == (Cur(), Parsed(name, f.value.0, f.value.1, f.value.2, strings.Contents())))
    {
      hide Parsing.SkipNewlines, Parsing.NextToken, ParseParams;
      name, f := "", None;
      SkipNewlines();
      if scanner.AtEnd() || scanner.token != TkIdentifier || scanner.RawText() != "fn" { return; }
      var ok := NextToken(TkIdentifier);
      if !ok { return; }
      name := scanner.RawText();
      f := ParseSignature(name);
    }
  }

  /** Writes the position of its label into every hole; a label without a position is an error. */
  method FillHoles(words: seq<nat>, labels: map<string, nat>, fixups: map<nat, string>, ghost tab: seq<string>)
    returns (body: Option<seq<nat>>)
    ensures body == Resolve(Partial(words, labels, fixups, tab))
  {
    var todo, filled := fixups.Keys, words;
    while todo != {}
      invariant todo <= fixups.Keys && |filled| == |words|
      invariant forall i :: i in fixups && i !in todo ==> fixups[i] in labels
      invariant forall i :: 0 <= i < |words| ==>
        filled[i] == if i in fixups && i !in todo && fixups[i] in labels then labels[fixups[i]] else words[i]
      decreases |todo|
    {
      SomeIndex(todo);
      var i :| i in todo;
      if fixups[i] !in labels { return None; }
      if i < |words| { filled := filled[i := labels[fixups[i]]]; }
      todo := todo - {i};
    }
    ghost var p := Partial(words, labels, fixups, tab);
    assert Resolve(p).Some? && Resolve(p).value == filled;
    body := Some(filled);
  }

  lemma SomeIndex(s: set<nat>)
    requires s != {}
    ensures exists i :: i in s
  {
    if !exists i :: i in s { assert false; }
  }
}

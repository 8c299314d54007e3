/** The scanner of IL text (pkg/il/text/scanner.go), on what is left of the text. */
module Scanners {
  import opened Values
  import opened Decimals

  datatype Token =
    | TkNone | TkError | TkIdentifier | TkStringLiteral | TkIntegerLiteral | TkFloatLiteral
    | TkNewLine | TkLabel | TkOpenParen | TkCloseParen

  datatype ScanMode =
    | Scan | BeginComment | Comment | StringLiteral | StringLiteralEscape
    | DecimalOrHexOrFloatLiteral | DecimalOrFloatLiteral | FloatLiteral | HexLiteral | IdentifierOrLabel
    | End | Error

  const NUL := '\U{0000}'

  // Letters and digits are those of ASCII.

  predicate IsLetter(c: char) {
    'a' <= c <= 'z' || 'A' <= c <= 'Z'
  }

  predicate IsSpace(c: char) {
    c in {' ', '\t', '\n', '\r', '\U{000B}', '\U{000C}', '\U{0085}', '\U{00A0}'}
  }

  predicate IsHexDigit(c: char) {
    IsDigit(c) || 'a' <= c <= 'f' || 'A' <= c <= 'F'
  }

  /** What a rune does: the new mode, a token if it completes one, and whether it is part of that token. */
  datatype Action = Action(mode: ScanMode, token: Token, taken: bool)

  function Go(mode: ScanMode): Action { Action(mode, TkNone, false) }
  function Consume(mode: ScanMode, t: Token): Action { Action(mode, t, true) }
  function Leave(mode: ScanMode, t: Token): Action { Action(mode, t, false) }

  /** A literal ends before a space, a comment or the end of the text. */
  function EndLiteral(c: char, mode: ScanMode, t: Token): Action {
    if IsSpace(c) || c == '/' || c == NUL then Leave(mode, t) else Leave(Error, t)
  }

  function OnRune(mode: ScanMode, c: char): (a: Action)
    requires mode != End && mode != Error
    ensures a.mode != End
  {
    match mode
    case Scan =>
      if c == NUL then Go(Scan)
      else if c == '\n' then Consume(Scan, TkNewLine)
      else if c == '/' then Go(BeginComment)
      else if c == '"' then Go(StringLiteral)
      else if c == '(' then Consume(Scan, TkOpenParen)
      else if c == ')' then Consume(Scan, TkCloseParen)
      else if c == '0' || c == '-' then Go(DecimalOrHexOrFloatLiteral)
      else if IsDigit(c) then Go(DecimalOrFloatLiteral)
      else if c == '.' then Go(FloatLiteral)
      else if IsLetter(c) then Go(IdentifierOrLabel)
      else if IsSpace(c) then Go(Scan)
      else Go(Error)
    case BeginComment => if c == '/' then Go(Comment) else Go(Error)
    case Comment => if c == '\n' then Consume(Comment, TkNewLine) else Go(Comment)
    case StringLiteral =>
      if c == '\\' then Go(StringLiteralEscape)
      else if c == '"' then Consume(StringLiteral, TkStringLiteral)
      else if c == '\n' || c == NUL then Go(Error)
      else Go(StringLiteral)
    case StringLiteralEscape => if c == NUL || c == '\n' then Go(Error) else Go(StringLiteral)
    case IdentifierOrLabel =>
      if c == ':' then Consume(IdentifierOrLabel, TkLabel)
      else if IsSpace(c) || c == '/' || c == '(' || c == ')' || c == NUL then Leave(IdentifierOrLabel, TkIdentifier)
      else if !IsDigit(c) && !IsLetter(c) && c != '_' then Go(Error)
      else Go(IdentifierOrLabel)
    case DecimalOrHexOrFloatLiteral =>
      if IsDigit(c) then Go(DecimalOrFloatLiteral)
      else if c == 'x' || c == 'X' then Go(HexLiteral)
      else EndLiteral(c, mode, TkIntegerLiteral)
    case DecimalOrFloatLiteral =>
      if IsDigit(c) then Go(mode)
      else if c == '.' then Go(FloatLiteral)
      else EndLiteral(c, mode, TkIntegerLiteral)
    case FloatLiteral => if IsDigit(c) then Go(mode) else EndLiteral(c, mode, TkFloatLiteral)
    case HexLiteral => if IsHexDigit(c) then Go(mode) else EndLiteral(c, mode, TkIntegerLiteral)
  }

  /** A token, its text, what is left of the text after it, and the mode the scanner is left in. */
  datatype Scanned = Scanned(token: Token, raw: string, rest: string, mode: ScanMode)

  /** Where the token begins: while scanning for one, and at the line break that ends a comment. */
  predicate Marks(mode: ScanMode, c: char) {
    mode.Scan? || (mode.Comment? && c == '\n')
  }

  /** The loop over the runes; `raw` is what was read since the token began. */
  function Loop(mode: ScanMode, raw: string, rest: string): (r: Scanned)
    requires mode != End && mode != Error
    ensures |r.rest| <= |rest|
    ensures mode.Scan? && r.token != TkNone && r.token != TkError ==> |r.rest| < |rest|
    decreases |rest|
  {
    var c := if rest == "" then NUL else rest[0];
    var a := OnRune(mode, c);
    var begun := if Marks(mode, c) then "" else raw;
    if a.mode == Error then Scanned(TkError, "", rest, Error)
    else if rest == "" then Scanned(a.token, begun, "", End)
    else if a.token == TkNone then Loop(a.mode, begun + [c], rest[1..])
    else if a.taken then Scanned(a.token, begun + [c], rest[1..], a.mode)
    else Scanned(a.token, begun, rest, a.mode)
  }

  /** The next token, from the start of what is left. */
  function Next(rest: string): (r: Scanned)
    ensures |r.rest| <= |rest|
    ensures r.token != TkNone && r.token != TkError ==> |r.rest| < |rest|
  {
    Loop(Scan, "", rest)
  }

  // ----- what tokens are read as -----

  function Unescape(s: string): string {
    if s == "" then "" else (if s[0] == '\\' then "" else [s[0]]) + Unescape(s[1..])
  }

  function Escape(s: string): string {
    if s == "" then "" else (if s[0] == '"' then "\\\"" else [s[0]]) + Escape(s[1..])
  }

  function AsStringLiteral(r: Scanned): Option<string> {
    if r.token.TkStringLiteral? && |r.raw| >= 2 then Some(Unescape(r.raw[1..|r.raw| - 1])) else None
  }

  function AsIdentifier(r: Scanned): Option<string> {
    if r.token.TkIdentifier? then Some(r.raw) else None
  }

  function AsLabel(r: Scanned): Option<string> {
    if r.token.TkLabel? && |r.raw| >= 1 then Some(r.raw[..|r.raw| - 1]) else None
  }

  // ----- spaces and words -----

  predicate Delimited(rest: string) {
    rest != "" && (rest[0] == ' ' || rest[0] == '\n' || rest[0] == '(' || rest[0] == ')')
  }

  predicate WordChar(c: char) {
    IsLetter(c) || IsDigit(c) || c == '_'
  }

  predicate IsWord(w: string) {
    |w| > 0 && IsLetter(w[0]) && forall i :: 0 <= i < |w| ==> WordChar(w[i])
  }

  /** One turn of the loop. */
  lemma LoopStep(mode: ScanMode, raw: string, c: char, rest: string)
    requires mode != End && mode != Error
    ensures var a, begun := OnRune(mode, c), if Marks(mode, c) then "" else raw;
      Loop(mode, raw, [c] + rest) ==
        if a.mode == Error then Scanned(TkError, "", [c] + rest, Error)
        else if a.token == TkNone then Loop(a.mode, begun + [c], rest)
        else if a.taken then Scanned(a.token, begun + [c], rest, a.mode)
        else Scanned(a.token, begun, [c] + rest, a.mode)
  {
    hide OnRune;
    assert ([c] + rest)[0] == c && ([c] + rest)[1..] == rest;
  }

  /** While scanning for a token, what was read before does not matter. */
  lemma ScanForgets(raw: string, rest: string)
    ensures Loop(Scan, raw, rest) == Next(rest)
  {
    hide OnRune;
  }

  lemma FirstOf(w: string, rest: string)
    requires w != ""
    ensures w + rest == [w[0]] + (w[1..] + rest) && w == [w[0]] + w[1..]
  {
  }

  lemma Regroup(raw: string, w: string)
    requires w != ""
    ensures raw + [w[0]] + w[1..] == raw + w
  {
  }

  /** The rest of a word, up to the character that bounds it. */
  lemma {:induction false} WordRest(raw: string, w: string, rest: string)
    requires (forall i :: 0 <= i < |w| ==> WordChar(w[i])) && Delimited(rest)
    ensures Loop(IdentifierOrLabel, raw, w + rest) == Scanned(TkIdentifier, raw + w, rest, IdentifierOrLabel)
    decreases |w|
  {
    hide Loop;
    if w == "" {
      assert w + rest == [rest[0]] + rest[1..] && raw + w == raw;
      LoopStep(IdentifierOrLabel, raw, rest[0], rest[1..]);
    } else {
      FirstOf(w, rest);
      LoopStep(IdentifierOrLabel, raw, w[0], w[1..] + rest);
      Regroup(raw, w);
      assert WordChar(w[0]);
      WordRest(raw + [w[0]], w[1..], rest);
    }
  }

  lemma {:induction false} LabelRest(raw: string, w: string, rest: string)
    requires forall i :: 0 <= i < |w| ==> WordChar(w[i])
    ensures Loop(IdentifierOrLabel, raw, w + ([':'] + rest)) ==
      Scanned(TkLabel, raw + w + [':'], rest, IdentifierOrLabel)
    decreases |w|
  {
    hide Loop;
    if w == "" {
      assert w + ([':'] + rest) == [':'] + rest && raw + w == raw;
      LoopStep(IdentifierOrLabel, raw, ':', rest);
    } else {
      FirstOf(w, [':'] + rest);
      LoopStep(IdentifierOrLabel, raw, w[0], w[1..] + ([':'] + rest));
      Regroup(raw, w);
      assert WordChar(w[0]);
      LabelRest(raw + [w[0]], w[1..], rest);
    }
  }

  lemma WordStarts(w: string, rest: string)
    requires IsWord(w)
    ensures Next(w + rest) == Loop(IdentifierOrLabel, [w[0]], w[1..] + rest)
  {
    hide Loop;
    FirstOf(w, rest);
    LoopStep(Scan, "", w[0], w[1..] + rest);
    assert "" + [w[0]] == [w[0]];
  }

  lemma WordScanned(w: string, rest: string)
    requires IsWord(w) && Delimited(rest)
    ensures Next(w + rest) == Scanned(TkIdentifier, w, rest, IdentifierOrLabel)
  {
    hide Next, Loop;
    WordStarts(w, rest);
    WordRest([w[0]], w[1..], rest);
    FirstOf(w, rest);
  }

  lemma LabelScanned(w: string, rest: string)
    requires IsWord(w)
    ensures Next(w + ([':'] + rest)) == Scanned(TkLabel, w + [':'], rest, IdentifierOrLabel)
  {
    hide Next, Loop;
    WordStarts(w, [':'] + rest);
    LabelRest([w[0]], w[1..], rest);
    FirstOf(w, rest);
  }

  /** A line break or a parenthesis is a token by itself. */
  lemma OneRune(c: char, t: Token, rest: string)
    requires OnRune(Scan, c) == Consume(Scan, t) && t != TkNone
    ensures Next([c] + rest) == Scanned(t, [c], rest, Scan)
  {
    hide Loop, OnRune;
    LoopStep(Scan, "", c, rest);
    assert "" + [c] == [c];
  }

  lemma SpaceScanned(rest: string)
    ensures Next([' '] + rest) == Next(rest)
  {
    hide Loop;
    LoopStep(Scan, "", ' ', rest);
    ScanForgets("" + [' '], rest);
  }

  lemma Punctuation(rest: string)
    ensures Next(['\n'] + rest) == Scanned(TkNewLine, "\n", rest, Scan)
    ensures Next(['('] + rest) == Scanned(TkOpenParen, "(", rest, Scan)
    ensures Next([')'] + rest) == Scanned(TkCloseParen, ")", rest, Scan)
    ensures Next([' '] + rest) == Next(rest)
  {
    hide Next;
    OneRune('\n', TkNewLine, rest);
    OneRune('(', TkOpenParen, rest);
    OneRune(')', TkCloseParen, rest);
    SpaceScanned(rest);
  }

  // ----- what any token is made of -----

  /** No line break and no NUL. */
  predicate OneLine(s: string) {
    forall i :: 0 <= i < |s| ==> s[i] != '\n' && s[i] != NUL
  }

  /** An identifier is a word, and a string literal is on one line. */
  predicate TokenOK(r: Scanned) {
    (r.token.TkIdentifier? ==> IsWord(r.raw)) && (r.token.TkStringLiteral? ==> OneLine(r.raw))
  }

  lemma {:induction false} LoopTokenOK(mode: ScanMode, raw: string, rest: string)
    requires mode != End && mode != Error
    requires mode.IdentifierOrLabel? ==> IsWord(raw)
    requires mode.StringLiteral? || mode.StringLiteralEscape? ==> OneLine(raw)
    ensures TokenOK(Loop(mode, raw, rest))
    decreases |rest|
  {
    if rest != "" {
      var c := rest[0];
      var a, begun := OnRune(mode, c), if Marks(mode, c) then "" else raw;
      if a.mode != Error && a.token == TkNone { LoopTokenOK(a.mode, begun + [c], rest[1..]); }
    }
  }

  lemma NextTokenOK(rest: string)
    ensures TokenOK(Next(rest))
  {
    LoopTokenOK(Scan, "", rest);
  }

  // ----- string literals -----

  /** The strings that a literal can hold. */
  predicate Quotable(s: string) {
    forall i :: 0 <= i < |s| ==> s[i] != '\\' && s[i] != '\n' && s[i] != NUL
  }

  /** The rest of a quoted string. */
  lemma {:induction false} QuotedRest(raw: string, s: string, rest: string)
    requires Quotable(s)
    ensures Loop(StringLiteral, raw, Escape(s) + (['"'] + rest)) ==
      Scanned(TkStringLiteral, raw + Escape(s) + ['"'], rest, StringLiteral)
    ensures Unescape(Escape(s)) == s
    decreases |s|
  {
    hide Loop;
    if s == "" {
      assert Escape(s) + (['"'] + rest) == ['"'] + rest && raw + Escape(s) == raw;
      LoopStep(StringLiteral, raw, '"', rest);
    } else {
      var c, t := s[0], Escape(s[1..]);
      assert c != '\\' && c != '\n' && c != NUL;
      if c == '"' {
        assert Escape(s) == "\\\"" + t;
        assert Escape(s) + (['"'] + rest) == ['\\'] + (['"'] + (t + (['"'] + rest)));
        LoopStep(StringLiteral, raw, '\\', ['"'] + (t + (['"'] + rest)));
        LoopStep(StringLiteralEscape, raw + ['\\'], '"', t + (['"'] + rest));
        assert raw + ['\\'] + ['"'] + t == raw + Escape(s);
        QuotedRest(raw + ['\\'] + ['"'], s[1..], rest);
        UnescapeQuote(t);
      } else {
        assert Escape(s) == [c] + t;
        assert Escape(s) + (['"'] + rest) == [c] + (t + (['"'] + rest));
        LoopStep(StringLiteral, raw, c, t + (['"'] + rest));
        assert raw + [c] + t == raw + Escape(s);
        QuotedRest(raw + [c], s[1..], rest);
        assert ([c] + t)[1..] == t;
        assert s == [c] + s[1..];
      }
    }
  }

  lemma {:induction false} UnescapedQuotable(s: string)
    requires OneLine(s)
    ensures Quotable(Unescape(s))
    decreases |s|
  {
    if s != "" {
      UnescapedQuotable(s[1..]);
      assert s[0] != '\n' && s[0] != NUL;
    }
  }

  /** Every string that a literal is read as can be written again. */
  lemma LiteralIsQuotable(r: Scanned)
    requires TokenOK(r) && AsStringLiteral(r).Some?
    ensures Quotable(AsStringLiteral(r).value)
  {
    hide Quotable;
    var s := r.raw[1..|r.raw| - 1];
    assert OneLine(s);
    UnescapedQuotable(s);
  }

  lemma UnescapeQuote(t: string)
    ensures Unescape("\\\"" + t) == "\"" + Unescape(t)
  {
    var s := "\\\"" + t;
    assert s[0] == '\\' && s[1..] == "\"" + t && s[1..][0] == '"' && s[1..][1..] == t;
  }

  /** A quoted string reads back as itself. */
  lemma QuotedScanned(s: string, rest: string)
    requires Quotable(s)
    ensures var r := Next(['"'] + (Escape(s) + (['"'] + rest)));
      r == Scanned(TkStringLiteral, ['"'] + Escape(s) + ['"'], rest, StringLiteral) && AsStringLiteral(r) == Some(s)
  {
    hide Loop;
    LoopStep(Scan, "", '"', Escape(s) + (['"'] + rest));
    QuotedRest("" + ['"'], s, rest);
    var raw := ['"'] + Escape(s) + ['"'];
    assert "" + ['"'] == ['"'];
    assert raw[1..|raw| - 1] == Escape(s);
  }

  predicate NoBackslash(s: string) {
    forall i :: 0 <= i < |s| ==> s[i] != '\\'
  }

  lemma {:induction false} UnescapeLeavesNone(s: string)
    ensures NoBackslash(Unescape(s))
  {
    if s != "" { UnescapeLeavesNone(s[1..]); }
  }

  /** A line break or NUL inside a literal is an error. */
  lemma {:induction false} QuotedFails(raw: string, s: string, rest: string)
    requires NoBackslash(s) && !Quotable(s)
    ensures Loop(StringLiteral, raw, Escape(s) + rest).token == TkError
    decreases |s|
  {
    hide Loop;
    var c, t := s[0], Escape(s[1..]);
    assert c != '\\';
    if c == '"' {
      assert Escape(s) + rest == ['\\'] + (['"'] + (t + rest));
      LoopStep(StringLiteral, raw, '\\', ['"'] + (t + rest));
      LoopStep(StringLiteralEscape, raw + ['\\'], '"', t + rest);
      QuotableRest(s);
      QuotedFails(raw + ['\\'] + ['"'], s[1..], rest);
    } else {
      assert Escape(s) + rest == [c] + (t + rest);
      LoopStep(StringLiteral, raw, c, t + rest);
      if c != '\n' && c != NUL {
        QuotableRest(s);
        QuotedFails(raw + [c], s[1..], rest);
      }
    }
  }

  lemma QuotableRest(s: string)
    requires s != "" && NoBackslash(s) && !Quotable(s) && s[0] != '\n' && s[0] != NUL
    ensures NoBackslash(s[1..]) && !Quotable(s[1..])
  {
    var i :| 0 <= i < |s| && !(s[i] != '\\' && s[i] != '\n' && s[i] != NUL);
    assert i > 0 && s[1..][i - 1] == s[i];
  }

  /** Which strings survive being written as a literal: exactly those without backslash, line break and NUL. */
  lemma QuotedExactly(s: string, rest: string)
    ensures AsStringLiteral(Next(['"'] + (Escape(s) + (['"'] + rest)))) == Some(s) <==> Quotable(s)
  {
    hide Loop;
    if Quotable(s) {
      QuotedScanned(s, rest);
    } else if NoBackslash(s) {
      LoopStep(Scan, "", '"', Escape(s) + (['"'] + rest));
      QuotedFails("" + ['"'], s, ['"'] + rest);
    } else {
      var r := Next(['"'] + (Escape(s) + (['"'] + rest)));
      if AsStringLiteral(r).Some? { UnescapeLeavesNone(r.raw[1..|r.raw| - 1]); }
    }
  }

  // ----- integers -----

  function DigitOf(c: char): nat {
    if IsDigit(c) then DigitValue(c)
    else if 'a' <= c <= 'f' then 10 + (c as int - 'a' as int)
    else if 'A' <= c <= 'F' then 10 + (c as int - 'A' as int)
    else 99
  }

  /** Digits in a base, or None for a character that is no digit of it. */
  function Magnitude(base: nat, t: string): Option<nat> {
    if t == "" then Some(0)
    else match Magnitude(base, t[..|t| - 1])
      case None => None
      case Some(n) => var d := DigitOf(t[|t| - 1]); if d < base then Some(n * base + d) else None
  }

  /** strconv.ParseInt in base 0: hexadecimal after 0x, octal after 0, and decimal. */
  function ParseUnsigned(t: string): Option<nat> {
    if t == "" then None
    else if |t| > 2 && t[0] == '0' && (t[1] == 'x' || t[1] == 'X') then Magnitude(16, t[2..])
    else if |t| > 1 && t[0] == '0' then Magnitude(8, t[1..])
    else Magnitude(10, t)
  }

  function ParseInt(t: string): Option<int64> {
    var negative := t != "" && t[0] == '-';
    match ParseUnsigned(if negative then t[1..] else t)
    case None => None
    case Some(n) =>
      var i: int := if negative then -(n as int) else n as int;
      if -TWO63 <= i < TWO63 then Some(i) else None
  }

  /** None where the source panics. */
  function AsIntegerLiteral(r: Scanned): Option<int64> {
    if r.token.TkIntegerLiteral? then ParseInt(r.raw) else None
  }

  function Printed(i: int): string {
    if i < 0 then ['-'] + Decimal(-i) else Decimal(i)
  }

  lemma {:induction false} MagnitudeOfDecimal(t: string)
    requires forall i :: 0 <= i < |t| ==> IsDigit(t[i])
    ensures Magnitude(10, t) == Some(DecimalValue(t))
  {
    if t != "" { MagnitudeOfDecimal(t[..|t| - 1]); }
  }

  lemma ParsePrinted(i: int64)
    ensures ParseInt(Printed(i)) == Some(i)
  {
    var j: int := i;
    var n: nat := if j < 0 then -j else j;
    var t := Decimal(n);
    DecimalRoundTrip(n);
    MagnitudeOfDecimal(t);
    assert ParseUnsigned(t) == Some(n);
    if i < 0 { assert Printed(i)[1..] == t; } else { assert IsDigit(t[0]); }
  }

  lemma {:induction false} DigitsRest(raw: string, t: string, rest: string)
    requires (forall i :: 0 <= i < |t| ==> IsDigit(t[i])) && rest != "" && (rest[0] == ' ' || rest[0] == '\n')
    ensures Loop(DecimalOrFloatLiteral, raw, t + rest) == Scanned(TkIntegerLiteral, raw + t, rest,
      DecimalOrFloatLiteral)
    decreases |t|
  {
    hide Loop;
    if t == "" {
      assert t + rest == [rest[0]] + rest[1..] && raw + t == raw;
      LoopStep(DecimalOrFloatLiteral, raw, rest[0], rest[1..]);
    } else {
      FirstOf(t, rest);
      LoopStep(DecimalOrFloatLiteral, raw, t[0], t[1..] + rest);
      Regroup(raw, t);
      DigitsRest(raw + [t[0]], t[1..], rest);
    }
  }

  predicate Blank(rest: string) {
    rest != "" && (rest[0] == ' ' || rest[0] == '\n')
  }

  predicate IsInteger(r: Scanned, raw: string, rest: string) {
    r.token == TkIntegerLiteral && r.raw == raw && r.rest == rest && r.mode != End && r.mode != Error
  }

  lemma PositiveScanned(n: nat, rest: string)
    requires n > 0 && Blank(rest)
    ensures IsInteger(Next(Decimal(n) + rest), Decimal(n), rest)
  {
    hide Loop, Decimal;
    var t := Decimal(n);
    DecimalRoundTrip(n);
    assert IsDigit(t[0]);
    FirstOf(t, rest);
    LoopStep(Scan, "", t[0], t[1..] + rest);
    DigitsRest("" + [t[0]], t[1..], rest);
    assert "" + [t[0]] + t[1..] == t;
  }

  lemma ZeroScanned(rest: string)
    requires Blank(rest)
    ensures IsInteger(Next("0" + rest), "0", rest)
  {
    hide Loop;
    LoopStep(Scan, "", '0', rest);
    assert rest == [rest[0]] + rest[1..] && "0" + rest == ['0'] + rest;
    LoopStep(DecimalOrHexOrFloatLiteral, "" + ['0'], rest[0], rest[1..]);
    assert "" + ['0'] == "0";
  }

  lemma NegativeScanned(n: nat, rest: string)
    requires Blank(rest)
    ensures IsInteger(Next(['-'] + Decimal(n) + rest), ['-'] + Decimal(n), rest)
  {
    hide Loop, Decimal;
    var t := Decimal(n);
    assert IsDigit(t[0]);
    FirstOf(t, rest);
    assert ['-'] + t + rest == ['-'] + (t + rest);
    LoopStep(Scan, "", '-', t + rest);
    LoopStep(DecimalOrHexOrFloatLiteral, "" + ['-'], t[0], t[1..] + rest);
    DigitsRest("" + ['-'] + [t[0]], t[1..], rest);
    assert "" + ['-'] + [t[0]] + t[1..] == ['-'] + t;
  }

  /** A printed integer reads back as itself. */
  lemma IntegerScanned(i: int64, rest: string)
    requires Blank(rest)
    ensures var r := Next(Printed(i) + rest);
      IsInteger(r, Printed(i), rest) && AsIntegerLiteral(r) == Some(i)
  {
    hide Next, Decimal;
    ParsePrinted(i);
    var j: int := i;
    if j < 0 {
      NegativeScanned(-j, rest);
    } else if j == 0 {
      DecimalRoundTrip(0);
      ZeroScanned(rest);
    } else {
      PositiveScanned(j, rest);
    }
  }

  // ----- hexadecimal literals -----

  function Power(base: nat, n: nat): nat {
    if n == 0 then 1 else base * Power(base, n - 1)
  }

  /** Digits by their places, the last one counting once. */
  function Positional(base: nat, ds: seq<nat>): nat {
    if ds == [] then 0 else ds[0] * Power(base, |ds| - 1) + Positional(base, ds[1..])
  }

  /** The characters of `t` are the digits `ds` of a base, in either case. */
  ghost predicate Spells(base: nat, t: string, ds: seq<nat>) {
    && base <= 16 && |t| == |ds|
    && forall i :: 0 <= i < |t| ==> ds[i] < base && t[i] in {"0123456789abcdef"[ds[i]], "0123456789ABCDEF"[ds[i]]}
  }

  lemma HexDigit(d: nat)
    requires d < 16
    ensures DigitOf("0123456789abcdef"[d]) == d && IsHexDigit("0123456789abcdef"[d])
    ensures DigitOf("0123456789ABCDEF"[d]) == d && IsHexDigit("0123456789ABCDEF"[d])
    ensures d < 10 ==> IsDigit("0123456789abcdef"[d]) && IsDigit("0123456789ABCDEF"[d])
  {
  }

  lemma {:induction false} PositionalAppend(base: nat, ds: seq<nat>, d: nat)
    ensures Positional(base, ds + [d]) == Positional(base, ds) * base + d
    decreases |ds|
  {
    if ds == [] {
      assert ds + [d] == [d] && [d][1..] == [];
    } else {
      assert (ds + [d])[1..] == ds[1..] + [d] && (ds + [d])[0] == ds[0];
      PositionalAppend(base, ds[1..], d);
      Shifted(base, ds[0], Power(base, |ds| - 1), Positional(base, ds[1..]));
    }
  }

  lemma Shifted(base: nat, a: nat, p: nat, q: nat)
    ensures a * (base * p) + q * base == (a * p + q) * base
  {
  }

  /** Digits of a base read as their value by their places. */
  lemma {:induction false} MagnitudeExact(base: nat, t: string, ds: seq<nat>)
    requires Spells(base, t, ds)
    ensures Magnitude(base, t) == Some(Positional(base, ds))
    decreases |t|
  {
    hide DigitOf;
    if t != "" {
      var n := |t| - 1;
      MagnitudeExact(base, t[..n], ds[..n]);
      HexDigit(ds[n]);
      PositionalAppend(base, ds[..n], ds[n]);
      assert ds == ds[..n] + [ds[n]];
    }
  }

  lemma {:induction false} HexRest(raw: string, t: string, ds: seq<nat>, rest: string)
    requires Spells(16, t, ds) && Blank(rest)
    ensures Loop(HexLiteral, raw, t + rest) == Scanned(TkIntegerLiteral, raw + t, rest, HexLiteral)
    decreases |t|
  {
    hide Loop, IsHexDigit;
    if t == "" {
      assert t + rest == [rest[0]] + rest[1..] && raw + t == raw;
      NoHexDigit();
      LoopStep(HexLiteral, raw, rest[0], rest[1..]);
    } else {
      FirstOf(t, rest);
      HexDigit(ds[0]);
      LoopStep(HexLiteral, raw, t[0], t[1..] + rest);
      Regroup(raw, t);
      HexRest(raw + [t[0]], t[1..], ds[1..], rest);
    }
  }

  lemma NoHexDigit()
    ensures !IsHexDigit(' ') && !IsHexDigit('\n')
  {
  }

  /** A hexadecimal literal reads as the value of its digits by their places, if that fits an int64. */
  lemma HexScanned(t: string, ds: seq<nat>, rest: string)
    requires Spells(16, t, ds) && t != "" && Blank(rest)
    ensures var r := Next("0x" + t + rest);
      && IsInteger(r, "0x" + t, rest)
      && AsIntegerLiteral(r) ==
           if Positional(16, ds) < 0x8000_0000_0000_0000 then Some(Positional(16, ds)) else None
  {
    hide Loop, Magnitude, Positional, Spells;
    assert "0x" + t + rest == ['0'] + (['x'] + (t + rest));
    LoopStep(Scan, "", '0', ['x'] + (t + rest));
    LoopStep(DecimalOrHexOrFloatLiteral, "" + ['0'], 'x', t + rest);
    HexRest("" + ['0'] + ['x'], t, ds, rest);
    assert "" + ['0'] + ['x'] + t == "0x" + t;
    MagnitudeExact(16, t, ds);
    assert ("0x" + t)[2..] == t && ("0x" + t)[0] == '0' && ("0x" + t)[1] == 'x';
  }

  lemma OctalToken(t: string, rest: string)
    requires (forall i :: 0 <= i < |t| ==> IsDigit(t[i])) && t != "" && Blank(rest)
    ensures IsInteger(Next("0" + t + rest), "0" + t, rest)
  {
    hide Loop;
    FirstOf(t, rest);
    assert "0" + t + rest == ['0'] + (t + rest);
    LoopStep(Scan, "", '0', t + rest);
    LoopStep(DecimalOrHexOrFloatLiteral, "" + ['0'], t[0], t[1..] + rest);
    DigitsRest("" + ['0'] + [t[0]], t[1..], rest);
    assert "" + ['0'] + [t[0]] + t[1..] == "0" + t;
  }

  lemma OctalValue(t: string, n: nat)
    requires t != "" && IsDigit(t[0]) && Magnitude(8, t) == Some(n)
    ensures ParseInt("0" + t) == if n < 0x8000_0000_0000_0000 then Some(n) else None
  {
    hide Magnitude, IsDigit;
    NoX();
    assert ("0" + t)[1..] == t && ("0" + t)[0] == '0' && ("0" + t)[1] == t[0];
  }

  /** A literal of digits that begins with a further 0 is octal. */
  lemma OctalScanned(t: string, ds: seq<nat>, rest: string)
    requires Spells(8, t, ds) && t != "" && Blank(rest)
    ensures var r := Next("0" + t + rest);
      && IsInteger(r, "0" + t, rest)
      && AsIntegerLiteral(r) == if Positional(8, ds) < 0x8000_0000_0000_0000 then Some(Positional(8, ds)) else None
  {
    hide Next, Magnitude, Positional, IsDigit, ParseInt;
    forall i | 0 <= i < |t| ensures IsDigit(t[i]) { HexDigit(ds[i]); }
    OctalToken(t, rest);
    MagnitudeExact(8, t, ds);
    OctalValue(t, Positional(8, ds));
  }

  lemma NoX()
    ensures !IsDigit('x') && !IsDigit('X')
  {
  }

  // ----- the scanner as it moves along a text -----

  class Scanner {
    const text: string
    var begin: nat
    var current: nat
    var state: ScanMode
    var token: Token

    ghost predicate Valid()
      reads this
    {
      begin <= current <= |text|
    }

    constructor (text: string)
      ensures Valid() && this.text == text && current == 0 && !AtEnd() && token == TkNone
    {
      this.text := text;
      begin, current, state, token := 0, 0, Scan, TkNone;
    }

    predicate AtEnd()
      reads this
    {
      state == End || state == Error
    }

    function RawText(): string
      requires Valid()
      reads this
    {
      text[begin..current]
    }

    /** One rune, and past it unless it completes a token that it is not part of. */
    method Feed(c: char) returns (done: bool)
      requires Valid() && !AtEnd() && current < |text| && c == text[current]
      modifies this
      ensures Valid()
      ensures var a, begun := OnRune(old(state), c), if Marks(old(state), c) then "" else old(RawText());
        && state == a.mode && done == (a.mode == Error || a.token != TkNone)
        && token == (if a.mode == Error then TkError else if a.token == TkNone then old(token) else a.token)
        && current == (if a.mode == Error || (done && !a.taken) then old(current) else old(current) + 1)
        && RawText() == if a.mode == Error then "" else if done && !a.taken then begun else begun + [c]
    {
      hide OnRune;
      var a := OnRune(state, c);
      if Marks(state, c) { begin := current; }
      assert text[begin..current + 1] == text[begin..current] + [c];
      state := a.mode;
      if a.mode == Error {
        token, begin := TkError, current;
        return true;
      }
      done := a.token != TkNone;
      if done { token := a.token; }
      if !done || a.taken { current := current + 1; }
    }

    /** The next token is the one that the rest of the text starts with. */
    method Next() returns (done: bool)
      requires Valid()
      modifies this
      ensures Valid() && done == (!old(AtEnd()) && token != TkNone)
      ensures old(AtEnd()) ==> unchanged(this)
      ensures !old(AtEnd()) ==>
        Scanned(token, RawText(), text[current..], state) == Loop(Scan, "", text[old(current)..])
    {
      hide Loop, OnRune;
      if AtEnd() { return false; }
      state, token, begin := Scan, TkNone, current;
      ghost var r := Loop(Scan, "", text[current..]);
      assert text[begin..current] == "";
      done := false;
      while current < |text| && !done
        invariant Valid() && (!done ==> !AtEnd() && token == TkNone && r == Loop(state, RawText(), text[current..]))
        invariant done ==> token != TkNone && r == Scanned(token, RawText(), text[current..], state)
        decreases !done, |text| - current
      {
        var c := text[current];
        Split(text, current);
        LoopStep(state, RawText(), c, text[current + 1..]);
        ghost var raw, rest := RawText(), text[current + 1..];
        done := Feed(c);
        if done { assert text[current..] == rest || text[current..] == [c] + rest; }
      }
      if !done {
        assert text[current..] == "";
        done := Stop();
      }
    }

    /** The end of the text, as a NUL rune. */
    method Stop() returns (done: bool)
      requires Valid() && !AtEnd() && current == |text| && token == TkNone
      modifies this
      ensures Valid() && done == (token != TkNone)
      ensures Scanned(token, RawText(), text[current..], state) == Loop(old(state), old(RawText()), "")
    {
      hide Loop, OnRune;
      AtEndOfText(state, RawText());
      assert text[current..] == "" && text[current..current] == "";
      if Marks(state, NUL) { begin := current; }
      var a := OnRune(state, NUL);
      token, state := a.token, End;
      if a.mode == Error { token, state, begin := TkError, Error, current; }
      done := token != TkNone;
    }
  }

  lemma Split(s: string, i: nat)
    requires i < |s|
    ensures s[i..] == [s[i]] + s[i + 1..]
  {
  }

  lemma AtEndOfText(mode: ScanMode, raw: string)
    requires mode != End && mode != Error
    ensures var a := OnRune(mode, NUL);
      Loop(mode, raw, "") == if a.mode == Error then Scanned(TkError, "", "", Error)
        else Scanned(a.token, if Marks(mode, NUL) then "" else raw, "", End)
  {
    hide OnRune;
  }
}

/** The parser of IL text (pkg/il/text/read.go), as a function of the text. */
module Parsing {
  import opened Values
  import opened Words
  import opened StringTables
  import opened Opcodes
  import opened Keywords
  import opened Decimals
  import opened Scanners
  import opened Assembly

  /** What the body parser has built: words with holes, label positions, and the holes' labels. */
  datatype Partial = Partial(body: seq<nat>, labels: map<string, nat>, fixups: map<nat, string>, tab: seq<string>)

  predicate AtEnd(cur: Scanned) {
    cur.mode == End || cur.mode == Error
  }

  /** The next token; None where the parser fails. */
  function NextOrFail(cur: Scanned): (r: Option<Scanned>)
    ensures r.Some? ==> |r.value.rest| < |cur.rest|
  {
    if AtEnd(cur) then None
    else
      var r := Next(cur.rest);
      if r.token == TkNone || r.token == TkError then None else Some(r)
  }

  /** The next token if it is the one expected, and not the very last of the text. */
  function NextToken(cur: Scanned, t: Token): (r: Option<Scanned>)
    ensures r.Some? ==> |r.value.rest| < |cur.rest|
  {
    var r := NextOrFail(cur);
    if r.Some? && !AtEnd(r.value) && r.value.token == t then r else None
  }

  function SkipNewlines(cur: Scanned): (r: Scanned)
    ensures |r.rest| <= |cur.rest|
    decreases |cur.rest|
  {
    if cur.token != TkNewLine || AtEnd(cur) then cur
    else
      var r := Next(cur.rest);
      if r.token == TkNone || r.token == TkError then r else SkipNewlines(r)
  }

  /** Register names: r and a decimal number. */
  function Register(w: string): Option<nat> {
    if |w| > 1 && w[0] == 'r' && (forall i :: 1 <= i < |w| ==> IsDigit(w[i])) then Some(DecimalValue(w[1..])) else None
  }

  function AddString(p: Partial, s: string): Partial {
    var tab := Intern(p.tab, s);
    p.(tab := tab, body := p.body + [IndexOf(tab, s)])
  }

  function ParseOperand(a: Arg, r: Scanned, p: Partial): Option<Partial> {
    match a
    case ArgString =>
      (match AsStringLiteral(r) case None => None case Some(s) => Some(AddString(p, s)))
    case ArgFunction =>
      (match AsIdentifier(r) case None => None case Some(s) => Some(AddString(p, s)))
    case ArgInt =>
      (match AsIntegerLiteral(r) case None => None case Some(i) => Some(p.(body := p.body + [Low(i), High(i)])))
    case ArgDouble => None
    case ArgBool =>
      if AsIdentifier(r) == Some("true") then Some(p.(body := p.body + [1]))
      else if AsIdentifier(r) == Some("false") then Some(p.(body := p.body + [0]))
      else None
    case ArgAddress =>
      (match AsIdentifier(r) case None => None
       case Some(l) => Some(p.(body := p.body + [0], fixups := p.fixups[|p.body| := l])))
    case ArgRegister =>
      (match AsIdentifier(r) case None => None
       case Some(w) =>
         (match Register(w) case None => None case Some(n) => Some(p.(body := p.body + [n]))))
  }

  function ParseOperands(args: seq<Arg>, cur: Scanned, p: Partial): (r: Option<(Scanned, Partial)>)
    ensures r.Some? ==> |r.value.0.rest| <= |cur.rest|
    decreases |args|
  {
    if args == [] then Some((cur, p))
    else match NextOrFail(cur)
      case None => None
      case Some(r) =>
        match ParseOperand(args[0], r, p)
        case None => None
        case Some(p') => ParseOperands(args[1..], r, p')
  }

  /** The lines of a body up to `end`. */
  function ParseLines(cur: Scanned, p: Partial): (r: Option<(Scanned, Partial)>)
    decreases |cur.rest|
  {
    var c := SkipNewlines(cur);
    if c.token == TkLabel && AsLabel(c).Some? then
      match NextOrFail(c)
      case None => None
      case Some(r) => ParseLines(r, p.(labels := p.labels[AsLabel(c).value := |p.body|]))
    else if c.token != TkIdentifier then None
    else if c.raw == "end" then Some((c, p))
    else match GetOpcode(c.raw)
      case None => None
      case Some(op) =>
        match ParseOperands(Args(op), c, p.(body := p.body + [op]))
        case None => None
        case Some((c2, p2)) =>
          match NextToken(c2, TkNewLine)
          case None => None
          case Some(c3) => ParseLines(c3, p2)
  }

  /** Every hole is filled with the position of its label. */
  function Resolve(p: Partial): Option<seq<nat>> {
    if exists i :: i in p.fixups && p.fixups[i] !in p.labels then None
    else Some(seq(|p.body|, i requires 0 <= i < |p.body| =>
      if i in p.fixups && p.fixups[i] in p.labels then p.labels[p.fixups[i]] else p.body[i]))
  }

  function ParseTypes(cur: Scanned, ts: seq<ILType>): (r: Option<(Scanned, seq<ILType>)>)
    ensures r.Some? ==> |r.value.0.rest| < |cur.rest|
    decreases |cur.rest|
  {
    match NextOrFail(cur)
    case None => None
    case Some(r) =>
      if r.token != TkIdentifier then Some((r, ts))
      else match GetType(r.raw)
        case None => None
        case Some(t) => ParseTypes(r, ts + [t])
  }

  /** A function read from text: its body is local to the function, its strings are in the table. */
  datatype Parsed = Parsed(name: string, params: seq<ILType>, ret: ILType, body: seq<nat>, tab: seq<string>)

  function ParseBody(cur: Scanned, name: string, params: seq<ILType>, ret: ILType,
          tab: seq<string>): Option<(Scanned, Parsed)> {
    match ParseLines(cur, Partial([], map[], map[], tab))
    case None => None
    case Some((c, p)) =>
      match Resolve(p)
      case None => None
      case Some(body) => Some((c, Parsed(name, params, ret, body, p.tab)))
  }

  function ParseReturn(cur: Scanned, name: string, params: seq<ILType>, tab: seq<string>): Option<(Scanned, Parsed)> {
    match NextToken(cur, TkIdentifier)
    case None => None
    case Some(r) =>
      match GetType(r.raw)
      case None => None
      case Some(ret) =>
        match NextToken(r, TkNewLine)
        case None => None
        case Some(n) => ParseBody(n, name, params, ret, tab)
  }

  function ParseParams(cur: Scanned, name: string, tab: seq<string>): Option<(Scanned, Parsed)> {
    match NextToken(cur, TkOpenParen)
    case None => None
    case Some(o) =>
      match ParseTypes(o, [])
      case None => None
      case Some((c, params)) =>
        if AtEnd(c) || c.token != TkCloseParen then None else ParseReturn(c, name, params, tab)
  }

  /** One function definition, from its first token on. */
  function ParseFunctionDef(cur: Scanned, tab: seq<string>): Option<(Scanned, Parsed)> {
    var c := SkipNewlines(cur);
    if AtEnd(c) || c.token != TkIdentifier || c.raw != "fn" then None
    else match NextToken(c, TkIdentifier)
      case None => None
      case Some(n) => ParseParams(n, n.raw, tab)
  }
}

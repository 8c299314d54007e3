/** Functions as lists of instructions: their words, and their text. */
module Assembly {
  import opened Values
  import opened Words
  import opened StringTables
  import opened Opcodes
  import opened Keywords
  import opened Decimals
  import opened Scanners

  /** An operand. Addresses are relative to the function. */
  datatype Operand =
    | OString(s: string)
    | OFunction(name: string)
    | ORegister(n: nat)
    | OInt(i: int64)
    | OBool(b: bool)
    | OAddress(t: nat)

  datatype Ins = Ins(op: nat, operands: seq<Operand>)

  predicate Suits(a: Arg, o: Operand) {
    match o
    case OString(_) => a.ArgString?
    case OFunction(_) => a.ArgFunction?
    case ORegister(_) => a.ArgRegister?
    case OInt(_) => a.ArgInt?
    case OBool(_) => a.ArgBool?
    case OAddress(_) => a.ArgAddress?
  }

  predicate AllSuit(args: seq<Arg>, os: seq<Operand>) {
    |args| == |os| && (os == [] || (Suits(args[0], os[0]) && AllSuit(args[1..], os[1..])))
  }

  // ----- words -----

  function OperandWords(o: Operand, tab: seq<string>, base: nat): (ws: seq<nat>)
    ensures |ws| == OperandSize(o)
  {
    match o
    case OString(s) => [IndexOf(tab, s)]
    case OFunction(s) => [IndexOf(tab, s)]
    case ORegister(n) => [n]
    case OInt(i) => [Low(i), High(i)]
    case OBool(b) => [BoolToByteCode(b)]
    case OAddress(t) => [t + base]
  }

  function OperandSize(o: Operand): nat {
    if o.OInt? then 2 else 1
  }

  function OperandsWords(os: seq<Operand>, tab: seq<string>, base: nat): (ws: seq<nat>)
    ensures |ws| == OperandsSize(os)
  {
    if os == [] then [] else OperandWords(os[0], tab, base) + OperandsWords(os[1..], tab, base)
  }

  function OperandsSize(os: seq<Operand>): nat {
    if os == [] then 0 else OperandSize(os[0]) + OperandsSize(os[1..])
  }

  function InsSize(ins: Ins): nat {
    1 + OperandsSize(ins.operands)
  }

  function CodeSize(inss: seq<Ins>): nat {
    if inss == [] then 0 else InsSize(inss[0]) + CodeSize(inss[1..])
  }

  function CodeOf(inss: seq<Ins>, tab: seq<string>, base: nat): (ws: seq<nat>)
    ensures |ws| == CodeSize(inss)
  {
    if inss == [] then [] else [inss[0].op] + OperandsWords(inss[0].operands, tab, base) + CodeOf(inss[1..], tab, base)
  }

  // ----- strings and jump targets, in order -----

  function StringIn(o: Operand): seq<string> {
    if o.OString? then [o.s] else if o.OFunction? then [o.name] else []
  }

  function StringsIn(os: seq<Operand>): seq<string> {
    if os == [] then [] else StringIn(os[0]) + StringsIn(os[1..])
  }

  function StringsInAll(inss: seq<Ins>): seq<string> {
    if inss == [] then [] else StringsIn(inss[0].operands) + StringsInAll(inss[1..])
  }

  function TargetsIn(os: seq<Operand>, labels: seq<nat>): seq<nat> {
    if os == [] then labels
    else TargetsIn(os[1..], if os[0].OAddress? && os[0].t !in labels then labels + [os[0].t] else labels)
  }

  /** The targets of jumps, each once, in the order of the first jump to them. */
  function Targets(inss: seq<Ins>, labels: seq<nat>): seq<nat> {
    if inss == [] then labels else Targets(inss[1..], TargetsIn(inss[0].operands, labels))
  }

  function LabelIndex(labels: seq<int>, t: int): (i: nat)
    ensures t in labels <==> i < |labels|
    ensures t in labels ==> labels[i] == t
  {
    if labels == [] then 0 else if labels[0] == t then 0 else 1 + LabelIndex(labels[1..], t)
  }

  /** An instruction starts there. */
  predicate StartsAt(inss: seq<Ins>, pos: nat, t: int) {
    inss != [] && (t == pos || StartsAt(inss[1..], pos + InsSize(inss[0]), t))
  }

  // ----- text, followed by `tail` -----

  /** The number of a target; one that is not in the list reads as Go's 0. */
  function LabelNumber(labels: seq<int>, t: int): nat {
    if t in labels then LabelIndex(labels, t) else 0
  }

  function LabelText(labels: seq<int>, t: int): string {
    ['L'] + Decimal(LabelNumber(labels, t))
  }

  function PrintOperand(o: Operand, labels: seq<int>, tail: string): string {
    match o
    case OString(s) => ['"'] + (Escape(s) + (['"'] + tail))
    case OFunction(s) => s + tail
    case ORegister(n) => (['r'] + Decimal(n)) + tail
    case OInt(i) => Printed(i) + tail
    case OBool(b) => (if b then "true" else "false") + tail
    case OAddress(t) => LabelText(labels, t) + tail
  }

  function PrintOperands(os: seq<Operand>, labels: seq<int>, tail: string): string {
    if os == [] then tail else [' '] + PrintOperand(os[0], labels, PrintOperands(os[1..], labels, tail))
  }

  function PrintLabel(labels: seq<int>, pos: nat, tail: string): string {
    if pos in labels then LabelText(labels, pos) + ([':'] + (['\n'] + tail)) else tail
  }

  function PrintIns(ins: Ins, labels: seq<int>, tail: string): string
    requires Known(ins.op)
  {
    [' '] + ([' '] + (Keyword(ins.op) + PrintOperands(ins.operands, labels, ['\n'] + tail)))
  }

  predicate AllKnown(inss: seq<Ins>) {
    forall i :: 0 <= i < |inss| ==> Known(inss[i].op)
  }

  function PrintBody(inss: seq<Ins>, labels: seq<int>, pos: nat, tail: string): string
    requires AllKnown(inss)
  {
    if inss == [] then "end" + (['\n'] + tail)
    else PrintLabel(labels, pos, PrintIns(inss[0], labels, PrintBody(inss[1..], labels, pos + InsSize(inss[0]), tail)))
  }

  datatype ILType = Unknown | Void | StringT | IntegerT | DoubleT | BoolT | DurationT | InterfaceT

  function TypeName(t: ILType): string {
    match t
    case Unknown => "unknown"
    case Void => "void"
    case StringT => "string"
    case IntegerT => "integer"
    case DoubleT => "double"
    case BoolT => "bool"
    case DurationT => "duration"
    case InterfaceT => "interface"
  }

  function GetType(name: string): Option<ILType> {
    if name == "void" then Some(Void)
    else if name == "string" then Some(StringT)
    else if name == "integer" then Some(IntegerT)
    else if name == "double" then Some(DoubleT)
    else if name == "bool" then Some(BoolT)
    else if name == "duration" then Some(DurationT)
    else if name == "interface" then Some(InterfaceT)
    else None
  }

  function PrintTypes(ts: seq<ILType>, first: bool, tail: string): string {
    if ts == [] then tail
    else if first then TypeName(ts[0]) + PrintTypes(ts[1..], false, tail)
    else [' '] + (TypeName(ts[0]) + PrintTypes(ts[1..], false, tail))
  }

  /** A function: its name, its types, and its instructions. */
  datatype Fun = Fun(name: string, params: seq<ILType>, ret: ILType, inss: seq<Ins>)

  /** The text of a function with a list of label positions. */
  function PrintWith(f: Fun, labels: seq<int>, tail: string): string
    requires AllKnown(f.inss)
  {
    "fn" + ([' '] + (f.name + (['('] + PrintTypes(f.params, true, [')'] + ([' '] + (TypeName(f.ret) + (['\n'] +
      PrintBody(f.inss, labels, 0, tail))))))))
  }

  /** The text with the targets of its jumps for labels. */
  function Print(f: Fun, tail: string): string
    requires AllKnown(f.inss)
  {
    PrintWith(f, Targets(f.inss, []), tail)
  }

  // ----- the functions that the text form can hold -----

  predicate OperandOK(o: Operand) {
    match o
    case OString(s) => Quotable(s)
    case OFunction(s) => IsWord(s)
    case _ => true
  }

  predicate OperandsOK(os: seq<Operand>) {
    forall i :: 0 <= i < |os| ==> OperandOK(os[i])
  }

  /** A known opcode with operands of its kinds. */
  predicate InsShaped(ins: Ins) {
    Known(ins.op) && AllSuit(Args(ins.op), ins.operands)
  }

  predicate InssShaped(inss: seq<Ins>) {
    forall i :: 0 <= i < |inss| ==> InsShaped(inss[i])
  }

  predicate InsOK(ins: Ins) {
    InsShaped(ins) && OperandsOK(ins.operands)
  }

  predicate InssOK(inss: seq<Ins>) {
    forall i :: 0 <= i < |inss| ==> InsOK(inss[i])
  }

  predicate JumpsWithin(inss: seq<Ins>) {
    var ts := Targets(inss, []);
    forall i :: 0 <= i < |ts| ==> StartsAt(inss, 0, ts[i])
  }

  predicate TypeKnown(t: ILType) {
    t != Unknown
  }

  /** A name, types, strings and instructions that can be written; its jumps may lead anywhere. */
  predicate FnShaped(f: Fun) {
    && IsWord(f.name) && TypeKnown(f.ret) && (forall i :: 0 <= i < |f.params| ==> TypeKnown(f.params[i]))
    && InssOK(f.inss)
  }

  predicate FnOK(f: Fun) {
    FnShaped(f) && JumpsWithin(f.inss)
  }
}

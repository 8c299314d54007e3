/**
 Position-independent code. A jump is either resolved, as a number of words to skip, or an exit
 that waits for the position of the one label that the code leaves open.
 */
module Code {

  datatype Item =
    | Op0(op: nat)
    | Op1(op: nat, x: nat)
    | Op2(op: nat, x: nat, y: nat)
    | Jump(op: nat, skip: nat)
    | Exit(op: nat)

  datatype Code = Nil | One(item: Item) | Cat(a: Code, b: Code)

  function I0(op: nat): Code { One(Op0(op)) }
  function I1(op: nat, x: nat): Code { One(Op1(op, x)) }
  function I2(op: nat, x: nat, y: nat): Code { One(Op2(op, x, y)) }

  function ItemSize(it: Item): nat {
    match it
    case Op0(_) => 1
    case Op2(_, _, _) => 3
    case _ => 2
  }

  function Size(c: Code): nat {
    match c
    case Nil => 0
    case One(it) => ItemSize(it)
    case Cat(a, b) => Size(a) + Size(b)
  }

  /** The words of an item at an address. A label without a position is written as 0. */
  function Encode(it: Item, base: nat): (ws: seq<nat>)
    ensures |ws| == ItemSize(it)
  {
    match it
    case Op0(op) => [op]
    case Op1(op, x) => [op, x]
    case Op2(op, x, y) => [op, x, y]
    case Jump(op, skip) => [op, base + 2 + skip]
    case Exit(op) => [op, 0]
  }

  /** Gives the open label the position `k` words past the end of the code. */
  function Close(c: Code, k: nat): (r: Code)
    ensures Size(r) == Size(c)
  {
    match c
    case Nil => Nil
    case One(it) => One(if it.Exit? then Jump(it.op, k) else it)
    case Cat(a, b) => Cat(Close(a, Size(b) + k), Close(b, k))
  }

  /** Every jump is resolved. */
  predicate Closed(c: Code) {
    match c
    case Nil => true
    case One(it) => !it.Exit?
    case Cat(a, b) => Closed(a) && Closed(b)
  }

  /** Closing closes, and changes only open exits. */
  lemma {:induction false} CloseCloses(c: Code, k: nat)
    ensures Closed(Close(c, k))
    ensures Closed(c) ==> Close(c, k) == c
  {
    match c
    case Nil =>
    case One(_) =>
    case Cat(a, b) => CloseCloses(a, Size(b) + k); CloseCloses(b, k);
  }

  lemma CloseAfter(a: Code, b: Code, k: nat)
    requires Closed(a)
    ensures Close(Cat(a, b), k) == Cat(a, Close(b, k))
  {
    CloseCloses(a, Size(b) + k);
  }

  lemma CloseExit(op: nat, k: nat)
    ensures Close(One(Exit(op)), k) == One(Jump(op, k))
  {
  }

  /** The code `c` lies in memory at an address. */
  ghost predicate At(words: seq<nat>, base: nat, c: Code)
    decreases c
  {
    match c
    case Nil => base <= |words|
    case One(it) => base + ItemSize(it) <= |words| && ItemAt(words, base, it)
    case Cat(a, b) => At(words, base, a) && At(words, base + Size(a), b)
  }

  ghost predicate ItemAt(words: seq<nat>, base: nat, it: Item)
    requires base + ItemSize(it) <= |words|
  {
    && words[base] == it.op
    && match it
       case Op0(_) => true
       case Op1(_, x) => words[base + 1] == x
       case Op2(_, x, y) => words[base + 1] == x && words[base + 2] == y
       case Jump(_, skip) => words[base + 1] == base + 2 + skip
       case Exit(_) => words[base + 1] == 0
  }

  lemma AtCat(words: seq<nat>, base: nat, a: Code, b: Code)
    requires At(words, base, a) && At(words, base + Size(a), b)
    ensures At(words, base, Cat(a, b))
  {
  }

  lemma AtPair(words: seq<nat>, base: nat, a: Code, b: Code)
    requires At(words, base, Cat(a, b))
    ensures At(words, base, a) && At(words, base + Size(a), b) && Size(Cat(a, b)) == Size(a) + Size(b)
  {
  }

  lemma AtParts(words: seq<nat>, base: nat, a: Code, b: Code, c: Code)
    requires At(words, base, Cat(a, Cat(b, c)))
    ensures At(words, base, a) && At(words, base + Size(a), b) && At(words, base + Size(a) + Size(b), c)
    ensures Size(Cat(a, Cat(b, c))) == Size(a) + Size(b) + Size(c)
  {
    assert At(words, base + Size(a), Cat(b, c));
  }
}

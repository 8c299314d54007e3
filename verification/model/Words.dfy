/** The word encodings of integers and booleans (pkg/il/convert.go). */
module Words {
  import opened Values

  function BoolToByteCode(b: bool): nat {
    if b then 1 else 0
  }

  predicate ByteCodeToBool(w: nat) {
    w != 0
  }

  /** The low word of an int64, `uint32(i & 0xFFFFFFFF)`. */
  function Low(i: int64): (w: nat) {
    i % TWO32
  }

  /** The high word of an int64, `uint32(i >> 32)`. */
  function High(i: int64): (w: nat) {
    (i / TWO32) % TWO32
  }

  /** Reduction of an integer to the int64 congruent to it modulo 2^64. */
  function Wrap64(x: int): (i: int64)
    ensures (x - i) % (TWO32 * TWO32) == 0
  {
    var r := x % (TWO32 * TWO32);
    if r < TWO63 then r else r - TWO32 * TWO32
  }

  /** A number that is out of range by less than 2^64, moved into it. */
  function Fitted(x: int): int {
    if x < -0x8000_0000_0000_0000 then x + 0x1_0000_0000_0000_0000
    else if x >= 0x8000_0000_0000_0000 then x - 0x1_0000_0000_0000_0000
    else x
  }

  lemma WrapNear(x: int)
    requires -0x1_0000_0000_0000_0000 <= x < 0x1_0000_0000_0000_0000
    ensures Wrap64(x) == Fitted(x)
  {
    assert TWO32 * TWO32 == 0x1_0000_0000_0000_0000;
  }

  /** `int64(o1) + (int64(o2) << 32)`, which wraps at 64 bits. */
  function ByteCodeToInteger(o1: nat, o2: nat): int64 {
    Wrap64(o1 + o2 * TWO32)
  }

  /** Both words fit 32 bits and decoding them gives the integer back, negatives included. */
  lemma IntegerRoundTrip(i: int64)
    ensures Low(i) < TWO32 && High(i) < TWO32
    ensures ByteCodeToInteger(Low(i), High(i)) == i
  {
    var q := i / TWO32;
    assert i == q * TWO32 + Low(i);
    assert -0x8000_0000 <= q < 0x8000_0000;
    assert High(i) == if q < 0 then q + TWO32 else q;
    var x := Low(i) + High(i) * TWO32;
    assert x == if q < 0 then i + TWO32 * TWO32 else i;
  }

  /** Any two words of 32 bits are the words of the integer that they decode to. */
  lemma WordsRoundTrip(o1: nat, o2: nat)
    requires o1 < TWO32 && o2 < TWO32
    ensures Low(ByteCodeToInteger(o1, o2)) == o1 && High(ByteCodeToInteger(o1, o2)) == o2
  {
    var i := ByteCodeToInteger(o1, o2);
    var q := if o2 < 0x8000_0000 then o2 else o2 - TWO32;
    assert i == q * TWO32 + o1;
    assert i / TWO32 == q;
  }

  /** Comparing the two words, as EqI and AEqI do, decides equality of the integers. */
  lemma IntegerWordsInjective(i: int64, j: int64)
    ensures Low(i) == Low(j) && High(i) == High(j) <==> i == j
  {
    IntegerRoundTrip(i);
    IntegerRoundTrip(j);
  }
}

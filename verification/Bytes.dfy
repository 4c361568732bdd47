/** Little-endian integers in byte strings. */
module Bytes {
  type Byte = x: int | 0 <= x < 256 witness 0

  const TWO_63: int := 0x8000_0000_0000_0000
  const TWO_64: int := 0x1_0000_0000_0000_0000

  /** The unsigned integer of a byte string, least significant byte first. */
  function Unsigned(d: seq<Byte>): (u: int)
    ensures u >= 0
  {
    if d == [] then 0 else d[0] + 256 * Unsigned(d[1..])
  }

  /** Two's complement over eight bytes. */
  function Signed(d: seq<Byte>): int {
    var u := Unsigned(d);
    if u >= TWO_63 then u - TWO_64 else u
  }

  function ToBytes(u: int, n: nat): (d: seq<Byte>)
    requires u >= 0
    ensures |d| == n
  {
    if n == 0 then [] else [u % 256] + ToBytes(u / 256, n - 1)
  }

  predicate InInt64(x: int) {
    -TWO_63 <= x < TWO_63
  }

  predicate AllInt64(xs: seq<int>) {
    forall i :: 0 <= i < |xs| ==> InInt64(xs[i])
  }

  function FromInt64(x: int): (d: seq<Byte>)
    requires InInt64(x)
    ensures |d| == 8
  {
    ToBytes(if x < 0 then x + TWO_64 else x, 8)
  }

  function Power(n: nat): (p: int)
    ensures p > 0
  {
    if n == 0 then 1 else 256 * Power(n - 1)
  }

  lemma {:induction false} UnsignedRoundTrip(u: int, n: nat)
    requires 0 <= u < Power(n)
    ensures Unsigned(ToBytes(u, n)) == u
  {
    if n > 0 {
      UnsignedRoundTrip(u / 256, n - 1);
    }
  }

  lemma PowerEight()
    ensures Power(8) == TWO_64 && Power(2) == 0x1_0000
  {
    assert Power(4) == 0x1_0000_0000;
    assert Power(6) == 0x1_0000_0000_0000;
  }

  /** Every signed 64-bit integer survives encoding and decoding. */
  lemma Int64RoundTrip(x: int)
    requires InInt64(x)
    ensures Signed(FromInt64(x)) == x
  {
    PowerEight();
    UnsignedRoundTrip(if x < 0 then x + TWO_64 else x, 8);
  }

  /** The signed 64-bit field at an offset. */
  function Word(data: seq<Byte>, at: nat): int
    requires at + 8 <= |data|
  {
    Signed(data[at..at + 8])
  }

  /** Consecutive signed 64-bit fields. */
  function Words(xs: seq<int>): (d: seq<Byte>)
    requires AllInt64(xs)
    ensures |d| == 8 * |xs|
  {
    if xs == [] then [] else Words(xs[..|xs| - 1]) + FromInt64(xs[|xs| - 1])
  }

  lemma {:induction false} WordsAt(xs: seq<int>, k: nat)
    requires k < |xs| && AllInt64(xs)
    ensures Words(xs)[8 * k..8 * k + 8] == FromInt64(xs[k])
    decreases |xs|
  {
    if k < |xs| - 1 {
      WordsAt(xs[..|xs| - 1], k);
      assert Words(xs)[..8 * (|xs| - 1)] == Words(xs[..|xs| - 1]);
      assert Words(xs)[8 * k..8 * k + 8] == Words(xs)[..8 * (|xs| - 1)][8 * k..8 * k + 8];
    }
  }

  lemma SliceOfMiddle(pre: seq<Byte>, mid: seq<Byte>, post: seq<Byte>, a: nat, b: nat)
    requires a <= b <= |mid|
    ensures (pre + mid + post)[|pre| + a..|pre| + b] == mid[a..b]
  {
  }

  /** A block of fields between other bytes reads back field by field. */
  lemma WordInBlock(pre: seq<Byte>, xs: seq<int>, post: seq<Byte>, k: nat)
    requires k < |xs| && AllInt64(xs)
    ensures Word(pre + Words(xs) + post, |pre| + 8 * k) == xs[k]
  {
    hide Words, Word, Signed, FromInt64, InInt64;
    var a := 8 * k;
    WordsAt(xs, k);
    WordOfMiddle(pre, Words(xs), post, a);
    Int64RoundTrip(xs[k]);
  }

  lemma WordOfMiddle(pre: seq<Byte>, mid: seq<Byte>, post: seq<Byte>, a: nat)
    requires a + 8 <= |mid|
    ensures Word(pre + mid + post, |pre| + a) == Signed(mid[a..a + 8])
  {
    hide Signed;
    SliceOfMiddle(pre, mid, post, a, a + 8);
  }
}

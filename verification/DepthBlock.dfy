/** The sender's side of the depth block: ten records of twenty bytes. */
module DepthBlock {
  import opened Bytes
  import opened Best5

  predicate InRecord(x: Level) {
    0 <= x.flag < 0x1_0000 && InInt64(x.qty) && InInt64(x.price)
  }

  predicate AllInRecords(xs: seq<Level>) {
    forall i :: 0 <= i < |xs| ==> InRecord(xs[i])
  }

  /** Two bytes for each record that the parser does not read. */
  predicate ArePads(pads: seq<seq<Byte>>) {
    forall i :: 0 <= i < |pads| ==> |pads[i]| == 2
  }

  function Record(x: Level, pad: seq<Byte>): (d: seq<Byte>)
    requires InRecord(x) && |pad| == 2
    ensures |d| == 20
  {
    ToBytes(x.flag, 2) + FromInt64(x.qty) + FromInt64(x.price) + pad
  }

  function Block(xs: seq<Level>, pads: seq<seq<Byte>>): (d: seq<Byte>)
    requires AllInRecords(xs) && ArePads(pads) && |pads| == |xs|
    ensures |d| == 20 * |xs|
  {
    if xs == [] then []
    else Block(xs[..|xs| - 1], pads[..|xs| - 1]) + Record(xs[|xs| - 1], pads[|xs| - 1])
  }

  /** The quotes a sender means by its filled levels of one side, in order. */
  function QuotesOf(xs: seq<Level>, zero: bool): seq<Quote> {
    if xs == [] then []
    else
      var x := xs[|xs| - 1];
      QuotesOf(xs[..|xs| - 1], zero)
      + if x.price > 0 && x.qty > 0 && (x.flag == 0) == zero then [Quote(x.price, x.qty)] else []
  }

  /** A record anywhere in a byte string reads back flag, quantity and price. */
  lemma RecordReads(d: seq<Byte>, k: nat, x: Level, pad: seq<Byte>)
    requires InRecord(x) && |pad| == 2 && 20 * k + 20 <= |d| && d[20 * k..20 * k + 20] == Record(x, pad)
    ensures LevelAt(d, k) == x
  {
    hide Signed, Unsigned, ToBytes, FromInt64, InInt64;
    var at, r := 20 * k, Record(x, pad);
    SliceOfSlice(d, at, at + 20, 0, 2);
    SliceOfSlice(d, at, at + 20, 2, 10);
    SliceOfSlice(d, at, at + 20, 10, 18);
    assert r[0..2] == ToBytes(x.flag, 2) && r[2..10] == FromInt64(x.qty) && r[10..18] == FromInt64(x.price);
    PowerEight();
    UnsignedRoundTrip(x.flag, 2);
    Int64RoundTrip(x.qty);
    Int64RoundTrip(x.price);
  }

  lemma SliceOfSlice(d: seq<Byte>, lo: nat, hi: nat, a: nat, b: nat)
    requires lo <= hi <= |d| && a <= b <= hi - lo
    ensures d[lo..hi][a..b] == d[lo + a..lo + b]
  {
    forall i | 0 <= i < b - a
      ensures d[lo..hi][a..b][i] == d[lo + a..lo + b][i]
    {
      assert d[lo..hi][a + i] == d[lo + a + i];
    }
  }

  lemma {:induction false} RecordAt(xs: seq<Level>, pads: seq<seq<Byte>>, k: nat)
    requires AllInRecords(xs) && ArePads(pads) && |pads| == |xs| && k < |xs|
    ensures Block(xs, pads)[20 * k..20 * k + 20] == Record(xs[k], pads[k])
    decreases |xs|
  {
    hide Record;
    var n := |xs| - 1;
    var init := Block(xs[..n], pads[..n]);
    if k < n {
      RecordAt(xs[..n], pads[..n], k);
      assert Block(xs, pads)[20 * k..20 * k + 20] == init[20 * k..20 * k + 20];
    }
  }

  /** Every level written at its place in the block reads back. */
  lemma LevelInBlock(xs: seq<Level>, pads: seq<seq<Byte>>, k: nat)
    requires AllInRecords(xs) && ArePads(pads) && |pads| == |xs| && k < |xs|
    ensures LevelAt(Block(xs, pads), k) == xs[k]
  {
    RecordAt(xs, pads, k);
    RecordReads(Block(xs, pads), k, xs[k], pads[k]);
  }

  /** So each side the parser collects is the sender's own quotes. */
  lemma {:induction false} SideOfBlock(xs: seq<Level>, pads: seq<seq<Byte>>, zero: bool, n: nat)
    requires AllInRecords(xs) && ArePads(pads) && |pads| == |xs| && n <= |xs|
    ensures Side(Block(xs, pads), zero, n) == QuotesOf(xs[..n], zero)
  {
    hide LevelAt, Block;
    if n > 0 {
      SideOfBlock(xs, pads, zero, n - 1);
      LevelInBlock(xs, pads, n - 1);
      assert xs[..n][..n - 1] == xs[..n - 1];
    }
  }
}

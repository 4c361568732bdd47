/** Binary market-data packets: the integer fields, the depth block and the length guards. Prices are
    in paise; the two floating-point quantity fields are skipped over. */
module MessageParser {
  import opened Ticks
  import opened Bytes
  import Best5
  import opened DepthBlock

  datatype Quotes = Quotes(lastTradeQty: int, avgPrice: int, volume: int, open: int, high: int, low: int, close: int)

  datatype Snap = Snap(lastTradeTime: int, openInterest: int, oiChange: int, book: Option<Best5.Book>,
                       upperCircuit: int, lowerCircuit: int, week52High: int, week52Low: int)

  datatype Packet = Packet(mode: Byte, exchange: Byte, token: seq<Byte>, sequence: int, timestamp: int, ltp: int,
                           quotes: Option<Quotes>, snap: Option<Snap>)

  const QUOTE: int := 2
  const SNAP_QUOTE: int := 3

  /** The token without its padding of zero bytes. */
  function Stripped(raw: seq<Byte>): seq<Byte> {
    if raw != [] && raw[|raw| - 1] == 0 then Stripped(raw[..|raw| - 1]) else raw
  }

  function BookIn(block: seq<Byte>, ltp: int): Option<Best5.Book>
    requires |block| >= 200
  {
    Best5.BookOf(Best5.Side(block, true, 10), Best5.Side(block, false, 10), ltp)
  }

  /** The fields at their documented offsets; `None` for a short packet, or a token that is not text. */
  function Parsed(data: seq<Byte>, isText: seq<Byte> -> bool): Option<Packet> {
    if |data| < 51 || !isText(data[2..27]) then None
    else
      var ltp := Word(data, 43);
      Some(Packet(data[0], data[1], Stripped(data[2..27]), Word(data, 27), Word(data, 35), ltp,
                  if data[0] >= QUOTE && |data| >= 123 then Some(QuotesIn(data)) else None,
                  if data[0] >= SNAP_QUOTE && |data| >= 379 then Some(SnapIn(data, ltp)) else None))
  }

  function QuotesIn(data: seq<Byte>): Quotes
    requires |data| >= 123
  {
    Quotes(Word(data, 51), Word(data, 59), Word(data, 67),
           Word(data, 91), Word(data, 99), Word(data, 107), Word(data, 115))
  }

  function SnapIn(data: seq<Byte>, ltp: int): Snap
    requires |data| >= 379
  {
    Snap(Word(data, 123), Word(data, 131), Word(data, 139), BookIn(data[147..347], ltp),
         Word(data, 347), Word(data, 355), Word(data, 363), Word(data, 371))
  }

  method ParseWsBinary(data: seq<Byte>, isText: seq<Byte> -> bool) returns (r: Option<Packet>)
    ensures r == Parsed(data, isText)
  {
    hide Word, BookIn;
    if |data| < 51 {
      return None;
    }
    var mode, exchange := data[0], data[1];
    var token := data[2..27];
    if !isText(token) {
      return None;
    }
    ghost var raw := token;
    while token != [] && token[|token| - 1] == 0
      invariant Stripped(token) == Stripped(raw)
    {
      token := token[..|token| - 1];
    }
    var ltp := Word(data, 43);
    var tick := Packet(mode, exchange, token, Word(data, 27), Word(data, 35), ltp, None, None);
    if mode >= QUOTE && |data| >= 123 {
      tick := tick.(quotes := Some(QuotesIn(data)));
    }
    if mode >= SNAP_QUOTE && |data| >= 379 {
      var book := Best5.Parse(data[147..347], ltp);
      assert book == BookIn(data[147..347], ltp) by { BookInIs(data[147..347], ltp); }
      tick := tick.(snap := Some(Snap(Word(data, 123), Word(data, 131), Word(data, 139), book,
                                      Word(data, 347), Word(data, 355), Word(data, 363), Word(data, 371))));
    }
    r := Some(tick);
  }

  lemma BookInIs(block: seq<Byte>, ltp: int)
    requires |block| >= 200
    ensures BookIn(block, ltp) == Best5.BookOf(Best5.Side(block, true, 10), Best5.Side(block, false, 10), ltp)
  {
  }

  // ----- the sender's side -----

  function Zeros(n: nat): (d: seq<Byte>)
    ensures |d| == n
  {
    if n == 0 then [] else Zeros(n - 1) + [0]
  }

  function QuotePrices(q: Quotes): (xs: seq<int>)
    ensures |xs| == 4
  {
    [q.open, q.high, q.low, q.close]
  }

  function QuoteTrades(q: Quotes): (xs: seq<int>)
    ensures |xs| == 3
  {
    [q.lastTradeQty, q.avgPrice, q.volume]
  }

  function SnapOi(s: Snap): (xs: seq<int>)
    ensures |xs| == 3
  {
    [s.lastTradeTime, s.openInterest, s.oiChange]
  }

  function SnapLimits(s: Snap): (xs: seq<int>)
    ensures |xs| == 4
  {
    [s.upperCircuit, s.lowerCircuit, s.week52High, s.week52Low]
  }

  /** A packet a sender can put on the wire: fields in range, and sections that its mode allows. */
  ghost predicate Writable(p: Packet) {
    && |p.token| <= 25 && (p.token != [] ==> p.token[|p.token| - 1] != 0)
    && AllInt64([p.sequence, p.timestamp, p.ltp])
    && (p.quotes.Some? ==>
          p.mode >= QUOTE && AllInt64(QuotePrices(p.quotes.value)) && AllInt64(QuoteTrades(p.quotes.value)))
    && (p.snap.Some? ==>
          && p.mode >= SNAP_QUOTE && p.quotes.Some?
          && AllInt64(SnapOi(p.snap.value)) && AllInt64(SnapLimits(p.snap.value)))
  }

  /** With a depth block that holds its book. */
  ghost predicate Encodable(p: Packet, block: seq<Byte>) {
    && Writable(p)
    && (p.snap.Some? ==> |block| == 200 && p.snap.value.book == BookIn(block, p.ltp))
  }

  function Padded(token: seq<Byte>): (d: seq<Byte>)
    requires |token| <= 25
    ensures |d| == 25
  {
    token + Zeros(25 - |token|)
  }

  /** The wire form: 51 bytes, 123 with quotes, 379 with the snap section. */
  ghost function Encoded(p: Packet, sums: seq<Byte>, block: seq<Byte>): (d: seq<Byte>)
    requires Encodable(p, block) && |sums| == 16
    ensures |d| == 51 + (if p.quotes.Some? then 72 else 0) + (if p.snap.Some? then 256 else 0)
  {
    [p.mode, p.exchange] + Padded(p.token) + Words([p.sequence, p.timestamp, p.ltp])
    + QuoteBytes(p, sums) + SnapBytes(p, block)
  }

  ghost function QuoteBytes(p: Packet, sums: seq<Byte>): seq<Byte>
    requires p.quotes.Some? ==> AllInt64(QuotePrices(p.quotes.value)) && AllInt64(QuoteTrades(p.quotes.value))
  {
    if p.quotes.Some? then Words(QuoteTrades(p.quotes.value)) + sums + Words(QuotePrices(p.quotes.value)) else []
  }

  ghost function SnapBytes(p: Packet, block: seq<Byte>): seq<Byte>
    requires p.snap.Some? ==> AllInt64(SnapOi(p.snap.value)) && AllInt64(SnapLimits(p.snap.value))
  {
    if p.snap.Some? then Words(SnapOi(p.snap.value)) + block + Words(SnapLimits(p.snap.value)) else []
  }

  lemma {:induction false} StripPadding(token: seq<Byte>, n: nat)
    requires token != [] ==> token[|token| - 1] != 0
    ensures Stripped(token + Zeros(n)) == token
  {
    if n == 0 {
      assert token + Zeros(0) == token;
    } else {
      StripPadding(token, n - 1);
      assert (token + Zeros(n))[..|token| + n - 1] == token + Zeros(n - 1);
    }
  }

  /** A block of words between `pre` and `post`, read word by word. */
  lemma ThreeWords(pre: seq<Byte>, xs: seq<int>, post: seq<Byte>, data: seq<Byte>)
    requires |xs| == 3 && AllInt64(xs) && data == pre + Words(xs) + post
    ensures Word(data, |pre|) == xs[0] && Word(data, |pre| + 8) == xs[1] && Word(data, |pre| + 16) == xs[2]
  {
    hide Word, Words, InInt64;
    WordInBlock(pre, xs, post, 0);
    WordInBlock(pre, xs, post, 1);
    WordInBlock(pre, xs, post, 2);
  }

  lemma FourWords(pre: seq<Byte>, xs: seq<int>, post: seq<Byte>, data: seq<Byte>)
    requires |xs| == 4 && AllInt64(xs) && data == pre + Words(xs) + post
    ensures Word(data, |pre|) == xs[0] && Word(data, |pre| + 8) == xs[1]
    ensures Word(data, |pre| + 16) == xs[2] && Word(data, |pre| + 24) == xs[3]
  {
    hide Word, Words, InInt64;
    WordInBlock(pre, xs, post, 0);
    WordInBlock(pre, xs, post, 1);
    WordInBlock(pre, xs, post, 2);
    WordInBlock(pre, xs, post, 3);
  }

  lemma HeaderReads(mode: Byte, exchange: Byte, token: seq<Byte>, xs: seq<int>, post: seq<Byte>, data: seq<Byte>)
    requires |token| == 25 && |xs| == 3 && AllInt64(xs)
    requires data == [mode, exchange] + token + Words(xs) + post
    ensures |data| >= 51 && data[0] == mode && data[1] == exchange && data[2..27] == token
    ensures Word(data, 27) == xs[0] && Word(data, 35) == xs[1] && Word(data, 43) == xs[2]
  {
    hide Word, Words, InInt64;
    ThreeWords([mode, exchange] + token, xs, post, data);
  }

  lemma QuotesRead(head: seq<Byte>, q: Quotes, sums: seq<Byte>, post: seq<Byte>, data: seq<Byte>)
    requires |head| == 51 && |sums| == 16 && AllInt64(QuoteTrades(q)) && AllInt64(QuotePrices(q))
    requires data == head + (Words(QuoteTrades(q)) + sums + Words(QuotePrices(q))) + post
    ensures |data| >= 123 && QuotesIn(data) == q
  {
    hide Word, Words, InInt64;
    var ts, ps := Words(QuoteTrades(q)), Words(QuotePrices(q));
    assert data == head + ts + (sums + ps + post);
    assert data == (head + ts + sums) + ps + post;
    ThreeWords(head, QuoteTrades(q), sums + ps + post, data);
    FourWords(head + ts + sums, QuotePrices(q), post, data);
  }

  lemma SnapRead(head: seq<Byte>, s: Snap, block: seq<Byte>, ltp: int, tail: seq<Byte>, data: seq<Byte>)
    requires |head| == 123 && |block| == 200 && AllInt64(SnapOi(s)) && AllInt64(SnapLimits(s))
    requires s.book == BookIn(block, ltp)
    requires data == head + (Words(SnapOi(s)) + block + Words(SnapLimits(s))) + tail
    ensures |data| >= 379 && SnapIn(data, ltp) == s
  {
    hide Word, Words, InInt64, BookIn;
    var os, ls := Words(SnapOi(s)), Words(SnapLimits(s));
    assert data == head + os + (block + ls + tail);
    assert data == (head + os + block) + ls + tail;
    ThreeWords(head, SnapOi(s), block + ls + tail, data);
    FourWords(head + os + block, SnapLimits(s), tail, data);
    assert data[147..347] == block;
  }

  /** What follows the encoded fields is too short to be taken for a section the packet lacks. */
  predicate TailFits(p: Packet, tail: seq<Byte>) {
    && (p.quotes.None? && p.mode >= QUOTE ==> |tail| < 72)
    && (p.quotes.Some? && p.snap.None? && p.mode >= SNAP_QUOTE ==> |tail| < 256)
  }

  /** Around any depth block, and whatever bytes follow, the parser reads the packet back exactly when
      those bytes cannot be taken for a missing section. */
  lemma AnyBlockRoundTrip(p: Packet, sums: seq<Byte>, block: seq<Byte>, tail: seq<Byte>, isText: seq<Byte> -> bool)
    requires Encodable(p, block) && |sums| == 16 && isText(Padded(p.token))
    ensures Parsed(Encoded(p, sums, block) + tail, isText) == Some(p) <==> TailFits(p, tail)
  {
    hide Word, Words, BookIn, QuotesIn, SnapIn, AllInt64, QuoteTrades, QuotePrices, SnapOi, SnapLimits,
      Padded, Stripped;
    var data := Encoded(p, sums, block) + tail;
    var xs := [p.sequence, p.timestamp, p.ltp];
    var head := [p.mode, p.exchange] + Padded(p.token) + Words(xs);
    var quotes, snap := QuoteBytes(p, sums), SnapBytes(p, block);
    assert data == head + quotes + (snap + tail) == head + (quotes + snap + tail);
    HeaderReads(p.mode, p.exchange, Padded(p.token), xs, quotes + snap + tail, data);
    PaddedStrips(p.token);
    if p.quotes.Some? {
      QuotesRead(head, p.quotes.value, sums, snap + tail, data);
    }
    if p.snap.Some? {
      assert data == head + quotes + snap + tail;
      SnapRead(head + quotes, p.snap.value, block, p.ltp, tail, data);
    }
  }

  /** A packet whose book is what the sender's own ten levels amount to. */
  ghost predicate Sendable(p: Packet, levels: seq<Best5.Level>, pads: seq<seq<Byte>>) {
    && AllInRecords(levels) && ArePads(pads) && |pads| == |levels|
    && Writable(p)
    && (p.snap.Some? ==>
          && |levels| == 10
          && p.snap.value.book == Best5.BookOf(QuotesOf(levels, true), QuotesOf(levels, false), p.ltp))
  }

  lemma SendableIsEncodable(p: Packet, levels: seq<Best5.Level>, pads: seq<seq<Byte>>)
    requires Sendable(p, levels, pads)
    ensures Encodable(p, Block(levels, pads))
  {
    hide Best5.BookOf, Best5.Side, QuotesOf, Block;
    if p.snap.Some? {
      SideOfBlock(levels, pads, true, 10);
      SideOfBlock(levels, pads, false, 10);
      assert levels[..10] == levels;
    }
  }

  /** The wire form, from the sender's own values. */
  ghost function Packed(p: Packet, sums: seq<Byte>, levels: seq<Best5.Level>, pads: seq<seq<Byte>>): seq<Byte>
    requires Sendable(p, levels, pads) && |sums| == 16
  {
    SendableIsEncodable(p, levels, pads);
    Encoded(p, sums, Block(levels, pads))
  }

  /** Whatever a sender encodes, the thirty integers of its depth levels included, and whatever bytes
      follow, the parser reads the packet back field for field, with the book of those levels, exactly
      when those bytes cannot be taken for a missing section. */
  lemma RoundTrip(p: Packet, sums: seq<Byte>, levels: seq<Best5.Level>, pads: seq<seq<Byte>>, tail: seq<Byte>,
                  isText: seq<Byte> -> bool)
    requires Sendable(p, levels, pads) && |sums| == 16 && isText(Padded(p.token))
    ensures Parsed(Packed(p, sums, levels, pads) + tail, isText) == Some(p) <==> TailFits(p, tail)
  {
    hide Parsed, Encoded, TailFits, Padded, Encodable, Block;
    SendableIsEncodable(p, levels, pads);
    AnyBlockRoundTrip(p, sums, Block(levels, pads), tail, isText);
  }

  lemma PaddedStrips(token: seq<Byte>)
    requires |token| <= 25 && (token != [] ==> token[|token| - 1] != 0)
    ensures Stripped(Padded(token)) == token
  {
    StripPadding(token, 25 - |token|);
  }
}

/** The best-5 depth block of a market-data packet. Prices and the last traded price are in paise. */
module Best5 {
  import opened Ticks
  import opened Bytes

  datatype Level = Level(flag: int, qty: int, price: int)

  datatype Quote = Quote(price: int, qty: int)

  datatype Book = Book(bid: int, ask: int, bidQty: int, askQty: int)

  /** Record `i` of the block: flag, quantity, price, and two more bytes that are not read. */
  function LevelAt(block: seq<Byte>, i: nat): Level
    requires 20 * i + 20 <= |block|
  {
    Level(Unsigned(block[20 * i..20 * i + 2]), Word(block, 20 * i + 2), Word(block, 20 * i + 10))
  }

  /** The filled levels among the first `n` whose flag is (is not) zero. */
  function Side(block: seq<Byte>, zero: bool, n: nat): seq<Quote>
    requires 20 * n <= |block|
  {
    if n == 0 then []
    else
      var x := LevelAt(block, n - 1);
      Side(block, zero, n - 1)
      + if x.price > 0 && x.qty > 0 && (x.flag == 0) == zero then [Quote(x.price, x.qty)] else []
  }

  /** The first quote with the highest (lowest) price. */
  function Highest(qs: seq<Quote>): (q: Quote)
    requires qs != []
    ensures q in qs && forall x :: x in qs ==> x.price <= q.price
  {
    if |qs| == 1 then qs[0]
    else
      var r := Highest(qs[..|qs| - 1]);
      assert forall x :: x in qs ==> x in qs[..|qs| - 1] || x == qs[|qs| - 1];
      if qs[|qs| - 1].price > r.price then qs[|qs| - 1] else r
  }

  function Lowest(qs: seq<Quote>): (q: Quote)
    requires qs != []
    ensures q in qs && forall x :: x in qs ==> q.price <= x.price
  {
    if |qs| == 1 then qs[0]
    else
      var r := Lowest(qs[..|qs| - 1]);
      assert forall x :: x in qs ==> x in qs[..|qs| - 1] || x == qs[|qs| - 1];
      if qs[|qs| - 1].price < r.price then qs[|qs| - 1] else r
  }

  predicate Uncrossed(bids: seq<Quote>, asks: seq<Quote>)
    requires bids != [] && asks != []
  {
    Highest(bids).price <= Lowest(asks).price
  }

  function Pair(bids: seq<Quote>, asks: seq<Quote>): Book
    requires bids != [] && asks != []
  {
    Book(Highest(bids).price, Lowest(asks).price, Highest(bids).qty, Lowest(asks).qty)
  }

  /** Within ten percent of spread and five percent of the middle, unless there is no trade price. */
  predicate Plausible(b: Book, ltp: int) {
    ltp > 0 ==> 10 * (b.ask - b.bid) <= ltp && 10 * AbsInt(b.bid + b.ask - 2 * ltp) <= ltp
  }

  function AbsInt(x: int): int {
    if x < 0 then -x else x
  }

  /** The book of two sides: the reading that is not crossed, if it is plausible. */
  function BookOf(a: seq<Quote>, b: seq<Quote>, ltp: int): Option<Book> {
    if a == [] || b == [] then None
    else if Uncrossed(a, b) then (if Plausible(Pair(a, b), ltp) then Some(Pair(a, b)) else None)
    else if Uncrossed(b, a) then (if Plausible(Pair(b, a), ltp) then Some(Pair(b, a)) else None)
    else None
  }

  /** Both readings are uncrossed only when every price on both sides is the same. */
  lemma BothUncrossedMeansFlat(a: seq<Quote>, b: seq<Quote>)
    requires a != [] && b != [] && Uncrossed(a, b) && Uncrossed(b, a)
    ensures forall x, y :: x in a + b && y in a + b ==> x.price == y.price
    ensures Pair(a, b).bid == Pair(b, a).bid == Pair(a, b).ask == Pair(b, a).ask
  {
    assert Lowest(a).price <= Highest(a).price && Lowest(b).price <= Highest(b).price;
  }

  /** Parse the block: collect both sides, try both readings, keep the one closer to the last trade,
      and reject the implausible. Choosing by closeness never decides anything. */
  method Parse(block: seq<Byte>, ltp: int) returns (r: Option<Book>)
    ensures r == if |block| < 200 then None else BookOf(Side(block, true, 10), Side(block, false, 10), ltp)
  {
    if |block| < 200 {
      return None;
    }
    var sideA, sideB := Sides(block);
    if sideA == [] || sideB == [] {
      return None;
    }
    var best: Option<(int, Book)> := None;
    best := Try(sideA, sideB, ltp, best);
    best := Try(sideB, sideA, ltp, best);
    if Uncrossed(sideA, sideB) && Uncrossed(sideB, sideA) {
      BothUncrossedMeansFlat(sideA, sideB);
    }
    if best.None? {
      return None;
    }
    var (_, book) := best.value;
    if ltp > 0 {
      if 10 * (book.ask - book.bid) > ltp || 10 * AbsInt(book.bid + book.ask - 2 * ltp) > ltp {
        return None;
      }
    }
    r := Some(book);
  }

  /** One assignment of the two sides; the distance is twice that of the middle from the last trade. */
  method Try(bids: seq<Quote>, asks: seq<Quote>, ltp: int, best: Option<(int, Book)>) returns (r: Option<(int, Book)>)
    requires bids != [] && asks != []
    ensures var p := Pair(bids, asks);
            var dist := AbsInt(p.bid + p.ask - 2 * ltp);
            r == if Uncrossed(bids, asks) && (best.None? || dist < best.value.0) then Some((dist, p)) else best
  {
    r := best;
    var bid, ask := bids[0], asks[0];
    for i := 1 to |bids|
      invariant bid == Highest(bids[..i])
    {
      assert bids[..i + 1][..i] == bids[..i];
      if bids[i].price > bid.price {
        bid := bids[i];
      }
    }
    assert bids[..|bids|] == bids;
    for i := 1 to |asks|
      invariant ask == Lowest(asks[..i])
    {
      assert asks[..i + 1][..i] == asks[..i];
      if asks[i].price < ask.price {
        ask := asks[i];
      }
    }
    assert asks[..|asks|] == asks;
    if bid.price > ask.price {
      return;
    }
    var dist := AbsInt(bid.price + ask.price - 2 * ltp);
    if best.None? || dist < best.value.0 {
      r := Some((dist, Book(bid.price, ask.price, bid.qty, ask.qty)));
    }
  }

  /** The loop over the ten records. */
  method Sides(block: seq<Byte>) returns (a: seq<Quote>, b: seq<Quote>)
    requires |block| >= 200
    ensures a == Side(block, true, 10) && b == Side(block, false, 10)
  {
    hide LevelAt;
    a, b := [], [];
    for i := 0 to 10
      invariant a == Side(block, true, i) && b == Side(block, false, i)
    {
      var x := LevelAt(block, i);
      if x.price <= 0 || x.qty <= 0 {
        continue;
      }
      if x.flag == 0 {
        a := a + [Quote(x.price, x.qty)];
      } else {
        b := b + [Quote(x.price, x.qty)];
      }
    }
  }

  // ----- what a returned book means -----

  /** A book separates two groups of filled quotes at their innermost prices, whichever group is
      called which, and is plausible; and whenever the groups can be so separated there is one. */
  lemma BookSeparates(a: seq<Quote>, b: seq<Quote>, ltp: int)
    ensures var r := BookOf(a, b, ltp);
            r.Some? <==>
              && a != [] && b != [] && (Uncrossed(a, b) || Uncrossed(b, a))
              && Plausible(if Uncrossed(a, b) then Pair(a, b) else Pair(b, a), ltp)
    ensures var r := BookOf(a, b, ltp);
            r.Some? ==>
              && r.value.bid <= r.value.ask && Plausible(r.value, ltp)
              && (Separates(r.value, a, b) || Separates(r.value, b, a))
  {
    if a != [] && b != [] {
      assert Uncrossed(a, b) ==> Separates(Pair(a, b), a, b);
      assert Uncrossed(b, a) ==> Separates(Pair(b, a), b, a);
    }
  }

  /** No bid is above the best bid, no ask below the best ask, and both are quotes of their side. */
  ghost predicate Separates(k: Book, bids: seq<Quote>, asks: seq<Quote>) {
    && Quote(k.bid, k.bidQty) in bids && Quote(k.ask, k.askQty) in asks
    && (forall x :: x in bids ==> x.price <= k.bid)
    && (forall x :: x in asks ==> k.ask <= x.price)
  }

  /** The two blocks differ only in which flag value marks which side. */
  ghost predicate FlagsInverted(block: seq<Byte>, other: seq<Byte>) {
    && |block| >= 200 && |other| >= 200
    && forall i :: 0 <= i < 10 ==>
         var x, y := LevelAt(block, i), LevelAt(other, i);
         x.qty == y.qty && x.price == y.price && (x.flag == 0) != (y.flag == 0)
  }

  lemma {:induction false} InvertedSides(block: seq<Byte>, other: seq<Byte>, zero: bool, n: nat)
    requires FlagsInverted(block, other) && n <= 10
    ensures Side(block, zero, n) == Side(other, !zero, n)
  {
    hide LevelAt;
    if n > 0 {
      InvertedSides(block, other, zero, n - 1);
    }
  }

  /** Which flag means "buy" does not matter to the prices. */
  lemma FlagConventionDoesNotMatter(block: seq<Byte>, other: seq<Byte>, ltp: int)
    requires FlagsInverted(block, other)
    ensures var r := BookOf(Side(block, true, 10), Side(block, false, 10), ltp);
            var q := BookOf(Side(other, true, 10), Side(other, false, 10), ltp);
            (r.Some? <==> q.Some?) && (r.Some? ==> r.value.bid == q.value.bid && r.value.ask == q.value.ask)
  {
    hide LevelAt, Side;
    InvertedSides(block, other, true, 10);
    InvertedSides(block, other, false, 10);
    var a, b := Side(block, true, 10), Side(block, false, 10);
    if a != [] && b != [] && Uncrossed(a, b) && Uncrossed(b, a) {
      BothUncrossedMeansFlat(a, b);
    }
  }

  // ----- the sides and the book, said outright -----

  /** The quotes of a side are those of its filled records. */
  lemma {:induction false} QuotesOf(block: seq<Byte>, zero: bool, n: nat, q: Quote)
    requires 20 * n <= |block|
    ensures q in Side(block, zero, n) <==>
              exists i: nat :: i < n && LevelAt(block, i).price == q.price > 0 && LevelAt(block, i).qty == q.qty > 0
                               && (LevelAt(block, i).flag == 0 <==> zero)
  {
    hide LevelAt;
    if n > 0 {
      QuotesOf(block, zero, n - 1, q);
    }
  }

  /** The best bid is the first quote with the highest price, the best ask the first with the lowest. */
  lemma {:induction false} HighestIsFirst(qs: seq<Quote>) returns (i: nat)
    requires qs != []
    ensures i < |qs| && qs[i] == Highest(qs) && forall j :: 0 <= j < i ==> qs[j].price < qs[i].price
    ensures forall j :: 0 <= j < |qs| ==> qs[j].price <= qs[i].price
  {
    i := 0;
    if |qs| > 1 {
      i := HighestIsFirst(qs[..|qs| - 1]);
      if qs[|qs| - 1].price > qs[i].price {
        i := |qs| - 1;
      }
    }
  }

  lemma {:induction false} LowestIsFirst(qs: seq<Quote>) returns (i: nat)
    requires qs != []
    ensures i < |qs| && qs[i] == Lowest(qs) && forall j :: 0 <= j < i ==> qs[i].price < qs[j].price
    ensures forall j :: 0 <= j < |qs| ==> qs[i].price <= qs[j].price
  {
    i := 0;
    if |qs| > 1 {
      i := LowestIsFirst(qs[..|qs| - 1]);
      if qs[|qs| - 1].price < qs[i].price {
        i := |qs| - 1;
      }
    }
  }

  /** The spread is at most a tenth of the last trade, and the middle within a twentieth of it; anything
      goes without a last trade. */
  predicate Near(k: Book, ltp: int) {
    ltp > 0 ==> 100 * (k.ask - k.bid) <= 10 * ltp && 95 * (2 * ltp) <= 100 * (k.bid + k.ask) <= 105 * (2 * ltp)
  }

  /** There is a book exactly when some pair of quotes separates the sides, one way or the other, uncrossed
      and near the last trade; it is such a pair, and records with flag zero are the bids if they can be. */
  lemma BookIff(a: seq<Quote>, b: seq<Quote>, ltp: int)
    ensures var r := BookOf(a, b, ltp);
            && (r.Some? <==> exists k: Book :: (Separates(k, a, b) || Separates(k, b, a))
                                               && k.bid <= k.ask && Near(k, ltp))
            && (r.Some? ==> (Separates(r.value, a, b) || Separates(r.value, b, a))
                            && r.value.bid <= r.value.ask && Near(r.value, ltp))
            && (r.Some? && (exists k: Book :: Separates(k, a, b) && k.bid <= k.ask) ==> Separates(r.value, a, b))
  {
    hide Highest, Lowest;
    BookSeparates(a, b, ltp);
    forall k: Book | Separates(k, a, b) && k.bid <= k.ask
      ensures a != [] && b != [] && Uncrossed(a, b) && k.bid == Pair(a, b).bid && k.ask == Pair(a, b).ask
    {
      SeparatesOnce(k, a, b);
    }
    forall k: Book | Separates(k, b, a) && k.bid <= k.ask
      ensures a != [] && b != [] && Uncrossed(b, a) && k.bid == Pair(b, a).bid && k.ask == Pair(b, a).ask
    {
      SeparatesOnce(k, b, a);
    }
    if a != [] && b != [] && Uncrossed(a, b) && Uncrossed(b, a) {
      BothUncrossedMeansFlat(a, b);
    }
    if a != [] && b != [] && Uncrossed(a, b) {
      assert Separates(Pair(a, b), a, b);
    }
  }

  lemma SeparatesOnce(k: Book, bids: seq<Quote>, asks: seq<Quote>)
    requires Separates(k, bids, asks)
    ensures bids != [] && asks != [] && k.bid == Highest(bids).price && k.ask == Lowest(asks).price
    ensures k.bid == Pair(bids, asks).bid && k.ask == Pair(bids, asks).ask
  {
  }
}

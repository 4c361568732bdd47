/** When a backtest buys and sells, stated on the candles themselves. */
module BacktestFacts {
  import opened Ticks
  import opened Backtest
  import opened RealFacts

  const FRESH: Log := Log([], None, None, 0)

  /** A quarter of a rupee and the given share of the price go against the trader, on either side. */
  lemma SlipIsAgainstTheTrader(price: real, pct: real)
    ensures 100.0 * (Slip(price, pct, true) - price) == 25.0 + price * pct
    ensures 100.0 * (price - Slip(price, pct, false)) == 25.0 + price * pct
    ensures price >= 0.0 && pct >= 0.0 ==>
              Slip(price, pct, false) <= price - 0.25 && price + 0.25 <= Slip(price, pct, true)
  {
    assert price * (pct / 100.0) * 100.0 == price * pct;
    if price >= 0.0 && pct >= 0.0 {
      ProductNotNegative(price, pct);
    }
  }

  /** Days begin at midnight. */
  lemma DayIs(t: int, d: int)
    ensures d == Day(t) <==> d * (86_400 * 1_000_000) <= t < (d + 1) * (86_400 * 1_000_000)
  {
    assert DAY == 86_400 * 1_000_000;
  }

  // ----- one candle -----

  /** `p` is the position bought at candle `a`. */
  predicate Bought(k: Rules, a: Candle, id: nat, p: Position) {
    && p.id == id && p.entryTime == a.time && p.qty == (if k.useSizer then a.size else k.lotSize)
    && 100.0 * (p.entryPrice - a.price) == 25.0 + a.price * k.slippagePct
  }

  /** `t` is the trade that sells `p` at candle `b`. */
  predicate Sold(k: Rules, p: Position, b: Candle, t: Trade) {
    && t.id == p.id && t.entryTime == p.entryTime && t.entryPrice == p.entryPrice && t.qty == p.qty
    && t.exitTime == b.time && 100.0 * (b.price - t.exitPrice) == 25.0 + b.price * k.slippagePct
    && t.pnl == (t.exitPrice - t.entryPrice) * t.qty as real - k.cps
  }

  /** The strategy signals and the sizer, if used, allows a size. */
  predicate Wants(k: Rules, c: Candle) {
    c.signal && (k.useSizer ==> c.size > 0)
  }

  /** A candle opens a position exactly when none is open, the entries since the day began are below the
      cap, and it is wanted; it closes one exactly when one is open and its exit is due; nothing else
      changes the position or the trades. */
  lemma OpensAndClosesIff(k: Rules, l: Log, c: Candle)
    ensures var m := OnCandle(k, l, c);
            var entered := if l.today == Some(Day(c.time)) then l.daily else 0;
            && (l.open.None? ==>
                  && (m.open.Some? <==> entered < k.cap && Wants(k, c)) && m.trades == l.trades
                  && (m.open.Some? ==> Bought(k, c, |l.trades| + 1, m.open.value)))
            && (l.open.Some? ==>
                  && (m.open.None? <==> c.exitDue)
                  && (m.open.Some? ==> m.open == l.open && m.trades == l.trades)
                  && (m.open.None? ==> |m.trades| == |l.trades| + 1 && l.trades <= m.trades
                                       && Sold(k, l.open.value, c, m.trades[|l.trades|])))
            && m.today == Some(Day(c.time))
            && m.daily == entered + (if l.open.None? && m.open.Some? then 1 else 0)
  {
    hide Slip, Day;
    SlipIsAgainstTheTrader(c.price, k.slippagePct);
  }

  /** Closing at a candle, as at the end of the data. */
  lemma CloseSells(k: Rules, l: Log, c: Candle)
    requires l.open.Some?
    ensures var m := CloseAt(k, l, c);
            && m.open == None && |m.trades| == |l.trades| + 1 && l.trades <= m.trades
            && Sold(k, l.open.value, c, m.trades[|l.trades|])
  {
    hide Slip;
    SlipIsAgainstTheTrader(c.price, k.slippagePct);
  }

  // ----- a whole run -----

  /** Candles `a..b` all lie on one day. */
  ghost predicate OneDay(cs: seq<Candle>, a: nat, b: nat)
    requires b < |cs|
  {
    forall j :: a <= j <= b ==> Day(cs[j].time) == Day(cs[b].time)
  }

  /** How many of the entries have been made since the day of candle `b` began. */
  ghost function EnteredSoFar(cs: seq<Candle>, entries: seq<nat>, b: nat): nat
    requires b < |cs|
  {
    if entries == [] then 0
    else
      EnteredSoFar(cs, entries[..|entries| - 1], b) + if OneDay(cs, entries[|entries| - 1], b) then 1 else 0
  }

  /** A candle at which a flat backtest, having made these entries, buys. */
  ghost predicate Enters(k: Rules, cs: seq<Candle>, entries: seq<nat>, j: nat)
    requires j < |cs|
  {
    Wants(k, cs[j]) && EnteredSoFar(cs, entries, j) < k.cap
  }

  /** Where the `i`-th stretch without a position begins, and where it ends. */
  function FlatFrom(exits: seq<nat>, i: nat): nat
    requires i <= |exits|
  {
    if i == 0 then 0 else exits[i - 1] + 1
  }

  function FlatTo(entries: seq<nat>, i: nat, n: nat): nat {
    if i < |entries| then entries[i] else n
  }

  /** No candle of the `i`-th stretch without a position is one to enter at. */
  ghost predicate StaysFlat(k: Rules, cs: seq<Candle>, n: nat, entries: seq<nat>, exits: seq<nat>, i: nat)
    requires n <= |cs| && i <= |exits| && i <= |entries|
  {
    forall j :: FlatFrom(exits, i) <= j < FlatTo(entries, i, n) && j < n ==> !Enters(k, cs, entries[..i], j)
  }

  /** The `i`-th position is entered at the end of the `i`-th flat stretch, and is held until the first
      candle at which an exit is due. */
  ghost predicate IsHeld(k: Rules, cs: seq<Candle>, n: nat, entries: seq<nat>, exits: seq<nat>, i: nat)
    requires n <= |cs| && i < |entries| && i <= |exits|
  {
    && FlatFrom(exits, i) <= entries[i] < n && Enters(k, cs, entries[..i], entries[i])
    && (i < |exits| ==> entries[i] < exits[i] < n && cs[exits[i]].exitDue)
    && (forall j :: entries[i] < j < (if i < |exits| then exits[i] else n) ==> !cs[j].exitDue)
  }

  /** The `i`-th closed trade is made of its two candles. */
  ghost predicate IsTradeOf(k: Rules, a: Candle, b: Candle, i: nat, t: Trade) {
    exists p: Position :: Bought(k, a, i + 1, p) && Sold(k, p, b, t)
  }

  /** The trades and the open position are those of `entries` and `exits`, positions in the candles, which
      alternate and are where a position has to be opened and closed, and nowhere else. */
  ghost predicate Explains(k: Rules, cs: seq<Candle>, n: nat, entries: seq<nat>, exits: seq<nat>, l: Log)
    requires n <= |cs|
  {
    && |exits| == |l.trades| && |entries| == |exits| + (if l.open.Some? then 1 else 0)
    && (forall i {:trigger exits[i]} :: 0 <= i < |exits| ==> exits[i] < n)
    && (forall i {:trigger entries[i]} :: 0 <= i < |entries| ==>
          entries[i] < n && IsHeld(k, cs, n, entries, exits, i))
    && (forall i :: 0 <= i <= |exits| ==> StaysFlat(k, cs, n, entries, exits, i))
    && (forall i {:trigger l.trades[i]} :: 0 <= i < |exits| ==>
          IsTradeOf(k, cs[entries[i]], cs[exits[i]], i, l.trades[i]))
    && (l.open.Some? ==> Bought(k, cs[entries[|exits|]], |exits| + 1, l.open.value))
  }

  /** The daily count is what it should be. */
  ghost predicate Counted(cs: seq<Candle>, n: nat, entries: seq<nat>, l: Log)
    requires n <= |cs|
  {
    if n == 0 then l.today == None && l.daily == 0
    else l.today == Some(Day(cs[n - 1].time)) && l.daily == EnteredSoFar(cs, entries, n - 1)
  }

  lemma {:induction false} NextDayCount(cs: seq<Candle>, entries: seq<nat>, n: nat)
    requires 0 < n < |cs| && forall i :: 0 <= i < |entries| ==> entries[i] < n
    ensures EnteredSoFar(cs, entries, n) ==
              if Day(cs[n - 1].time) == Day(cs[n].time) then EnteredSoFar(cs, entries, n - 1) else 0
  {
    if entries != [] {
      NextDayCount(cs, entries[..|entries| - 1], n);
      var a := entries[|entries| - 1];
      assert a < n;
      OneDayNext(cs, a, n);
    }
  }

  lemma OneDayNext(cs: seq<Candle>, a: nat, n: nat)
    requires a < n < |cs|
    ensures OneDay(cs, a, n) <==> Day(cs[n - 1].time) == Day(cs[n].time) && OneDay(cs, a, n - 1)
  {
    hide Day;
    if Day(cs[n - 1].time) == Day(cs[n].time) && OneDay(cs, a, n - 1) {
      assert OneDay(cs, a, n);
    }
  }

  lemma EnteredMore(cs: seq<Candle>, entries: seq<nat>, n: nat)
    requires n < |cs|
    ensures EnteredSoFar(cs, entries + [n], n) == EnteredSoFar(cs, entries, n) + 1
  {
    assert (entries + [n])[..|entries|] == entries;
  }

  /** The entries of the day so far, as the next candle sees them. */
  lemma CountForNext(cs: seq<Candle>, n: nat, entries: seq<nat>, l: Log)
    requires n < |cs| && Counted(cs, n, entries, l) && forall i :: 0 <= i < |entries| ==> entries[i] < n
    ensures EnteredSoFar(cs, entries, n) == if l.today == Some(Day(cs[n].time)) then l.daily else 0
  {
    hide Day;
    if n > 0 {
      NextDayCount(cs, entries, n);
    }
  }

  lemma HeldStays(k: Rules, cs: seq<Candle>, n: nat, entries: seq<nat>, exits: seq<nat>,
                  entries': seq<nat>, exits': seq<nat>, i: nat)
    requires n < |cs| && i < |exits| && i < |entries| && entries <= entries' && exits <= exits'
    requires IsHeld(k, cs, n, entries, exits, i)
    ensures IsHeld(k, cs, n + 1, entries', exits', i)
  {
    hide Enters;
    assert entries'[..i] == entries[..i] && entries'[i] == entries[i] && exits'[i] == exits[i];
    assert FlatFrom(exits', i) == FlatFrom(exits, i);
  }

  lemma FlatStays(k: Rules, cs: seq<Candle>, n: nat, entries: seq<nat>, exits: seq<nat>,
                  entries': seq<nat>, exits': seq<nat>, i: nat)
    requires n < |cs| && i <= |exits| && i < |entries| && entries <= entries' && exits <= exits' && entries[i] < n
    requires StaysFlat(k, cs, n, entries, exits, i)
    ensures StaysFlat(k, cs, n + 1, entries', exits', i)
  {
    hide Enters;
    assert entries'[..i] == entries[..i] && entries'[i] == entries[i];
    assert FlatFrom(exits', i) == FlatFrom(exits, i);
  }

  /** One more candle that opens nothing while flat. */
  lemma NextFlat(k: Rules, cs: seq<Candle>, n: nat, entries: seq<nat>, exits: seq<nat>, l: Log, m: Log)
    requires n < |cs| && Explains(k, cs, n, entries, exits, l) && l.open.None?
    requires !Enters(k, cs, entries, n) && m.open.None? && m.trades == l.trades
    ensures Explains(k, cs, n + 1, entries, exits, m)
  {
    hide Enters, IsHeld, StaysFlat, IsTradeOf, Bought;
    var next := n + 1;
    forall i: nat | i < |exits|
      ensures IsHeld(k, cs, next, entries, exits, i) && StaysFlat(k, cs, next, entries, exits, i)
    {
      assert entries[i] < n;
      HeldStays(k, cs, n, entries, exits, entries, exits, i);
      FlatStays(k, cs, n, entries, exits, entries, exits, i);
    }
    LastFlat(k, cs, n, entries, exits);
  }

  lemma LastFlat(k: Rules, cs: seq<Candle>, n: nat, entries: seq<nat>, exits: seq<nat>)
    requires n < |cs| && |entries| == |exits| && StaysFlat(k, cs, n, entries, exits, |exits|)
    requires !Enters(k, cs, entries, n)
    ensures StaysFlat(k, cs, n + 1, entries, exits, |exits|)
  {
    hide Enters;
    assert entries[..|exits|] == entries;
  }

  /** One more candle that opens a position. */
  lemma NextOpens(k: Rules, cs: seq<Candle>, n: nat, entries: seq<nat>, exits: seq<nat>, l: Log, m: Log)
    requires n < |cs| && Explains(k, cs, n, entries, exits, l) && l.open.None?
    requires Enters(k, cs, entries, n) && m.open.Some? && m.trades == l.trades
    requires Bought(k, cs[n], |l.trades| + 1, m.open.value)
    ensures Explains(k, cs, n + 1, entries + [n], exits, m)
  {
    hide Enters, IsHeld, StaysFlat, IsTradeOf, Bought;
    var next := n + 1;
    var es := entries + [n];
    forall i: nat | i < |exits|
      ensures IsHeld(k, cs, next, es, exits, i) && StaysFlat(k, cs, next, es, exits, i)
    {
      assert entries[i] < n;
      HeldStays(k, cs, n, entries, exits, es, exits, i);
      FlatStays(k, cs, n, entries, exits, es, exits, i);
    }
    JustOpened(k, cs, n, entries, exits);
  }

  lemma JustOpened(k: Rules, cs: seq<Candle>, n: nat, entries: seq<nat>, exits: seq<nat>)
    requires n < |cs| && |entries| == |exits| && StaysFlat(k, cs, n, entries, exits, |exits|)
    requires Enters(k, cs, entries, n) && forall i :: 0 <= i < |exits| ==> exits[i] < n
    ensures IsHeld(k, cs, n + 1, entries + [n], exits, |exits|)
    ensures StaysFlat(k, cs, n + 1, entries + [n], exits, |exits|)
  {
    hide Enters;
    assert (entries + [n])[..|exits|] == entries == entries[..|exits|];
  }

  /** One more candle while a position is open: it is kept, or closed. */
  lemma NextKeeps(k: Rules, cs: seq<Candle>, n: nat, entries: seq<nat>, exits: seq<nat>, l: Log, m: Log)
    requires n < |cs| && Explains(k, cs, n, entries, exits, l) && l.open.Some?
    requires !cs[n].exitDue && m.open == l.open && m.trades == l.trades
    ensures Explains(k, cs, n + 1, entries, exits, m)
  {
    hide Enters, IsHeld, StaysFlat, IsTradeOf, Bought;
    var next := n + 1;
    forall i: nat | i <= |exits|
      ensures StaysFlat(k, cs, next, entries, exits, i)
    {
      assert entries[i] < n;
      FlatStays(k, cs, n, entries, exits, entries, exits, i);
    }
    forall i: nat | i < |exits|
      ensures IsHeld(k, cs, next, entries, exits, i)
    {
      assert entries[i] < n;
      HeldStays(k, cs, n, entries, exits, entries, exits, i);
    }
    assert entries[|exits|] < n;
    StillHeld(k, cs, n, entries, exits);
  }

  lemma StillHeld(k: Rules, cs: seq<Candle>, n: nat, entries: seq<nat>, exits: seq<nat>)
    requires n < |cs| && |entries| == |exits| + 1 && IsHeld(k, cs, n, entries, exits, |exits|) && !cs[n].exitDue
    ensures IsHeld(k, cs, n + 1, entries, exits, |exits|)
  {
    hide Enters;
  }

  lemma NextCloses(k: Rules, cs: seq<Candle>, n: nat, entries: seq<nat>, exits: seq<nat>, l: Log, m: Log)
    requires n < |cs| && Explains(k, cs, n, entries, exits, l) && l.open.Some? && cs[n].exitDue
    requires m.open.None? && |m.trades| == |l.trades| + 1 && l.trades <= m.trades
    requires Sold(k, l.open.value, cs[n], m.trades[|l.trades|])
    ensures Explains(k, cs, n + 1, entries, exits + [n], m)
  {
    hide Enters, IsHeld, StaysFlat, Bought, Sold;
    var next := n + 1;
    var xs := exits + [n];
    forall i: nat | i <= |exits|
      ensures StaysFlat(k, cs, next, entries, xs, i)
    {
      assert entries[i] < n;
      FlatStays(k, cs, n, entries, exits, entries, xs, i);
    }
    forall i: nat | i < |exits|
      ensures IsHeld(k, cs, next, entries, xs, i)
    {
      assert entries[i] < n;
      HeldStays(k, cs, n, entries, exits, entries, xs, i);
    }
    assert entries[|exits|] < n;
    JustClosed(k, cs, n, entries, exits);
    assert IsTradeOf(k, cs[entries[|exits|]], cs[n], |exits|, m.trades[|exits|]);
    TradesKept(k, cs, n, entries, exits, l, m);
  }

  lemma TradesKept(k: Rules, cs: seq<Candle>, n: nat, entries: seq<nat>, exits: seq<nat>, l: Log, m: Log)
    requires n < |cs| && Explains(k, cs, n, entries, exits, l) && l.trades <= m.trades
    ensures forall i: nat | i < |exits| ::
              m.trades[i] == l.trades[i] && (exits + [n])[i] == exits[i] < n && entries[i] < n
              && IsTradeOf(k, cs[entries[i]], cs[exits[i]], i, m.trades[i])
  {
    hide Enters, IsHeld, StaysFlat, Bought, Sold, IsTradeOf;
    forall i: nat | i < |exits|
      ensures m.trades[i] == l.trades[i] && (exits + [n])[i] == exits[i] < n && entries[i] < n
              && IsTradeOf(k, cs[entries[i]], cs[exits[i]], i, m.trades[i])
    {
      assert m.trades[i] == l.trades[i];
    }
  }

  lemma JustClosed(k: Rules, cs: seq<Candle>, n: nat, entries: seq<nat>, exits: seq<nat>)
    requires n < |cs| && |entries| == |exits| + 1 && IsHeld(k, cs, n, entries, exits, |exits|)
    requires entries[|exits|] < n && cs[n].exitDue
    ensures IsHeld(k, cs, n + 1, entries, exits + [n], |exits|)
    ensures StaysFlat(k, cs, n + 1, entries, exits + [n], |exits| + 1)
  {
    hide Enters;
  }

  /** Every run is explained by its candles. */
  lemma {:induction false} RunIsExplained(k: Rules, cs: seq<Candle>, n: nat)
    returns (entries: seq<nat>, exits: seq<nat>)
    requires n <= |cs|
    ensures var l := After(k, FRESH, cs[..n]);
            Explains(k, cs, n, entries, exits, l) && Counted(cs, n, entries, l)
  {
    hide Explains, Counted, OnCandle, After;
    if n == 0 {
      AfterNone(k, FRESH, cs);
      NothingYet(k, cs);
      entries, exits := [], [];
    } else {
      entries, exits := RunIsExplained(k, cs, n - 1);
      AfterNext(k, FRESH, cs, n - 1);
      entries, exits := StepIsExplained(k, cs, n - 1, entries, exits, After(k, FRESH, cs[..n - 1]));
    }
  }

  lemma NothingYet(k: Rules, cs: seq<Candle>)
    ensures Explains(k, cs, 0, [], [], FRESH) && Counted(cs, 0, [], FRESH)
  {
  }

  lemma StepIsExplained(k: Rules, cs: seq<Candle>, n: nat, entries: seq<nat>, exits: seq<nat>, l: Log)
    returns (entries': seq<nat>, exits': seq<nat>)
    requires n < |cs| && Explains(k, cs, n, entries, exits, l) && Counted(cs, n, entries, l)
    ensures var m := OnCandle(k, l, cs[n]);
            Explains(k, cs, n + 1, entries', exits', m) && Counted(cs, n + 1, entries', m)
  {
    hide OnCandle, IsHeld, StaysFlat, IsTradeOf, Bought, Sold, Wants, EnteredSoFar, Day;
    var m := OnCandle(k, l, cs[n]);
    OpensAndClosesIff(k, l, cs[n]);
    CountForNext(cs, n, entries, l);
    entries', exits' := entries, exits;
    if l.open.None? && m.open.None? {
      NextFlat(k, cs, n, entries, exits, l, m);
    } else if l.open.None? {
      entries' := entries + [n];
      NextOpens(k, cs, n, entries, exits, l, m);
      EnteredMore(cs, entries, n);
    } else if m.open.Some? {
      NextKeeps(k, cs, n, entries, exits, l, m);
    } else {
      exits' := exits + [n];
      NextCloses(k, cs, n, entries, exits, l, m);
    }
  }

  /** Two accounts of the same candles agree on a position once they agree on the ones before. */
  lemma SameSpan(k: Rules, cs: seq<Candle>, n: nat, es: seq<nat>, xs: seq<nat>, l: Log,
                 es': seq<nat>, xs': seq<nat>, l': Log, i: nat)
    requires n <= |cs| && Explains(k, cs, n, es, xs, l) && Explains(k, cs, n, es', xs', l')
    requires i < |es| && i <= |xs| && i <= |es'| && i <= |xs'| && es[..i] == es'[..i] && xs[..i] == xs'[..i]
    ensures i < |es'| && es[i] == es'[i] && (i < |xs| ==> i < |xs'| && xs[i] == xs'[i])
  {
    hide Enters, IsTradeOf, Bought;
    assert es[i] < n && IsHeld(k, cs, n, es, xs, i);
    assert StaysFlat(k, cs, n, es', xs', i) && StaysFlat(k, cs, n, es, xs, i);
    assert FlatFrom(xs, i) == FlatFrom(xs', i) by {
      if i > 0 {
        assert xs[..i][i - 1] == xs'[..i][i - 1];
      }
    }
    if i < |es'| {
      assert es'[i] < n && IsHeld(k, cs, n, es', xs', i);
    }
  }

  lemma {:induction false} SameSpans(k: Rules, cs: seq<Candle>, n: nat, es: seq<nat>, xs: seq<nat>, l: Log,
                                     es': seq<nat>, xs': seq<nat>, l': Log, i: nat)
    requires n <= |cs| && Explains(k, cs, n, es, xs, l) && Explains(k, cs, n, es', xs', l')
    requires i <= |xs|
    ensures i <= |xs'| && i <= |es'| && es[..i] == es'[..i] && xs[..i] == xs'[..i]
  {
    hide IsHeld, StaysFlat, IsTradeOf, Bought;
    if i > 0 {
      SameSpans(k, cs, n, es, xs, l, es', xs', l', i - 1);
      SameSpan(k, cs, n, es, xs, l, es', xs', l', i - 1);
      assert es[..i] == es[..i - 1] + [es[i - 1]] && es'[..i] == es'[..i - 1] + [es'[i - 1]];
      assert xs[..i] == xs[..i - 1] + [xs[i - 1]] && xs'[..i] == xs'[..i - 1] + [xs'[i - 1]];
    }
  }

  /** The candles determine the account: the trades and the open position that fit them are unique. */
  lemma AccountIsUnique(k: Rules, cs: seq<Candle>, n: nat, es: seq<nat>, xs: seq<nat>, l: Log,
                        es': seq<nat>, xs': seq<nat>, l': Log)
    requires n <= |cs| && Explains(k, cs, n, es, xs, l) && Explains(k, cs, n, es', xs', l')
    ensures es == es' && xs == xs' && l.trades == l'.trades && l.open == l'.open
  {
    hide IsHeld, StaysFlat, IsTradeOf, Bought;
    SameLength(k, cs, n, es, xs, l, es', xs', l');
    SameLength(k, cs, n, es', xs', l', es, xs, l);
    forall i | 0 <= i < |xs|
      ensures l.trades[i] == l'.trades[i]
    {
      assert xs[i] < n && es[i] < n;
      SameTrade(k, cs[es[i]], cs[xs[i]], i, l.trades[i], l'.trades[i]);
    }
    if l.open.Some? {
      SamePosition(k, cs[es[|xs|]], |xs| + 1, l.open.value, l'.open.value);
    }
  }

  lemma SameLength(k: Rules, cs: seq<Candle>, n: nat, es: seq<nat>, xs: seq<nat>, l: Log,
                   es': seq<nat>, xs': seq<nat>, l': Log)
    requires n <= |cs| && Explains(k, cs, n, es, xs, l) && Explains(k, cs, n, es', xs', l')
    ensures es <= es' && xs <= xs'
  {
    hide IsHeld, StaysFlat, IsTradeOf, Bought;
    SameSpans(k, cs, n, es, xs, l, es', xs', l', |xs|);
    if |es| > |xs| {
      SameSpan(k, cs, n, es, xs, l, es', xs', l', |xs|);
    }
    assert es[..|xs|] == es'[..|xs|];
    assert forall i :: 0 <= i < |xs| ==> es[i] == es[..|xs|][i];
  }

  lemma SamePosition(k: Rules, a: Candle, id: nat, p: Position, q: Position)
    requires Bought(k, a, id, p) && Bought(k, a, id, q)
    ensures p == q
  {
  }

  lemma SameTrade(k: Rules, a: Candle, b: Candle, i: nat, t: Trade, u: Trade)
    requires IsTradeOf(k, a, b, i, t) && IsTradeOf(k, a, b, i, u)
    ensures t == u
  {
    var p: Position :| Bought(k, a, i + 1, p) && Sold(k, p, b, t);
    var q: Position :| Bought(k, a, i + 1, q) && Sold(k, q, b, u);
    SamePosition(k, a, i + 1, p, q);
  }

  /** At the end of the data the open position, if any, is sold at the last candle: the log is explained
      by all the candles, with at most one trade more. */
  lemma WholeRunIsExplained(k: Rules, cs: seq<Candle>) returns (entries: seq<nat>, exits: seq<nat>)
    ensures var l, m := After(k, FRESH, cs), Finished(k, FRESH, cs);
            && Explains(k, cs, |cs|, entries, exits, l) && m.open == None
            && (l.open.None? ==> m.trades == l.trades)
            && (l.open.Some? ==> cs != [] && |m.trades| == |l.trades| + 1 && l.trades <= m.trades
                                 && Sold(k, l.open.value, cs[|cs| - 1], m.trades[|l.trades|]))
  {
    hide Explains, Counted, OnCandle, CloseAt, Sold, After;
    entries, exits := RunIsExplained(k, cs, |cs|);
    assert cs[..|cs|] == cs;
    var l := After(k, FRESH, cs);
    if cs == [] {
      NothingAfter(k, FRESH);
    } else if l.open.Some? {
      CloseSells(k, l, cs[|cs| - 1]);
    }
  }

  /** Every trade was bought at a candle that signalled, and sold at a later candle at which an exit was
      due or at the last one, with no exit due in between. */
  lemma EveryTradeHasItsCandles(k: Rules, cs: seq<Candle>, i: nat) returns (a: nat, b: nat)
    requires i < |Finished(k, FRESH, cs).trades|
    ensures a <= b < |cs| && Wants(k, cs[a]) && IsTradeOf(k, cs[a], cs[b], i, Finished(k, FRESH, cs).trades[i])
    ensures (a < b && cs[b].exitDue) || b == |cs| - 1
    ensures forall j :: a < j < b ==> !cs[j].exitDue
  {
    hide OnCandle, CloseAt, After, Sold, Bought, Wants, EnteredSoFar, StaysFlat;
    var entries, exits := WholeRunIsExplained(k, cs);
    var l, m := After(k, FRESH, cs), Finished(k, FRESH, cs);
    a := entries[i];
    assert IsHeld(k, cs, |cs|, entries, exits, i);
    if i < |exits| {
      b := exits[i];
      assert m.trades[i] == l.trades[i];
    } else {
      b := |cs| - 1;
      assert Bought(k, cs[a], i + 1, l.open.value) && Sold(k, l.open.value, cs[b], m.trades[i]);
    }
  }

  /** Candles that never signal make no trades. */
  lemma NoSignalNoTrade(k: Rules, cs: seq<Candle>)
    requires forall j :: 0 <= j < |cs| ==> !cs[j].signal
    ensures Finished(k, FRESH, cs).trades == []
  {
    hide Finished, IsTradeOf;
    if Finished(k, FRESH, cs).trades != [] {
      var a, b := EveryTradeHasItsCandles(k, cs, 0);
    }
  }

  // ----- what the summary counts -----

  /** The number of winners is the number of trades with a positive profit. */
  lemma {:induction false} WinsIs(ts: seq<Trade>)
    ensures Wins(ts) == |set i | 0 <= i < |ts| && ts[i].pnl > 0.0|
  {
    var won := set i | 0 <= i < |ts| && ts[i].pnl > 0.0;
    if ts == [] {
      assert won == {};
    } else {
      var n := |ts| - 1;
      var rest := ts[..n];
      WinsIs(rest);
      var before := set i | 0 <= i < |rest| && rest[i].pnl > 0.0;
      assert won == before + if ts[n].pnl > 0.0 then {n} else {};
    }
  }

  /** Every profit counts for the winners or for the losers, by its sign. */
  lemma {:induction false} SharesAre(ts: seq<Trade>, i: nat)
    requires i < |ts|
    ensures var t, rest := ts[i], ts[..i] + ts[i + 1..];
            && WonPnl(ts) == WonPnl(rest) + (if t.pnl > 0.0 then t.pnl else 0.0)
            && LostPnl(ts) == LostPnl(rest) + (if t.pnl < 0.0 then t.pnl else 0.0)
            && WonPnl([]) == 0.0 == LostPnl([])
  {
    var n := |ts| - 1;
    if i == n {
      assert ts[..i] + ts[i + 1..] == ts[..n];
    } else {
      SharesAre(ts[..n], i);
      DropThenLast(ts, i);
    }
  }

  lemma DropThenLast(ts: seq<Trade>, i: nat)
    requires i + 1 < |ts|
    ensures var n, rest := |ts| - 1, ts[..i] + ts[i + 1..];
            |rest| == n && rest[..n - 1] == ts[..n][..i] + ts[..n][i + 1..] && rest[n - 1] == ts[n]
  {
  }

  /** Where a day occurs. */
  ghost function Spots(days: seq<int>, d: int): set<int> {
    set i | 0 <= i < |days| && days[i] == d
  }

  lemma SpotsMore(days: seq<int>, d: int)
    requires days != []
    ensures var n := |days| - 1;
            var before := Spots(days[..n], d);
            n !in before && Spots(days, d) == if days[n] == d then before + {n} else before
  {
  }

  /** The daily count is the number of entries on that day. */
  lemma {:induction false} CountIs(days: seq<int>, d: int)
    ensures Count(days, d) == |Spots(days, d)|
  {
    if days == [] {
      assert Spots(days, d) == {};
    } else {
      hide Spots;
      CountIs(days[..|days| - 1], d);
      SpotsMore(days, d);
    }
  }
}

/** Backtest accounting. The exit engine, the strategy and the position sizer are oracles carried by
    each candle; the price is the resolved option price. */
module Backtest {
  import opened Ticks
  import opened Drawdown
  import opened RealFacts

  /** A candle with the oracles' verdicts for it: whether the exit engine closes an open position,
      whether the strategy signals with enough confidence, and the size the sizer would allow. */
  datatype Candle = Candle(time: int, price: real, exitDue: bool, signal: bool, size: int)

  datatype Position = Position(id: nat, entryTime: int, entryPrice: real, qty: int)

  datatype Trade = Trade(id: nat, entryTime: int, exitTime: int, entryPrice: real, exitPrice: real, qty: int, pnl: real)

  datatype Point = Point(time: int, equity: real)

  datatype Results = Results(totalPnl: real, totalTrades: nat, winning: nat, losing: nat, winRate: real,
                             profitFactor: real, maxDrawdown: real, maxDrawdownPct: real, avgWin: real,
                             avgLoss: real, expectancy: real)

  /** The calendar day of an instant. */
  function Day(t: int): int {
    t / DAY
  }

  function SumPnl(ts: seq<Trade>): real {
    if ts == [] then 0.0 else SumPnl(ts[..|ts| - 1]) + ts[|ts| - 1].pnl
  }

  function Count(days: seq<int>, d: int): nat {
    if days == [] then 0 else Count(days[..|days| - 1], d) + if days[|days| - 1] == d then 1 else 0
  }

  function Equities(points: seq<Point>): (es: seq<real>)
    ensures |es| == |points| && forall i :: 0 <= i < |points| ==> es[i] == points[i].equity
  {
    seq(|points|, i requires 0 <= i < |points| => points[i].equity)
  }

  function EntryDaysOf(ts: seq<Trade>): (ds: seq<int>)
    ensures |ds| == |ts| && forall i :: 0 <= i < |ts| ==> ds[i] == Day(ts[i].entryTime)
  {
    seq(|ts|, i requires 0 <= i < |ts| => Day(ts[i].entryTime))
  }

  /** What a backtester is told before it runs. */
  datatype Rules = Rules(lotSize: int, cap: int, cps: real, slippagePct: real, useSizer: bool)

  /** What it has done: the closed trades, the open position, and the entries of the current day. */
  datatype Log = Log(trades: seq<Trade>, open: Option<Position>, today: Option<int>, daily: nat)

  /** Quarter-rupee spread plus a proportional impact, against the trader. */
  function Slip(price: real, pct: real, buy: bool): real {
    var slip := 0.25 + price * (pct / 100.0);
    if buy then price + slip else price - slip
  }

  lemma SumPnlMore(ts: seq<Trade>, t: Trade)
    ensures SumPnl(ts + [t]) == SumPnl(ts) + t.pnl
  {
    assert (ts + [t])[..|ts|] == ts;
  }

  lemma CountMore(ds: seq<int>, d: int, x: int)
    ensures Count(ds + [d], x) == Count(ds, x) + if d == x then 1 else 0
  {
    assert (ds + [d])[..|ds|] == ds;
  }

  lemma {:induction false} CountNone(ds: seq<int>, x: int)
    requires forall i :: 0 <= i < |ds| ==> ds[i] < x
    ensures Count(ds, x) == 0
  {
    if ds != [] {
      CountNone(ds[..|ds| - 1], x);
    }
  }

  /** The record of closing `p` at a fill price, with the remaining half of the round-trip cost. */
  function Closed(p: Position, time: int, fill: real, cps: real): Trade {
    Trade(p.id, p.entryTime, time, p.entryPrice, fill, p.qty, (fill - p.entryPrice) * p.qty as real - cps)
  }

  function CloseAt(k: Rules, l: Log, c: Candle): Log
    requires l.open.Some?
  {
    l.(trades := l.trades + [Closed(l.open.value, c.time, Slip(c.price, k.slippagePct, false), k.cps)], open := None)
  }

  /** One candle: a new day resets the daily count; an open position may be closed, and then nothing
      else happens; otherwise a new one may be opened under the daily cap. */
  function OnCandle(k: Rules, l: Log, c: Candle): Log {
    var m := if l.today == Some(Day(c.time)) then l else l.(today := Some(Day(c.time)), daily := 0);
    if m.open.Some? then (if c.exitDue then CloseAt(k, m, c) else m)
    else if m.daily < k.cap && c.signal && !(k.useSizer && c.size <= 0) then
      m.(open := Some(Position(|m.trades| + 1, c.time, Slip(c.price, k.slippagePct, true),
                               if k.useSizer then c.size else k.lotSize)),
         daily := m.daily + 1)
    else m
  }

  function After(k: Rules, l: Log, cs: seq<Candle>): Log {
    if cs == [] then l else OnCandle(k, After(k, l, cs[..|cs| - 1]), cs[|cs| - 1])
  }

  /** The candles in order, then whatever is still open closed at the last one. */
  function Finished(k: Rules, l: Log, cs: seq<Candle>): Log {
    var m := After(k, l, cs);
    if cs != [] && m.open.Some? then CloseAt(k, m, cs[|cs| - 1]) else m
  }

  /** The money after booking `ts` and paying `entries` entries. */
  function Money(initial: real, cps: real, ts: seq<Trade>, entries: nat): real {
    initial + SumPnl(ts) - cps * entries as real
  }

  lemma MoneyMoves(initial: real, cps: real, ts: seq<Trade>, t: Trade, entries: nat)
    ensures Money(initial, cps, ts, entries + 1) == Money(initial, cps, ts, entries) - cps
    ensures Money(initial, cps, ts + [t], entries) == Money(initial, cps, ts, entries) + t.pnl
  {
    SumPnlMore(ts, t);
    assert cps * (entries + 1) as real == cps * entries as real + cps;
  }

  /** Every trade is numbered, priced and booked consistently, and the curve is the money after
      each exit. */
  ghost predicate Booked(initial: real, cps: real, ts: seq<Trade>, curve: seq<Point>)
    requires |curve| == |ts|
  {
    forall k :: 0 <= k < |ts| ==>
         && ts[k].id == k + 1
         && ts[k].pnl == (ts[k].exitPrice - ts[k].entryPrice) * ts[k].qty as real - cps
         && curve[k] == Point(ts[k].exitTime, Money(initial, cps, ts[..k + 1], k + 1))
  }

  lemma BookOne(initial: real, cps: real, ts: seq<Trade>, curve: seq<Point>, t: Trade)
    requires |curve| == |ts| && Booked(initial, cps, ts, curve) && t.id == |ts| + 1
    requires t.pnl == (t.exitPrice - t.entryPrice) * t.qty as real - cps
    ensures Booked(initial, cps, ts + [t], curve + [Point(t.exitTime, Money(initial, cps, ts + [t], |ts| + 1))])
  {
    hide Money;
    var us := ts + [t];
    assert forall k :: 0 <= k < |ts| ==> us[k] == ts[k] && us[..k + 1] == ts[..k + 1];
    assert us[..|us|] == us;
  }

  /** How many trades won, and what the winners and the others brought. */
  function Wins(ts: seq<Trade>): nat {
    if ts == [] then 0 else Wins(ts[..|ts| - 1]) + if ts[|ts| - 1].pnl > 0.0 then 1 else 0
  }

  function WonPnl(ts: seq<Trade>): (p: real)
    ensures p >= 0.0 && (Wins(ts) == 0 ==> p == 0.0)
  {
    if ts == [] then 0.0 else WonPnl(ts[..|ts| - 1]) + if ts[|ts| - 1].pnl > 0.0 then ts[|ts| - 1].pnl else 0.0
  }

  function LostPnl(ts: seq<Trade>): (p: real)
    ensures p <= 0.0 && (Wins(ts) == |ts| ==> p == 0.0) && Wins(ts) <= |ts|
  {
    if ts == [] then 0.0 else LostPnl(ts[..|ts| - 1]) + if ts[|ts| - 1].pnl > 0.0 then 0.0 else ts[|ts| - 1].pnl
  }

  lemma {:induction false} WonAndLost(ts: seq<Trade>)
    ensures WonPnl(ts) + LostPnl(ts) == SumPnl(ts)
  {
    if ts != [] {
      WonAndLost(ts[..|ts| - 1]);
    }
  }

  /** Wins in percent of all trades. */
  function WinRate(w: nat, n: nat): real {
    if n > 0 then w as real / n as real * 100.0 else 0.0
  }

  function Average(sum: real, n: nat): real {
    if n > 0 then sum / n as real else 0.0
  }

  function Expectancy(rate: real, avgWin: real, avgLoss: real): real {
    rate / 100.0 * avgWin - (100.0 - rate) / 100.0 * avgLoss
  }

  /** The formula for the expectancy is the mean profit of a trade. */
  lemma ExpectancyIsMean(w: nat, l: nat, won: real, lost: real)
    requires w + l > 0 && (w == 0 ==> won == 0.0) && (l == 0 ==> lost == 0.0)
    ensures Expectancy(WinRate(w, w + l), Average(won, w), Average(lost, l)) * (w + l) as real == won - lost
  {
    var n, f := (w + l) as real, w as real / (w + l) as real;
    var avgWin, avgLoss, rate := Average(won, w), Average(lost, l), WinRate(w, w + l);
    Ratio(w as real, n);
    assert rate / 100.0 == f && (100.0 - rate) / 100.0 == 1.0 - f;
    assert avgWin * w as real == won;
    assert avgLoss * l as real == lost;
    Weigh(f, n, w as real, avgWin);
    Weigh(1.0 - f, n, l as real, avgLoss);
    assert (f * avgWin - (1.0 - f) * avgLoss) * n == f * avgWin * n - (1.0 - f) * avgLoss * n;
  }

  /** Each share of the summary gives its total back. */
  lemma SharesAreExact(w: nat, n: nat, won: real, lost: real)
    requires w <= n && (w == 0 ==> won == 0.0) && (w == n ==> lost == 0.0)
    ensures WinRate(w, n) * n as real == 100.0 * w as real
    ensures Average(won, w) * w as real == won && Average(lost, n - w) * (n - w) as real == lost
    ensures lost > 0.0 ==> won / lost * lost == won
    ensures (n == 0 ==> WinRate(w, n) == 0.0) && (w == 0 ==> Average(won, w) == 0.0)
    ensures n == w ==> Average(lost, n - w) == 0.0
  {
    if n > 0 {
      Ratio(w as real, n as real);
      assert WinRate(w, n) * n as real == w as real / n as real * n as real * 100.0;
    }
  }

  /** The summary says what it should of the closed trades: the counts, the rate in percent, the two
      averages, the ratio of profit to loss, and the expectancy as the mean profit. */
  ghost predicate SummaryOf(r: Results, ts: seq<Trade>) {
    && r.totalTrades == |ts| == r.winning + r.losing && r.winning == Wins(ts)
    && r.winRate * |ts| as real == 100.0 * Wins(ts) as real
    && r.avgWin * r.winning as real == WonPnl(ts) && r.avgLoss * r.losing as real == -LostPnl(ts)
    && (if LostPnl(ts) < 0.0 then r.profitFactor * -LostPnl(ts) == WonPnl(ts) else r.profitFactor == 999.99)
    && r.expectancy * |ts| as real == SumPnl(ts)
    && (ts == [] ==> r.winRate == 0.0 == r.expectancy)
    && (r.winning == 0 ==> r.avgWin == 0.0) && (r.losing == 0 ==> r.avgLoss == 0.0)
  }

  /** The money made is the expectancy less one entry commission, times the trades: the expectancy
      leaves the entry commission out. */
  ghost predicate NetOfEntryCosts(r: Results, cps: real) {
    r.totalPnl == (r.expectancy - cps) * r.totalTrades as real
  }

  /** The drawdown in percent is its share of the highest equity; zero if there never was any. */
  ghost predicate IsShareOfPeak(r: Results, peak: real) {
    if peak > 0.0 then r.maxDrawdownPct * peak == 100.0 * r.maxDrawdown else r.maxDrawdownPct == 0.0
  }

  lemma ShareOfPeak(r: Results, peak: real)
    requires r.maxDrawdownPct == if peak > 0.0 then r.maxDrawdown / peak * 100.0 else 0.0
    ensures IsShareOfPeak(r, peak)
  {
    if peak > 0.0 {
      Ratio(r.maxDrawdown, peak);
      assert r.maxDrawdownPct * peak == r.maxDrawdown / peak * peak * 100.0;
    }
  }

  lemma SummaryHolds(r: Results, ts: seq<Trade>)
    requires r.winning == Wins(ts) <= |ts| == r.totalTrades && r.losing == |ts| - r.winning
    requires var won, lost := WonPnl(ts), Abs(LostPnl(ts));
             && r.winRate == WinRate(r.winning, |ts|)
             && r.avgWin == Average(won, r.winning) && r.avgLoss == Average(lost, r.losing)
             && r.profitFactor == (if lost > 0.0 then won / lost else 999.99)
             && r.expectancy == (if ts != [] then Expectancy(r.winRate, r.avgWin, r.avgLoss) else 0.0)
    ensures SummaryOf(r, ts)
  {
    hide Wins, WonPnl, LostPnl, WinRate, Average, Expectancy, SumPnl;
    var won, lost := WonPnl(ts), -LostPnl(ts);
    SharesAreExact(r.winning, |ts|, won, lost);
    WonAndLost(ts);
    if ts != [] {
      ExpectancyIsMean(r.winning, r.losing, won, lost);
    } else {
      NothingBooked();
    }
  }

  lemma NothingBooked()
    ensures SumPnl([]) == 0.0
  {
  }

  lemma NetHolds(r: Results, ts: seq<Trade>, initial: real, cps: real)
    requires SummaryOf(r, ts) && r.totalPnl == Money(initial, cps, ts, |ts|) - initial
    ensures NetOfEntryCosts(r, cps)
  {
    hide SumPnl, Wins, WonPnl, LostPnl;
  }

  lemma Weigh(f: real, n: real, k: real, a: real)
    requires f * n == k
    ensures f * a * n == k * a
  {
    assert f * a * n == f * n * a;
  }

  method Tally(ts: seq<Trade>) returns (winning: nat, won: real, lost: real)
    ensures winning == Wins(ts) <= |ts| && won == WonPnl(ts) && lost == LostPnl(ts)
    ensures won + lost == SumPnl(ts)
    ensures (ts == [] ==> SumPnl(ts) == 0.0) && lost <= 0.0
    ensures (winning == 0 ==> won == 0.0) && (winning == |ts| ==> lost == 0.0)
  {
    winning, won, lost := 0, 0.0, 0.0;
    for i := 0 to |ts|
      invariant winning == Wins(ts[..i]) <= i && won == WonPnl(ts[..i]) && lost == LostPnl(ts[..i])
    {
      assert ts[..i + 1][..i] == ts[..i];
      if ts[i].pnl > 0.0 {
        winning, won := winning + 1, won + ts[i].pnl;
      } else {
        lost := lost + ts[i].pnl;
      }
    }
    assert ts[..|ts|] == ts;
    WonAndLost(ts);
  }

  /** No day has more entries than allowed; none is later than today; today's are counted. */
  ghost predicate PacedDays(days: seq<int>, cap: int, today: Option<int>, daily: nat) {
    && (forall d :: Count(days, d) <= if cap > 0 then cap else 0)
    && (today.None? ==> days == [])
    && (today.Some? ==> (forall i :: 0 <= i < |days| ==> days[i] <= today.value) && Count(days, today.value) == daily)
  }

  lemma PacedNext(days: seq<int>, cap: int, today: Option<int>, daily: nat, d: int, enters: bool)
    requires PacedDays(days, cap, today, daily) && (today.Some? ==> today.value <= d)
    requires enters ==> (if today == Some(d) then daily else 0) < cap
    ensures PacedDays(days + (if enters then [d] else []), cap, Some(d),
                      (if today == Some(d) then daily else 0) + if enters then 1 else 0)
  {
    hide Count;
    assert days + [] == days;
    if today.None? || today.value < d {
      CountNone(days, d);
    }
    forall x ensures Count(days + [d], x) == Count(days, x) + if d == x then 1 else 0 {
      CountMore(days, d, x);
    }
  }

  class Backtester {
    const initialCapital: real
    const lotSize: int
    const maxTradesPerDay: int
    const commissionPerSide: real
    const slippagePct: real
    const useSizer: bool

    var currentCapital: real
    var trades: seq<Trade>
    var currentTrade: Option<Position>
    var tradeCount: nat
    var dailyTrades: nat
    var currentDate: Option<int>
    var equityCurve: seq<Point>
    var peakEquity: real
    var maxDrawdown: real

    /** Money is conserved, and the curve is the money after each exit. */
    ghost predicate Valid()
      reads this
    {
      && tradeCount == |trades| + (if currentTrade.Some? then 1 else 0)
      && currentCapital == Money(initialCapital, commissionPerSide, trades, tradeCount)
      && |equityCurve| == |trades|
      && Booked(initialCapital, commissionPerSide, trades, equityCurve)
      && (currentTrade.Some? ==> currentTrade.value.id == tradeCount)
      && IsPeak([initialCapital] + Equities(equityCurve), peakEquity)
      && IsMaxDrawdown([initialCapital] + Equities(equityCurve), maxDrawdown)
    }

    /** The day of every entry made so far, the open position's last. */
    ghost function EntryDays(): seq<int>
      reads this
    {
      EntryDaysOf(trades) + if currentTrade.Some? then [Day(currentTrade.value.entryTime)] else []
    }

    ghost function Told(): Rules {
      Rules(lotSize, maxTradesPerDay, commissionPerSide, slippagePct, useSizer)
    }

    ghost function View(): Log
      reads this
    {
      Log(trades, currentTrade, currentDate, dailyTrades)
    }

    ghost predicate Paced()
      reads this
    {
      PacedDays(EntryDays(), maxTradesPerDay, currentDate, dailyTrades)
    }

    constructor (capital: real, lot: int, cap: int, commissionPerTrade: real, slippage: real, sizer: bool)
      ensures Valid() && Paced() && trades == [] && currentTrade == None && currentDate == None
      ensures initialCapital == currentCapital == capital && maxTradesPerDay == cap
      ensures lotSize == lot && commissionPerSide == commissionPerTrade / 2.0
      ensures slippagePct == slippage && useSizer == sizer
    {
      initialCapital, currentCapital := capital, capital;
      lotSize, maxTradesPerDay := lot, cap;
      commissionPerSide, slippagePct, useSizer := commissionPerTrade / 2.0, slippage, sizer;
      trades, currentTrade, tradeCount, dailyTrades, currentDate := [], None, 0, 0, None;
      equityCurve, peakEquity, maxDrawdown := [], capital, 0.0;
      new;
      assert [initialCapital] + Equities([]) == [initialCapital];
      Single(initialCapital);
    }

    /** Half the round-trip cost is paid here. A size of zero or less from the sizer is no entry. */
    method EnterTrade(time: int, price: real, size: int)
      requires Valid() && currentTrade.None?
      modifies this`currentTrade, this`tradeCount, this`dailyTrades, this`currentCapital
      ensures Valid()
      ensures if useSizer && size <= 0 then
                && currentTrade == None && tradeCount == old(tradeCount)
                && dailyTrades == old(dailyTrades) && currentCapital == old(currentCapital)
              else
                && currentTrade == Some(Position(old(tradeCount) + 1, time, Slip(price, slippagePct, true),
                                                 if useSizer then size else lotSize))
                && tradeCount == old(tradeCount) + 1 && dailyTrades == old(dailyTrades) + 1
                && currentCapital == old(currentCapital) - commissionPerSide
    {
      hide IsPeak, IsMaxDrawdown, Money, Booked;
      var qty := lotSize;
      if useSizer {
        qty := size;
        if qty <= 0 {
          return;
        }
      }
      MoneyMoves(initialCapital, commissionPerSide, trades, Trade(0, 0, 0, 0.0, 0.0, 0, 0.0), tradeCount);
      tradeCount := tradeCount + 1;
      dailyTrades := dailyTrades + 1;
      currentTrade := Some(Position(tradeCount, time, Slip(price, slippagePct, true), qty));
      currentCapital := currentCapital - commissionPerSide;
    }

    /** Book the open position, extend the curve, and keep the peak and the largest fall. */
    method ExitTrade(time: int, price: real)
      requires Valid() && currentTrade.Some?
      modifies this`currentTrade, this`trades, this`currentCapital, this`equityCurve, this`peakEquity, this`maxDrawdown
      ensures Valid() && currentTrade == None
      ensures trades == old(trades)
                        + [Closed(old(currentTrade).value, time, Slip(price, slippagePct, false), commissionPerSide)]
      ensures EntryDays() == old(EntryDays())
    {
      hide IsPeak, IsMaxDrawdown, Money, Booked, Slip, Max;
      var p := currentTrade.value;
      var actualExit := Slip(price, slippagePct, false);
      var priceDiff := actualExit - p.entryPrice;
      var pnl := priceDiff * p.qty as real;
      pnl := pnl - commissionPerSide;
      var record := Trade(p.id, p.entryTime, time, p.entryPrice, actualExit, p.qty, pnl);
      assert record == Closed(p, time, actualExit, commissionPerSide);
      ghost var before := [initialCapital] + Equities(equityCurve);
      MoneyMoves(initialCapital, commissionPerSide, trades, record, tradeCount);
      BookOne(initialCapital, commissionPerSide, trades, equityCurve, record);
      Extend(before, currentCapital + pnl, peakEquity, maxDrawdown);
      currentCapital := currentCapital + pnl;
      equityCurve := equityCurve + [Point(time, currentCapital)];
      UpdatePeak();
      trades := trades + [record];
      currentTrade := None;
      assert [initialCapital] + Equities(equityCurve) == before + [currentCapital];
      assert EntryDaysOf(trades) == EntryDaysOf(old(trades)) + [Day(p.entryTime)];
    }

    method UpdatePeak()
      modifies this`peakEquity, this`maxDrawdown
      ensures peakEquity == Max(old(peakEquity), currentCapital)
      ensures maxDrawdown == Max(old(maxDrawdown), peakEquity - currentCapital)
    {
      if currentCapital > peakEquity {
        peakEquity := currentCapital;
      }
      var currentDd := peakEquity - currentCapital;
      if currentDd > maxDrawdown {
        maxDrawdown := currentDd;
      }
    }

    /** One candle over the mutable state. The daily cap holds as long as days do not run backwards. */
    method ProcessCandle(c: Candle)
      requires Valid()
      modifies this
      ensures Valid() && View() == OnCandle(Told(), old(View()), c) && currentDate == Some(Day(c.time))
      ensures old(Paced()) && (old(currentDate).Some? ==> old(currentDate).value <= Day(c.time)) ==> Paced()
    {
      hide IsPeak, IsMaxDrawdown, Money, Booked, Slip, PacedDays;
      ghost var days, before, daily := EntryDays(), currentDate, dailyTrades;
      if currentDate != Some(Day(c.time)) {
        currentDate := Some(Day(c.time));
        dailyTrades := 0;
      }
      if currentTrade.Some? && c.exitDue {
        ExitTrade(c.time, c.price);
      } else if currentTrade.None? && dailyTrades < maxTradesPerDay && c.signal {
        EnterTrade(c.time, c.price, c.size);
      }
      assert EntryDays() == days || EntryDays() == days + [Day(c.time)];
      if PacedDays(days, maxTradesPerDay, before, daily) && (before.Some? ==> before.value <= Day(c.time)) {
        PacedNext(days, maxTradesPerDay, before, daily, Day(c.time), |EntryDays()| > |days|);
        assert days + [] == days;
      }
    }

    /** The summary of a run. Money made is the trades' profit less one entry commission each; the
        expectancy leaves that entry commission out. */
    method CalculateResults() returns (r: Results)
      requires Valid()
      ensures SummaryOf(r, trades) && r.maxDrawdown == maxDrawdown && IsShareOfPeak(r, peakEquity)
      ensures r.totalPnl == currentCapital - initialCapital
      ensures currentTrade.None? ==> NetOfEntryCosts(r, commissionPerSide)
    {
      hide IsPeak, IsMaxDrawdown, Booked, SumPnl, Wins, WonPnl, LostPnl, WinRate, Average, Expectancy,
        SummaryOf, NetOfEntryCosts, IsShareOfPeak;
      var winning, totalProfit, lostSum := Tally(trades);
      var losing := |trades| - winning;
      var totalLoss := Abs(lostSum);
      var winRate := WinRate(winning, |trades|);
      var profitFactor := if totalLoss > 0.0 then totalProfit / totalLoss else 999.99;
      var avgWin, avgLoss := Average(totalProfit, winning), Average(totalLoss, losing);
      var expectancy := if trades != [] then Expectancy(winRate, avgWin, avgLoss) else 0.0;
      var maxDdPct := if peakEquity > 0.0 then maxDrawdown / peakEquity * 100.0 else 0.0;
      r := Results(currentCapital - initialCapital, |trades|, winning, losing, winRate, profitFactor, maxDrawdown,
                   maxDdPct, avgWin, avgLoss, expectancy);
      ShareOfPeak(r, peakEquity);
      SummaryHolds(r, trades);
      if currentTrade.None? {
        NetHolds(r, trades, initialCapital, commissionPerSide);
      }
    }

    method Replay(candles: seq<Candle>)
      requires Valid()
      modifies this
      ensures Valid() && View() == After(Told(), old(View()), candles)
      ensures old(Paced()) && InOrder(candles)
              && (old(currentDate).Some? && candles != [] ==> old(currentDate).value <= Day(candles[0].time))
              ==> Paced()
    {
      hide IsPeak, IsMaxDrawdown, Booked, Money, PacedDays, InOrder, OnCandle, After;
      ghost var ordered := && old(Paced()) && InOrder(candles)
                           && (old(currentDate).Some? && candles != [] ==>
                                 old(currentDate).value <= Day(candles[0].time));
      AfterNone(Told(), View(), candles);
      for i := 0 to |candles|
        invariant Valid() && View() == After(Told(), old(View()), candles[..i])
        invariant ordered ==> Paced()
        invariant ordered && i < |candles| && currentDate.Some? ==> currentDate.value <= Day(candles[i].time)
      {
        NextInOrder(candles, i);
        AfterNext(Told(), old(View()), candles, i);
        ProcessCandle(candles[i]);
      }
      assert candles[..|candles|] == candles;
    }

    /** Replay the candles in order, then close whatever is still open at the last one. */
    method RunBacktest(candles: seq<Candle>) returns (r: Results)
      requires Valid()
      modifies this
      ensures Valid() && View() == Finished(Told(), old(View()), candles)
      ensures candles != [] ==> currentTrade == None && tradeCount == |trades| == |equityCurve|
      ensures IsMaxDrawdown([initialCapital] + Equities(equityCurve), r.maxDrawdown)
      ensures SummaryOf(r, trades) && r.totalPnl == currentCapital - initialCapital
      ensures candles != [] ==> NetOfEntryCosts(r, commissionPerSide)
      ensures old(Paced()) && InOrder(candles)
              && (old(currentDate).Some? && candles != [] ==> old(currentDate).value <= Day(candles[0].time))
              ==> Paced()
    {
      hide IsPeak, IsMaxDrawdown, Booked, Money, PacedDays, InOrder, After, Slip, Closed, SummaryOf, NetOfEntryCosts;
      if candles == [] {
        NothingAfter(Told(), View());
        r := CalculateResults();
        return;
      }
      Replay(candles);
      if currentTrade.Some? {
        var last := candles[|candles| - 1];
        ExitTrade(last.time, last.price);
      }
      r := CalculateResults();
    }
  }

  lemma NothingAfter(k: Rules, l: Log)
    ensures After(k, l, []) == l
  {
  }

  lemma AfterNone(k: Rules, l: Log, cs: seq<Candle>)
    ensures After(k, l, cs[..0]) == l
  {
  }

  lemma AfterNext(k: Rules, l: Log, cs: seq<Candle>, i: nat)
    requires i < |cs|
    ensures After(k, l, cs[..i + 1]) == OnCandle(k, After(k, l, cs[..i]), cs[i])
  {
    assert cs[..i + 1][..i] == cs[..i];
  }

  /** One position at a time: every trade ends no earlier than it began, and the next begins no
      earlier than the one before ended. */
  ghost predicate OneAtATime(l: Log) {
    && (forall i :: 0 <= i < |l.trades| ==> l.trades[i].entryTime <= l.trades[i].exitTime)
    && (forall i, j :: 0 <= i < j < |l.trades| ==> l.trades[i].exitTime <= l.trades[j].entryTime)
    && (l.open.Some? ==> forall i :: 0 <= i < |l.trades| ==> l.trades[i].exitTime <= l.open.value.entryTime)
  }

  /** Nothing in the log is later than `t`. */
  ghost predicate NotAfter(l: Log, t: int) {
    && (forall i :: 0 <= i < |l.trades| ==> l.trades[i].exitTime <= t)
    && (l.open.Some? ==> l.open.value.entryTime <= t)
  }

  lemma CloseIsSequential(k: Rules, l: Log, c: Candle)
    requires l.open.Some? && OneAtATime(l) && NotAfter(l, c.time)
    ensures OneAtATime(CloseAt(k, l, c)) && NotAfter(CloseAt(k, l, c), c.time)
  {
    hide Slip;
  }

  /** Over any run on candles in order of time the positions never overlap. */
  lemma {:induction false} PositionsNeverOverlap(k: Rules, cs: seq<Candle>)
    requires InOrder(cs)
    ensures OneAtATime(After(k, Log([], None, None, 0), cs))
    ensures cs != [] ==> NotAfter(After(k, Log([], None, None, 0), cs), cs[|cs| - 1].time)
    ensures OneAtATime(Finished(k, Log([], None, None, 0), cs))
  {
    hide Slip, Closed;
    var l := Log([], None, None, 0);
    if cs != [] {
      var rest, c := cs[..|cs| - 1], cs[|cs| - 1];
      PositionsNeverOverlap(k, rest);
      StepIsSequential(k, After(k, l, rest), c);
      if After(k, l, cs).open.Some? {
        CloseIsSequential(k, After(k, l, cs), c);
      }
    }
  }

  lemma StepIsSequential(k: Rules, l: Log, c: Candle)
    requires OneAtATime(l) && NotAfter(l, c.time)
    ensures OneAtATime(OnCandle(k, l, c)) && NotAfter(OnCandle(k, l, c), c.time)
  {
    hide Slip;
    if l.open.Some? {
      CloseIsSequential(k, l, c);
    }
  }

  /** Candles in order of time. */
  ghost predicate InOrder(candles: seq<Candle>) {
    forall i, j :: 0 <= i <= j < |candles| ==> candles[i].time <= candles[j].time
  }

  lemma NextInOrder(candles: seq<Candle>, i: nat)
    requires i < |candles|
    ensures InOrder(candles) && i + 1 < |candles| ==> Day(candles[i].time) <= Day(candles[i + 1].time)
  {
  }
}

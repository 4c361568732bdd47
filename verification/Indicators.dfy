/** Market indicators: the moving average, the smoothed strength index and the MACD block. */
module Indicators {
  import opened Ticks
  import opened RealFacts
  import opened RelativeStrength

  // ----- moving average -----

  function Sum(xs: seq<real>): real {
    if xs == [] then 0.0 else Sum(xs[..|xs| - 1]) + xs[|xs| - 1]
  }

  function Alpha(period: int): real
    requires period >= 1
  {
    2.0 / (period as real + 1.0)
  }

  /** One smoothing step. */
  function Smooth(r: real, x: real, period: int): real
    requires period >= 1
  {
    (x - r) * Alpha(period) + r
  }

  /** The average of the first `n` prices: the mean of the seed, then one step per price. */
  function EmaAt(prices: seq<real>, period: int, n: nat): real
    requires 1 <= period <= n <= |prices|
  {
    if n == period then Sum(prices[..period]) / period as real
    else Smooth(EmaAt(prices, period, n - 1), prices[n - 1], period)
  }

  function EmaOf(prices: seq<real>, period: int): real
    requires period >= 1
  {
    if |prices| < period then (if prices == [] then 0.0 else prices[|prices| - 1]) else EmaAt(prices, period, |prices|)
  }

  method Ema(prices: seq<real>, period: int) returns (result: real)
    requires period >= 1
    ensures result == EmaOf(prices, period)
  {
    hide Smooth;
    if |prices| < period {
      return if prices == [] then 0.0 else prices[|prices| - 1];
    }
    result := 0.0;
    for i := 0 to period
      invariant result == Sum(prices[..i])
    {
      assert prices[..i + 1][..i] == prices[..i];
      result := result + prices[i];
    }
    result := result / period as real;
    for i := period to |prices|
      invariant result == EmaAt(prices, period, i)
    {
      result := Smooth(result, prices[i], period);
    }
  }

  lemma AlphaBounds(period: int)
    requires period >= 1
    ensures 0.0 < Alpha(period) <= 1.0 && Alpha(period) * (period as real + 1.0) == 2.0
  {
  }

  lemma SmoothStaysInside(r: real, x: real, period: int, lo: real, hi: real)
    requires period >= 1 && lo <= r <= hi && lo <= x <= hi
    ensures lo <= Smooth(r, x, period) <= hi
  {
    hide Alpha;
    AlphaBounds(period);
    var a := Alpha(period);
    ProductNotNegative(x - lo, a);
    ProductNotNegative(r - lo, 1.0 - a);
    ProductNotNegative(hi - x, a);
    ProductNotNegative(hi - r, 1.0 - a);
    Blend(r, x, a, lo);
    Blend(r, x, a, hi);
  }

  /** A smoothing step is a weighted mean, here measured from any level. */
  lemma Blend(r: real, x: real, a: real, level: real)
    ensures (x - r) * a + r - level == (x - level) * a + (r - level) * (1.0 - a)
    ensures level - ((x - r) * a + r) == (level - x) * a + (level - r) * (1.0 - a)
  {
  }

  lemma {:induction false} SumInside(xs: seq<real>, lo: real, hi: real)
    requires forall i :: 0 <= i < |xs| ==> lo <= xs[i] <= hi
    ensures lo * |xs| as real <= Sum(xs) <= hi * |xs| as real
  {
    if xs != [] {
      SumInside(xs[..|xs| - 1], lo, hi);
    }
  }

  lemma MeanInside(sum: real, n: real, lo: real, hi: real)
    requires n > 0.0 && lo * n <= sum <= hi * n
    ensures lo <= sum / n <= hi
  {
  }

  lemma {:induction false} EmaAtInside(prices: seq<real>, period: int, n: nat, lo: real, hi: real)
    requires 1 <= period <= n <= |prices| && forall i :: 0 <= i < |prices| ==> lo <= prices[i] <= hi
    ensures lo <= EmaAt(prices, period, n) <= hi
  {
    hide Smooth, Sum;
    if n == period {
      SumInside(prices[..period], lo, hi);
      MeanInside(Sum(prices[..period]), period as real, lo, hi);
    } else {
      EmaAtInside(prices, period, n - 1, lo, hi);
      SmoothStaysInside(EmaAt(prices, period, n - 1), prices[n - 1], period, lo, hi);
    }
  }

  /** The average never leaves the range of its inputs. */
  lemma EmaStaysInside(prices: seq<real>, period: int, lo: real, hi: real)
    requires period >= 1 && prices != [] && forall i :: 0 <= i < |prices| ==> lo <= prices[i] <= hi
    ensures lo <= EmaOf(prices, period) <= hi
  {
    hide EmaAt;
    if |prices| >= period {
      EmaAtInside(prices, period, |prices|, lo, hi);
    }
  }

  lemma {:induction false} EmaAtPrefix(prices: seq<real>, x: real, period: int, n: nat)
    requires 1 <= period <= n <= |prices|
    ensures EmaAt(prices + [x], period, n) == EmaAt(prices, period, n)
  {
    hide Smooth, Sum;
    if n == period {
      assert (prices + [x])[..period] == prices[..period];
    } else {
      EmaAtPrefix(prices, x, period, n - 1);
    }
  }

  /** Past the seed, one more price is one smoothing step. */
  lemma EmaRecurrence(prices: seq<real>, x: real, period: int)
    requires 1 <= period <= |prices|
    ensures EmaOf(prices + [x], period) == Smooth(EmaOf(prices, period), x, period)
  {
    hide Smooth, Sum;
    EmaAtPrefix(prices, x, period, |prices|);
  }

  // ----- strength index -----

  /** Wilder's smoothing: the old average weighs `period - 1`, the new value one. */
  function Wilder(a: real, x: real, period: int): (r: real)
    requires period >= 1 && a >= 0.0 && x >= 0.0
    ensures r >= 0.0
  {
    MeanInside(a * (period - 1) as real + x, period as real, 0.0, a * (period - 1) as real + x);
    (a * (period - 1) as real + x) / period as real
  }

  /** The average rise (fall) over the first `n` changes: the mean of the seed, then smoothing. */
  function AvgMove(prices: seq<real>, period: int, n: nat, up: bool): (a: real)
    requires 1 <= period <= n < |prices|
    ensures a >= 0.0
  {
    if n == period then TotalMove(prices, period, up) / period as real
    else Wilder(AvgMove(prices, period, n - 1, up), Move(prices, n, up), period)
  }

  function Move(prices: seq<real>, i: nat, up: bool): (m: real)
    requires 1 <= i < |prices|
    ensures m >= 0.0
  {
    var c := prices[i] - prices[i - 1];
    if up then Max(c, 0.0) else Abs(Min(c, 0.0))
  }

  function TotalMove(prices: seq<real>, n: nat, up: bool): (m: real)
    requires n < |prices|
    ensures m >= 0.0
  {
    if n == 0 then 0.0 else TotalMove(prices, n - 1, up) + Move(prices, n, up)
  }

  /** The index is always between 0 and 100, and it is the smoothed gain's share. */
  method Rsi(prices: seq<real>, period: int) returns (r: real)
    requires period >= 1
    ensures 0.0 <= r <= 100.0
    ensures |prices| < period + 1 ==> r == 50.0
    ensures |prices| >= period + 1 ==>
              var g, l := AvgMove(prices, period, |prices| - 1, true), AvgMove(prices, period, |prices| - 1, false);
              r == Index(g, l) && (g + l > 0.0 ==> r * (g + l) == 100.0 * g) && (g + l == 0.0 ==> r == 50.0)
  {
    hide Index, Move, Wilder;
    if |prices| < period + 1 {
      return 50.0;
    }
    var gain, loss := 0.0, 0.0;
    for i := 1 to period + 1
      invariant gain == TotalMove(prices, i - 1, true) && loss == TotalMove(prices, i - 1, false)
    {
      gain, loss := gain + Move(prices, i, true), loss + Move(prices, i, false);
    }
    gain, loss := gain / period as real, loss / period as real;
    for i := period + 1 to |prices|
      invariant gain == AvgMove(prices, period, i - 1, true) && loss == AvgMove(prices, period, i - 1, false)
    {
      gain := Wilder(gain, Move(prices, i, true), period);
      loss := Wilder(loss, Move(prices, i, false), period);
    }
    IndexIsShare(gain, loss);
    NoMoveIsMiddle();
    r := Index(gain, loss);
  }

  lemma NoMoveIsMiddle()
    ensures Index(0.0, 0.0) == 50.0
  {
  }

  // ----- MACD -----

  datatype Macd = Macd(line: real, signal: real, hist: real, histPrev: real)

  /** Fast minus slow average of the first `n` prices. */
  function MacdAt(prices: seq<real>, fast: int, slow: int, n: nat): real
    requires fast >= 1 && slow >= 1 && n <= |prices|
  {
    EmaOf(prices[..n], fast) - EmaOf(prices[..n], slow)
  }

  /** The last `lookback` samples, ending with the current one. */
  function MacdHistory(prices: seq<real>, fast: int, slow: int, lookback: nat): seq<real>
    requires fast >= 1 && slow >= 1 && lookback <= |prices|
  {
    seq(lookback, k requires 0 <= k < lookback => MacdAt(prices, fast, slow, |prices| - lookback + k + 1))
  }

  function Lookback(n: nat, slow: int, p: int): int {
    if n - slow < p * 3 then n - slow else p * 3
  }

  /** The histogram after appending the last sample of `vs` a second time is a fixed fraction of the
      histogram before. */
  lemma AppendedTwice(vs: seq<real>, p: int)
    requires 1 <= p <= |vs|
    ensures var m := vs[|vs| - 1];
            var hist, prev := m - EmaOf(vs + [m], p), m - EmaOf(vs, p);
            hist * (p as real + 1.0) == (p as real - 1.0) * prev && (p == 1 ==> prev == 0.0)
  {
    hide Sum;
    var m := vs[|vs| - 1];
    EmaRecurrence(vs, m, p);
    AlphaBounds(p);
    Fraction(m, EmaOf(vs, p), Alpha(p), p as real);
    if p == 1 {
      EmaOfOne(vs);
    }
  }

  lemma Fraction(m: real, s: real, a: real, p: real)
    requires a * (p + 1.0) == 2.0
    ensures (m - ((m - s) * a + s)) * (p + 1.0) == (p - 1.0) * (m - s)
  {
    assert (m - s) * a * (p + 1.0) == (m - s) * 2.0;
  }

  lemma EmaOfOne(vs: seq<real>)
    requires vs != []
    ensures EmaOf(vs, 1) == vs[|vs| - 1]
  {
    if |vs| == 1 {
      assert vs[..1] == vs && vs[..1][..0] == [];
      assert Sum(vs[..1]) == Sum([]) + vs[0];
    } else {
      assert Alpha(1) == 1.0;
    }
  }

  /** As written, the block appends the latest MACD sample twice, so its histogram is always
      (p-1)/(p+1) of what it calls the previous one: "falling" then just means "positive". */
  method ComputeMacd(prices: seq<real>, fast: int, slow: int, p: int) returns (r: Macd)
    requires fast >= 1 && slow >= 1 && p >= 1
    ensures r.hist == r.line - r.signal
    ensures |prices| < slow || Lookback(|prices|, slow, p) < p ==> r.signal == r.line && r.histPrev == 0.0
    ensures r.line == if |prices| >= slow then EmaOf(prices, fast) - EmaOf(prices, slow) else 0.0
    ensures |prices| >= slow && Lookback(|prices|, slow, p) >= p ==>
              var vs := MacdHistory(prices, fast, slow, Lookback(|prices|, slow, p));
              r.signal == EmaOf(vs + [r.line], p) && r.histPrev == r.line - EmaOf(vs, p)
    ensures r.hist * (p as real + 1.0) == (p as real - 1.0) * r.histPrev
    ensures r.hist < r.histPrev <==> r.hist > 0.0
    ensures r.hist > r.histPrev <==> r.hist < 0.0
  {
    hide EmaOf, MacdHistory;
    if |prices| < slow {
      return Macd(0.0, 0.0, 0.0, 0.0);
    }
    var fastEma := Ema(prices, fast);
    var slowEma := Ema(prices, slow);
    var line := fastEma - slowEma;
    var lookback := Lookback(|prices|, slow, p);
    if lookback < p {
      return Macd(line, line, 0.0, 0.0);
    }
    var values := History(prices, fast, slow, lookback);
    LastIsLine(prices, fast, slow, lookback);
    AppendedTwice(values, p);
    values := values + [line];
    var signalLine := Ema(values, p);
    var prevSignal := Ema(values[..|values| - 1], p);
    assert values[..|values| - 1] == MacdHistory(prices, fast, slow, lookback);
    r := Macd(line, signalLine, line - signalLine, values[|values| - 2] - prevSignal);
    Sign(r.hist, r.histPrev, p as real);
  }

  lemma LastIsLine(prices: seq<real>, fast: int, slow: int, lookback: nat)
    requires fast >= 1 && slow >= 1 && 1 <= lookback <= |prices|
    ensures var vs := MacdHistory(prices, fast, slow, lookback);
            |vs| == lookback && vs[lookback - 1] == EmaOf(prices, fast) - EmaOf(prices, slow)
  {
    assert prices[..|prices|] == prices;
    assert MacdHistory(prices, fast, slow, lookback)[lookback - 1]
        == MacdAt(prices, fast, slow, |prices| - lookback + (lookback - 1) + 1);
    assert |prices| - lookback + (lookback - 1) + 1 == |prices|;
  }

  method History(prices: seq<real>, fast: int, slow: int, lookback: nat) returns (values: seq<real>)
    requires fast >= 1 && slow >= 1 && lookback <= |prices|
    ensures values == MacdHistory(prices, fast, slow, lookback)
  {
    hide EmaOf;
    values := [];
    var i := lookback;
    while i > 0
      invariant 0 <= i <= lookback && |values| == lookback - i
      invariant forall k :: 0 <= k < |values| ==> values[k] == MacdAt(prices, fast, slow, |prices| - lookback + k + 1)
    {
      var idx := |prices| - i;
      var f := Ema(prices[..idx + 1], fast);
      var s := Ema(prices[..idx + 1], slow);
      values := values + [f - s];
      i := i - 1;
    }
  }

  lemma Sign(hist: real, prev: real, p: real)
    requires p >= 1.0 && hist * (p + 1.0) == (p - 1.0) * prev && (p == 1.0 ==> prev == 0.0)
    ensures (hist < prev <==> hist > 0.0) && (hist > prev <==> hist < 0.0)
  {
    assert (prev - hist) * (p - 1.0) == 2.0 * hist;
    if p == 1.0 {
      assert hist == 0.0;
    } else {
      Factor(prev - hist, p - 1.0, 2.0 * hist);
    }
  }

  lemma Factor(x: real, k: real, y: real)
    requires k > 0.0 && x * k == y
    ensures (x > 0.0 <==> y > 0.0) && (x < 0.0 <==> y < 0.0)
  {
  }

  // ----- the building blocks, said outright -----

  /** A sum counts every element once. */
  lemma {:induction false} SumIs(xs: seq<real>, i: nat)
    requires i < |xs|
    ensures Sum(xs) == Sum(xs[..i] + xs[i + 1..]) + xs[i] && Sum([]) == 0.0
  {
    var n := |xs| - 1;
    if i == n {
      assert xs[..i] + xs[i + 1..] == xs[..n];
    } else {
      SumIs(xs[..n], i);
      var rest := xs[..i] + xs[i + 1..];
      assert rest[..|rest| - 1] == xs[..n][..i] + xs[..n][i + 1..];
    }
  }

  /** The average of too few prices is the last of them, of just enough their mean, and each further price
      moves it by two parts in `period + 1` of the gap. */
  lemma EmaMeans(prices: seq<real>, x: real, period: int)
    requires period >= 1
    ensures |prices| + 1 < period ==> EmaOf(prices + [x], period) == x
    ensures |prices| == period ==> EmaOf(prices, period) * period as real == Sum(prices)
    ensures period <= |prices| ==>
              (EmaOf(prices + [x], period) - EmaOf(prices, period)) * (period as real + 1.0)
              == 2.0 * (x - EmaOf(prices, period))
    ensures EmaOf([], period) == 0.0
  {
    hide Sum, EmaOf, Smooth;
    ShortAverage(prices, x, period);
    if |prices| == period {
      SeedIsMean(prices, period);
    }
    if period <= |prices| {
      EmaRecurrence(prices, x, period);
      StepOf(EmaOf(prices, period), x, period);
    }
  }

  lemma ShortAverage(prices: seq<real>, x: real, period: int)
    requires period >= 1
    ensures |prices| + 1 < period ==> EmaOf(prices + [x], period) == x
    ensures EmaOf([], period) == 0.0
  {
  }

  lemma SeedIsMean(prices: seq<real>, period: int)
    requires period >= 1 && |prices| == period
    ensures EmaOf(prices, period) * period as real == Sum(prices)
  {
    hide Sum;
    assert prices[..period] == prices;
    Ratio(Sum(prices), period as real);
  }

  lemma StepOf(r: real, x: real, period: int)
    requires period >= 1
    ensures (Smooth(r, x, period) - r) * (period as real + 1.0) == 2.0 * (x - r)
  {
    hide Alpha;
    AlphaBounds(period);
    var a, n := Alpha(period), period as real + 1.0;
    assert (x - r) * a * n == (x - r) * (a * n);
  }

  /** The rise less the fall is the change, and together they are its size. */
  lemma MovesAre(prices: seq<real>, i: nat)
    requires 1 <= i < |prices|
    ensures var c := prices[i] - prices[i - 1];
            && Move(prices, i, true) - Move(prices, i, false) == c
            && Move(prices, i, true) + Move(prices, i, false) == if c < 0.0 then -c else c
  {
  }

  lemma {:induction false} TotalMovesAre(prices: seq<real>, n: nat)
    requires n < |prices|
    ensures TotalMove(prices, n, true) - TotalMove(prices, n, false) == prices[n] - prices[0]
  {
    if n > 0 {
      TotalMovesAre(prices, n - 1);
    }
  }

  /** Every change counts once in the total, and the averages start at its mean and then move by one part in
      `period` of the gap. */
  lemma AveragesAre(prices: seq<real>, period: int, n: nat, up: bool)
    requires 1 <= period < n < |prices|
    ensures TotalMove(prices, 0, up) == 0.0
    ensures TotalMove(prices, n, up) == TotalMove(prices, n - 1, up) + Move(prices, n, up)
    ensures AvgMove(prices, period, period, up) * period as real == TotalMove(prices, period, up)
    ensures (AvgMove(prices, period, n, up) - AvgMove(prices, period, n - 1, up)) * period as real
            == Move(prices, n, up) - AvgMove(prices, period, n - 1, up)
  {
    hide Move, Wilder;
    Ratio(TotalMove(prices, period, up), period as real);
    WilderStep(AvgMove(prices, period, n - 1, up), Move(prices, n, up), period);
  }

  lemma WilderStep(a: real, x: real, period: int)
    requires period >= 1 && a >= 0.0 && x >= 0.0
    ensures (Wilder(a, x, period) - a) * period as real == x - a
  {
    var n := period as real;
    assert a * (period - 1) as real == a * n - a;
    Ratio(a * n - a + x, n);
  }

  /** The samples behind the signal line: at most three signal periods of them, as many as there are prices
      past the slow period, each from the prices up to its own. */
  lemma HistoryIs(prices: seq<real>, fast: int, slow: int, p: int, k: nat)
    requires fast >= 1 && slow >= 1 && p >= 1 && |prices| >= slow
    ensures var n := Lookback(|prices|, slow, p);
            && n <= 3 * p && n <= |prices| - slow && (n == 3 * p || n == |prices| - slow)
            && |MacdHistory(prices, fast, slow, n)| == n
            && (k < n ==> var upTo := prices[..|prices| - n + k + 1];
                          MacdHistory(prices, fast, slow, n)[k] == EmaOf(upTo, fast) - EmaOf(upTo, slow))
  {
    hide EmaOf;
    var n := Lookback(|prices|, slow, p);
    if k < n {
      assert MacdHistory(prices, fast, slow, n)[k] == MacdAt(prices, fast, slow, |prices| - n + k + 1);
    }
  }
}

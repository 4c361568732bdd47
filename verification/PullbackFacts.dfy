/** What the two ratings of the pullback setup say, in prices and thresholds, and when a direction passes the
    stages after it. */
module PullbackFacts {
  import opened Ticks
  import opened OpenInterest
  import opened Pullback
  import opened SignalDecision

  /** The readings of one direction that the setup looks at. */
  datatype Signs = Signs(trend: bool, touch: bool, candle: bool, beyond: bool, momentum: bool, strong: bool,
                         vwap: bool, volume: bool, flow: bool)

  function One(holds: bool, f: Factor): seq<Factor> {
    if holds then [f] else []
  }

  /** What a direction with these signs is given: the listed factors in their order, two points each for
      trend and touch and one for every other, one more for strong momentum, a signal from the threshold on,
      and the first thing that is missing. */
  ghost predicate IsRatedBy(s: Side, g: Signs, cfg: Config) {
    && s.trend == g.trend && s.trigger == (g.trend && g.touch)
    && s.factors == (if !g.trend then []
                     else [Trend] + One(g.touch, Touch) + One(g.candle, Candle)
                          + One(g.candle && g.beyond, BeyondAverage) + One(g.momentum, Momentum)
                          + One(g.vwap, Vwap) + One(g.candle && g.volume, Volume) + One(g.flow, Flow))
    && s.score == (if !g.trend then 0
                   else 2 + (if g.touch then 2 else 0) + (if g.candle then 1 else 0)
                        + (if g.candle && g.beyond then 1 else 0) + (if g.candle && g.volume then 1 else 0)
                        + (if g.momentum then 1 else 0) + (if g.momentum && g.strong then 1 else 0)
                        + (if g.vwap then 1 else 0) + (if g.flow then 1 else 0))
    && s.signal == (g.trend && s.score >= cfg.minScore)
    && s.confirmations == (if !g.trend then map[]
                           else map[Candle := g.candle, Momentum := g.momentum, Vwap := g.vwap,
                                    Volume := g.candle && g.volume, Flow := g.flow])
    && s.reason == (if !g.trend then Some(TrendFailed)
                    else if !g.touch then Some(TriggerFailed)
                    else if s.score < cfg.minScore then Some(ScoreFailed)
                    else None)
  }

  /** The signs of a rise. The low touches the short average when it is less than half a percent away, or when
      the average lies between low and close. */
  function Rising(m: Market, cfg: Config): Signs {
    Signs(m.ema9 > m.ema21,
          || (m.ema9 > 0.0 && -m.ema9 < 200.0 * (m.low - m.ema9) < m.ema9)
          || (m.low <= m.ema9 && m.ema9 <= m.close),
          m.close > m.prevClose, m.close > m.ema9, m.rsi > 45.0, m.rsi > 55.0,
          cfg.vwapEnabled && m.aboveVwap, m.volumeSpike,
          cfg.oiEnabled && (m.oi == LongBuildup || m.oi == ShortCovering))
  }

  function Falling(m: Market, cfg: Config): Signs {
    Signs(m.ema9 < m.ema21,
          || (m.ema9 > 0.0 && -m.ema9 < 200.0 * (m.high - m.ema9) < m.ema9)
          || (m.close <= m.ema9 && m.ema9 <= m.high),
          m.close < m.prevClose, m.close < m.ema9, m.rsi < 45.0, m.rsi < 35.0,
          cfg.vwapEnabled && m.belowVwap, m.volumeSpike,
          cfg.oiEnabled && (m.oi == ShortBuildup || m.oi == LongUnwinding))
  }

  lemma Nearness(price: real, average: real)
    ensures Proximity(price, average) < 0.5 <==>
              average > 0.0 && -average < 200.0 * (price - average) < average
  {
    if average > 0.0 {
      HalfPercent(Abs(price - average), average);
    }
  }

  lemma HalfPercent(d: real, average: real)
    requires average > 0.0
    ensures d / average * 100.0 < 0.5 <==> 200.0 * d < average
  {
    var q := d / average;
    assert q * average == d;
    if q * 100.0 < 0.5 {
      assert (1.0 - 200.0 * q) * average > 0.0;
    } else {
      assert (200.0 * q - 1.0) * average >= 0.0;
    }
  }

  lemma PulledMeans(m: Market, cfg: Config)
    ensures Pulled(m) == Rising(m, cfg).touch
  {
    hide Proximity;
    Nearness(m.low, m.ema9);
  }

  lemma AddIfIs(fs: seq<Factor>, holds: bool, f: Factor)
    ensures AddIf(fs, holds, f) == fs + One(holds, f)
  {
  }

  lemma FactorsAre(m: Market, cfg: Config)
    ensures var g := Rising(m, cfg);
            Factors(m, cfg) ==
              [Trend] + One(g.touch, Touch) + One(g.candle, Candle) + One(g.candle && g.beyond, BeyondAverage)
              + One(g.momentum, Momentum) + One(g.vwap, Vwap) + One(g.candle && g.volume, Volume)
              + One(g.flow, Flow)
  {
    hide AddIf, One, Pulled;
    PulledMeans(m, cfg);
    var g := Rising(m, cfg);
    var f1 := [Trend] + One(g.touch, Touch);
    var f2 := f1 + One(g.candle, Candle);
    var f3 := f2 + One(g.candle && g.beyond, BeyondAverage);
    var f4 := f3 + One(g.momentum, Momentum);
    var f5 := f4 + One(g.vwap, Vwap);
    var f6 := f5 + One(g.candle && g.volume, Volume);
    AddIfIs([Trend], g.touch, Touch);
    AddIfIs(f1, g.candle, Candle);
    AddIfIs(f2, g.candle && g.beyond, BeyondAverage);
    AddIfIs(f3, g.momentum, Momentum);
    AddIfIs(f4, g.vwap, Vwap);
    AddIfIs(f5, g.candle && g.volume, Volume);
    AddIfIs(f6, g.flow, Flow);
  }

  /** The rating of a rise, in prices and thresholds. */
  lemma RiseMeans(m: Market, cfg: Config)
    ensures IsRatedBy(Rise(m, cfg), Rising(m, cfg), cfg)
  {
    hide Factors, One, Pulled;
    FactorsAre(m, cfg);
    FactorTotal(m, cfg);
    PulledMeans(m, cfg);
  }

  lemma MirrorSigns(m: Market, cfg: Config)
    ensures Rising(Mirror(m), cfg) == Falling(m, cfg)
  {
  }

  /** Both ratings of a market, each by its own prices and thresholds. */
  lemma RatedMeans(m: Market, cfg: Config)
    ensures IsRatedBy(Rated(m, cfg).ce, Rising(m, cfg), cfg) && IsRatedBy(Rated(m, cfg).pe, Falling(m, cfg), cfg)
  {
    hide IsRatedBy, Rise, Rising, Falling, Mirror;
    RiseMeans(m, cfg);
    RiseMeans(Mirror(m), cfg);
    MirrorSigns(m, cfg);
  }

  // ----- the stages after the setup -----

  /** The move has run out: the exhaustion engine says so, or the strength is past its limit while the MACD
      histogram turns against the direction. */
  predicate RanOut(x: Readings, d: Direction) {
    if d == Ce then x.ce.blocked || (x.exhaustionEnabled && x.rsi > x.ceRsi && x.hist < x.histPrev)
    else x.pe.blocked || (x.exhaustionEnabled && x.rsi < x.peRsi && x.histPrev < x.hist)
  }

  /** Which stage a direction fails first, or that it fails none. */
  lemma FirstFailureMeans(r: Rating, x: Readings, d: Direction)
    ensures var signal := if d == Ce then r.ce.signal else r.pe.signal;
            var v := if d == Ce then x.ce else x.pe;
            var f := FirstFailure(r, x, d);
            && (f.None? <==> signal && v.weighted >= x.minWeighted && !RanOut(x, d)
                             && v.confidence >= x.requiredConfidence)
            && (f == Some(TriggerConfirmation) <==> !signal)
            && (f == Some(WeightedScore) <==> signal && v.weighted < x.minWeighted)
            && (f == Some(Exhaustion) <==> signal && v.weighted >= x.minWeighted && RanOut(x, d))
            && (f == Some(Confidence) <==> signal && v.weighted >= x.minWeighted && !RanOut(x, d)
                                           && v.confidence < x.requiredConfidence)
            && (Contends(r, x, d) <==> signal && v.weighted >= x.minWeighted)
  {
  }

  /** The record of each direction is one of five, by how far it got: it holds an answer for each stage that was
      reached, and names the stage that said no. */
  lemma RecordIs(e: Entry, r: Rating, x: Readings, d: Direction)
    ensures var signal := if d == Ce then r.ce.signal else r.pe.signal;
            var v := if d == Ce then x.ce else x.pe;
            Attributed(e, r, x, d) <==>
              e == if !signal then
                     Entry(false, None, None, None, Some(false), At(TriggerConfirmation))
                   else if v.weighted < x.minWeighted then
                     Entry(true, Some(false), None, None, Some(false), At(WeightedScore))
                   else if RanOut(x, d) then
                     Entry(true, Some(true), Some(false), None, Some(false), At(Exhaustion))
                   else if v.confidence < x.requiredConfidence then
                     Entry(true, Some(true), Some(true), Some(false), Some(false), At(Confidence))
                   else
                     Entry(true, Some(true), Some(true), Some(true), Some(true), Nowhere)
  {
    hide RanOut, Exhausted;
    SameExhaustion(x, d);
  }

  lemma SameExhaustion(x: Readings, d: Direction)
    ensures Exhausted(x, d) <==> RanOut(x, d)
  {
  }
}

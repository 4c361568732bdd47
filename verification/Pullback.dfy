/** The pullback setup: one rating for a rise, and its mirror image for a fall. */
module Pullback {
  import opened Ticks
  import opened OpenInterest

  datatype Market = Market(close: real, prevClose: real, high: real, low: real, ema9: real, ema21: real, rsi: real,
                           aboveVwap: bool, belowVwap: bool, volumeSpike: bool, oi: Label)

  datatype Config = Config(minScore: int, vwapEnabled: bool, oiEnabled: bool)

  datatype Direction = Ce | Pe

  datatype Factor = Trend | Touch | Candle | BeyondAverage | Momentum | Vwap | Volume | Flow

  datatype Reason = TrendFailed | TriggerFailed | ScoreFailed

  /** What the setup says of one direction. */
  datatype Side = Side(signal: bool, score: int, factors: seq<Factor>, trend: bool, trigger: bool,
                       confirmations: map<Factor, bool>, reason: Option<Reason>)

  datatype Rating = Rating(ce: Side, pe: Side) {
    function At(d: Direction): Side {
      if d == Ce then ce else pe
    }
  }

  // ----- what the rating means -----

  function Worth(f: Factor): int {
    if f == Trend || f == Touch then 2 else 1
  }

  function Total(fs: seq<Factor>): int {
    if fs == [] then 0 else Total(fs[..|fs| - 1]) + Worth(fs[|fs| - 1])
  }

  function AddIf(fs: seq<Factor>, holds: bool, f: Factor): seq<Factor> {
    if holds then fs + [f] else fs
  }

  function Points(holds: bool, n: int): int {
    if holds then n else 0
  }

  lemma AddIfTotal(fs: seq<Factor>, holds: bool, f: Factor)
    ensures Total(AddIf(fs, holds, f)) == Total(fs) + Points(holds, Worth(f))
  {
    assert (fs + [f])[..|fs|] == fs;
  }

  /** The distance of a price from the average in percent of the average; far away if there is none. */
  function Proximity(price: real, average: real): real {
    if average > 0.0 then Abs(price - average) / average * 100.0 else 999.0
  }

  /** The low came back to the average: within half a percent of it, or across it. */
  predicate Pulled(m: Market) {
    Proximity(m.low, m.ema9) < 0.5 || m.low <= m.ema9 <= m.close
  }

  predicate Green(m: Market) {
    m.close > m.prevClose
  }

  predicate FlowAgrees(m: Market, cfg: Config) {
    cfg.oiEnabled && (m.oi == LongBuildup || m.oi == ShortCovering)
  }

  function Checks(m: Market, cfg: Config): map<Factor, bool> {
    map[Candle := Green(m), Momentum := m.rsi > 45.0, Vwap := cfg.vwapEnabled && m.aboveVwap,
        Volume := m.volumeSpike && Green(m), Flow := FlowAgrees(m, cfg)]
  }

  /** Trend, trigger and candle. */
  function PriceFactors(m: Market): seq<Factor> {
    AddIf(AddIf(AddIf([Trend], Pulled(m), Touch), Green(m), Candle), Green(m) && m.close > m.ema9, BeyondAverage)
  }

  /** The factors that speak for a rise, in the order they are listed. */
  function Factors(m: Market, cfg: Config): seq<Factor> {
    var a := AddIf(AddIf(PriceFactors(m), m.rsi > 45.0, Momentum), cfg.vwapEnabled && m.aboveVwap, Vwap);
    AddIf(AddIf(a, m.volumeSpike && Green(m), Volume), FlowAgrees(m, cfg), Flow)
  }

  function ReasonOf(trend: bool, trigger: bool, signal: bool): Option<Reason> {
    if !trend then Some(TrendFailed)
    else if !trigger then Some(TriggerFailed)
    else if !signal then Some(ScoreFailed)
    else None
  }

  /** The rating of a rise: the worth of the listed factors, and one unlisted point for strong
      momentum. Without the trend nothing is scored. */
  function Rise(m: Market, cfg: Config): Side {
    if m.ema9 <= m.ema21 then Side(false, 0, [], false, false, map[], ReasonOf(false, false, false))
    else
      var score := Total(Factors(m, cfg)) + if m.rsi > 55.0 then 1 else 0;
      Side(score >= cfg.minScore, score, Factors(m, cfg), true, Pulled(m), Checks(m, cfg),
           ReasonOf(true, Pulled(m), score >= cfg.minScore))
  }

  function Opposite(l: Label): Label {
    match l
    case LongBuildup => ShortBuildup
    case ShortBuildup => LongBuildup
    case ShortCovering => LongUnwinding
    case LongUnwinding => ShortCovering
    case Neutral => Neutral
  }

  /** The market seen upside down: prices reflected in the short average, strength in 45. */
  function Mirror(m: Market): Market {
    Market(2.0 * m.ema9 - m.close, 2.0 * m.ema9 - m.prevClose, 2.0 * m.ema9 - m.low, 2.0 * m.ema9 - m.high,
           m.ema9, 2.0 * m.ema9 - m.ema21, 90.0 - m.rsi, m.belowVwap, m.aboveVwap, m.volumeSpike, Opposite(m.oi))
  }

  function Rated(m: Market, cfg: Config): Rating {
    Rating(Rise(m, cfg), Rise(Mirror(m), cfg))
  }

  // ----- the two scoring blocks -----

  /** The listed factors, each at its worth. */
  lemma FactorTotal(m: Market, cfg: Config)
    ensures Total(Factors(m, cfg)) ==
            2 + Points(Pulled(m), 2) + Points(Green(m), 1) + Points(Green(m) && m.close > m.ema9, 1)
            + Points(m.rsi > 45.0, 1) + Points(cfg.vwapEnabled && m.aboveVwap, 1)
            + Points(m.volumeSpike && Green(m), 1) + Points(FlowAgrees(m, cfg), 1)
  {
    hide AddIf, Total, Pulled, Green, FlowAgrees, Points;
    TrendAlone();
    var f1 := AddIf([Trend], Pulled(m), Touch);
    var f2 := AddIf(f1, Green(m), Candle);
    var f3 := AddIf(f2, Green(m) && m.close > m.ema9, BeyondAverage);
    var f4 := AddIf(f3, m.rsi > 45.0, Momentum);
    var f5 := AddIf(f4, cfg.vwapEnabled && m.aboveVwap, Vwap);
    var f6 := AddIf(f5, m.volumeSpike && Green(m), Volume);
    AddIfTotal([Trend], Pulled(m), Touch);
    AddIfTotal(f1, Green(m), Candle);
    AddIfTotal(f2, Green(m) && m.close > m.ema9, BeyondAverage);
    AddIfTotal(f3, m.rsi > 45.0, Momentum);
    AddIfTotal(f4, cfg.vwapEnabled && m.aboveVwap, Vwap);
    AddIfTotal(f5, m.volumeSpike && Green(m), Volume);
    AddIfTotal(f6, FlowAgrees(m, cfg), Flow);
  }

  /** A condition that holds is listed and earns its points. */
  method Credit(factors: seq<Factor>, score: int, holds: bool, f: Factor, points: int)
    returns (listed: seq<Factor>, earned: int)
    ensures listed == AddIf(factors, holds, f)
    ensures earned == score + Points(holds, points)
    ensures points == Worth(f) ==> earned - Total(listed) == score - Total(factors)
  {
    AddIfTotal(factors, holds, f);
    listed, earned := factors, score;
    if holds {
      listed, earned := listed + [f], earned + points;
    }
  }

  /** The points for trend, trigger and candle, once the trend holds. */
  method PriceCe(m: Market) returns (factors: seq<Factor>, score: int, trigger: bool, candle: bool)
    ensures factors == PriceFactors(m) && score == Total(factors)
    ensures trigger == Pulled(m) && candle == Green(m)
  {
    hide AddIf, Total, Proximity, Points;
    factors, score := [Trend], 2;
    TrendAlone();
    var proximity := Proximity(m.low, m.ema9);
    trigger := proximity < 0.5 || m.low <= m.ema9 <= m.close;
    factors, score := Credit(factors, score, trigger, Touch, 2);
    candle := m.close > m.prevClose;
    factors, score := Credit(factors, score, candle, Candle, 1);
    factors, score := Credit(factors, score, candle && m.close > m.ema9, BeyondAverage, 1);
  }

  method ScoreCe(m: Market, cfg: Config) returns (s: Side)
    ensures s == Rise(m, cfg)
  {
    hide AddIf, Total, Proximity, Points, Pulled, PriceFactors, ReasonOf;
    var signal, score, factors: seq<Factor> := false, 0, [];
    var trend, trigger := m.ema9 > m.ema21, false;
    var confirmations: map<Factor, bool> := map[];
    if trend {
      var candle;
      factors, score, trigger, candle := PriceCe(m);
      confirmations := confirmations[Candle := candle];
      var momentum := m.rsi > 45.0;
      confirmations := confirmations[Momentum := momentum];
      factors, score := Credit(factors, score, momentum, Momentum, 1);
      if momentum && m.rsi > 55.0 {
        score := score + 1;
      }
      var vwap := cfg.vwapEnabled && m.aboveVwap;
      confirmations := confirmations[Vwap := vwap];
      factors, score := Credit(factors, score, vwap, Vwap, 1);
      var volume := m.volumeSpike && m.close > m.prevClose;
      confirmations := confirmations[Volume := volume];
      factors, score := Credit(factors, score, volume, Volume, 1);
      var flow := cfg.oiEnabled && (m.oi == LongBuildup || m.oi == ShortCovering);
      confirmations := confirmations[Flow := flow];
      factors, score := Credit(factors, score, flow, Flow, 1);
      assert confirmations == Checks(m, cfg);
      assert factors == Factors(m, cfg);
      if score >= cfg.minScore {
        signal := true;
      }
    }
    s := Side(signal, score, factors, trend, trigger, confirmations, ReasonOf(trend, trigger, signal));
  }

  /** What each condition of the rating says when it is read in the mirror. */
  lemma MirrorReads(m: Market, cfg: Config)
    ensures Pulled(Mirror(m)) <==>
              Proximity(m.high, m.ema9) < 0.5 || m.close <= m.ema9 <= m.high
    ensures Green(Mirror(m)) <==> m.close < m.prevClose
    ensures Mirror(m).close > Mirror(m).ema9 <==> m.close < m.ema9
    ensures Mirror(m).ema9 <= Mirror(m).ema21 <==> !(m.ema9 < m.ema21)
    ensures Mirror(m).rsi > 45.0 <==> m.rsi < 45.0
    ensures Mirror(m).rsi > 55.0 <==> m.rsi < 35.0
    ensures Mirror(m).aboveVwap == m.belowVwap && Mirror(m).volumeSpike == m.volumeSpike
    ensures FlowAgrees(Mirror(m), cfg) <==> cfg.oiEnabled && (m.oi == ShortBuildup || m.oi == LongUnwinding)
  {
    assert Abs(Mirror(m).low - m.ema9) == Abs(m.high - m.ema9);
  }

  /** The points for trend, trigger and candle, once the trend holds. */
  method PricePe(m: Market) returns (factors: seq<Factor>, score: int, trigger: bool, candle: bool)
    ensures factors == PriceFactors(Mirror(m)) && score == Total(factors)
    ensures trigger == Pulled(Mirror(m)) && candle == Green(Mirror(m))
  {
    hide AddIf, Total, Proximity, Points, Pulled, Mirror, Green;
    MirrorReads(m, Config(0, false, false));
    factors, score := [Trend], 2;
    TrendAlone();
    var proximity := Proximity(m.high, m.ema9);
    trigger := proximity < 0.5 || m.close <= m.ema9 <= m.high;
    factors, score := Credit(factors, score, trigger, Touch, 2);
    candle := m.close < m.prevClose;
    factors, score := Credit(factors, score, candle, Candle, 1);
    factors, score := Credit(factors, score, candle && m.close < m.ema9, BeyondAverage, 1);
  }

  /** The second block is the first one seen in the mirror, for every market. */
  method ScorePe(m: Market, cfg: Config) returns (s: Side)
    ensures s == Rise(Mirror(m), cfg)
  {
    hide AddIf, Total, Proximity, Points, Pulled, PriceFactors, ReasonOf, Mirror, Green, FlowAgrees;
    var signal, score, factors: seq<Factor> := false, 0, [];
    var trend, trigger := m.ema9 < m.ema21, false;
    var confirmations: map<Factor, bool> := map[];
    MirrorReads(m, cfg);
    if trend {
      var candle;
      factors, score, trigger, candle := PricePe(m);
      confirmations := confirmations[Candle := candle];
      var momentum := m.rsi < 45.0;
      confirmations := confirmations[Momentum := momentum];
      factors, score := Credit(factors, score, momentum, Momentum, 1);
      if momentum && m.rsi < 35.0 {
        score := score + 1;
      }
      var vwap := cfg.vwapEnabled && m.belowVwap;
      confirmations := confirmations[Vwap := vwap];
      factors, score := Credit(factors, score, vwap, Vwap, 1);
      var volume := m.volumeSpike && m.close < m.prevClose;
      confirmations := confirmations[Volume := volume];
      factors, score := Credit(factors, score, volume, Volume, 1);
      var flow := cfg.oiEnabled && (m.oi == ShortBuildup || m.oi == LongUnwinding);
      confirmations := confirmations[Flow := flow];
      factors, score := Credit(factors, score, flow, Flow, 1);
      assert confirmations == Checks(Mirror(m), cfg);
      assert factors == Factors(Mirror(m), cfg);
      if score >= cfg.minScore {
        signal := true;
      }
    }
    s := Side(signal, score, factors, trend, trigger, confirmations, ReasonOf(trend, trigger, signal));
  }

  method Evaluate(m: Market, cfg: Config) returns (r: Rating)
    ensures r == Rated(m, cfg)
  {
    var ce := ScoreCe(m, cfg);
    var pe := ScorePe(m, cfg);
    r := Rating(ce, pe);
  }

  // ----- consequences -----

  lemma MirrorTwice(m: Market)
    ensures Mirror(Mirror(m)) == m
  {
  }

  /** Turning the market over swaps the two directions and changes nothing else. */
  lemma DirectionsSwap(m: Market, cfg: Config)
    ensures Rated(Mirror(m), cfg) == Rating(Rated(m, cfg).pe, Rated(m, cfg).ce)
  {
    hide Rise, Mirror;
    MirrorTwice(m);
  }

  /** The two directions exclude one another, already at the trend; each signal needs its trend. */
  lemma DirectionsExclude(m: Market, cfg: Config)
    ensures !(Rated(m, cfg).ce.trend && Rated(m, cfg).pe.trend)
    ensures forall d: Direction :: Rated(m, cfg).At(d).signal ==> Rated(m, cfg).At(d).trend
  {
  }

  /** A score is at most 11, at most 9 without the trigger, and zero exactly when the trend fails. */
  lemma ScoreBounds(m: Market, cfg: Config)
    ensures var s := Rise(m, cfg);
            && 0 <= s.score <= 11
            && (s.score == 0 <==> !s.trend)
            && (s.trend && !s.trigger ==> s.score <= 9)
  {
    hide Factors, Pulled, Checks, FlowAgrees;
    FactorTotal(m, cfg);
  }

  lemma TrendAlone()
    ensures Total([Trend]) == 2
  {
    assert [Trend][..0] == [];
  }

  /** Every favourable reading; the low touches the average or stays clear above it. */
  function Best(touch: bool): Market {
    Market(103.0, 101.0, 104.0, if touch then 100.0 else 102.0, 100.0, 99.0, 60.0, true, false, true, LongBuildup)
  }

  /** A signal can be had exactly for thresholds up to 11, and one whose recorded reason is a missing
      trigger exactly up to 9. */
  lemma ReachableScores(minScore: int)
    ensures var cfg := Config(minScore, true, true);
            && ((exists m :: Rise(m, cfg).signal) <==> minScore <= 11)
            && ((exists m :: Rise(m, cfg).signal && Rise(m, cfg).reason == Some(TriggerFailed)) <==> minScore <= 9)
  {
    hide Rise;
    var cfg := Config(minScore, true, true);
    BestScores(minScore);
    forall m
      ensures Rise(m, cfg).signal ==> minScore <= 11
      ensures Rise(m, cfg).signal && Rise(m, cfg).reason == Some(TriggerFailed) ==> minScore <= 9
    {
      ScoreBounds(m, cfg);
      SignalMeans(m, cfg);
    }
    if minScore <= 9 {
      assert Rise(Best(false), cfg).signal && Rise(Best(false), cfg).reason == Some(TriggerFailed);
    }
  }

  lemma BestScores(minScore: int)
    ensures var s := Rise(Best(true), Config(minScore, true, true)); s.score == 11 && s.signal == (minScore <= 11)
    ensures var s := Rise(Best(false), Config(minScore, true, true));
            s.score == 9 && s.signal == (minScore <= 9) && s.reason == Some(TriggerFailed)
  {
    FactorTotal(Best(true), Config(minScore, true, true));
    FactorTotal(Best(false), Config(minScore, true, true));
  }

  /** What a signal and its recorded reason say of one another. */
  lemma SignalMeans(m: Market, cfg: Config)
    ensures var s := Rise(m, cfg);
            && (s.signal <==> s.trend && s.score >= cfg.minScore)
            && (s.reason.None? <==> s.signal && s.trigger)
            && (s.reason == Some(TriggerFailed) <==> s.trend && !s.trigger)
  {
  }
}

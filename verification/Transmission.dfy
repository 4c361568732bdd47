/** Spot-to-option transmission: pair each tick with the first one a horizon later, and fit a line
    through the origin. */
module Transmission {
  import opened Ticks
  import opened RealFacts

  /** The least index `k >= from` whose tick is at least `horizon` after instant `t`; the length of
      the series if there is none. */
  function FirstAfter(opt: Series, from: nat, t: int, horizon: int): (k: nat)
    requires from <= |opt|
    ensures from <= k <= |opt|
    ensures forall j :: from <= j < k ==> opt[j].t - t < horizon
    ensures k < |opt| ==> opt[k].t - t >= horizon
    decreases |opt| - from
  {
    if from == |opt| || opt[from].t - t >= horizon then from else FirstAfter(opt, from + 1, t, horizon)
  }

  /** A change of spot and the change of the option over the same two ticks. */
  datatype Pair = Pair(x: real, y: real)

  /** The pair that tick `i` contributes, found by searching the whole series. */
  function PairOf(opt: Series, spot: map<int, real>, horizon: int, i: nat): Option<Pair>
    requires i < |opt|
  {
    var j := FirstAfter(opt, 0, opt[i].t, horizon);
    if j == |opt| || opt[i].t !in spot || opt[j].t !in spot || spot[opt[j].t] == spot[opt[i].t] then None
    else Some(Pair(spot[opt[j].t] - spot[opt[i].t], opt[j].p - opt[i].p))
  }

  /** The pairs of the first `n` ticks, by the quadratic search. */
  function Pairs(opt: Series, spot: map<int, real>, horizon: int, n: nat): (ps: seq<Pair>)
    requires n <= |opt|
    ensures forall k :: 0 <= k < |ps| ==> ps[k].x != 0.0
  {
    if n == 0 then []
    else
      var p := PairOf(opt, spot, horizon, n - 1);
      Pairs(opt, spot, horizon, n - 1) + if p.Some? then [p.value] else []
  }

  /** On sorted ticks, once one tick has no partner no later tick has one. */
  lemma {:induction false} NoMorePartners(opt: Series, spot: map<int, real>, horizon: int, i: nat, n: nat)
    requires Sorted(opt) && i <= n <= |opt| && i < |opt| && FirstAfter(opt, 0, opt[i].t, horizon) == |opt|
    ensures Pairs(opt, spot, horizon, n) == Pairs(opt, spot, horizon, i)
    decreases n
  {
    hide PairOf, Sorted;
    if i < n {
      NoMorePartners(opt, spot, horizon, i, n - 1);
      Partnerless(opt, spot, horizon, i, n - 1);
    }
  }

  lemma Partnerless(opt: Series, spot: map<int, real>, horizon: int, i: nat, k: nat)
    requires Sorted(opt) && i <= k < |opt| && FirstAfter(opt, 0, opt[i].t, horizon) == |opt|
    ensures PairOf(opt, spot, horizon, k).None?
  {
    assert forall j :: 0 <= j < |opt| ==> opt[j].t - opt[i].t < horizon;
    assert opt[i].t <= opt[k].t;
  }

  /** Everything before the right pointer is too close to be the partner of tick `i`. */
  ghost predicate TooClose(opt: Series, j: nat, i: nat, horizon: int) {
    i < |opt| && j <= |opt| && forall k :: 0 <= k < j ==> opt[k].t - opt[i].t < horizon
  }

  lemma PointerIsPartner(opt: Series, j: nat, i: nat, horizon: int)
    requires TooClose(opt, j, i, horizon) && (j < |opt| ==> opt[j].t - opt[i].t >= horizon)
    ensures FirstAfter(opt, 0, opt[i].t, horizon) == j
  {
  }

  lemma NoPairs(opt: Series, spot: map<int, real>, horizon: int)
    ensures Pairs(opt, spot, horizon, 0) == []
  {
  }

  lemma PairsNext(opt: Series, spot: map<int, real>, horizon: int, i: nat, j: nat)
    requires i < |opt| && j < |opt| && FirstAfter(opt, 0, opt[i].t, horizon) == j
    ensures Pairs(opt, spot, horizon, i + 1) == Pairs(opt, spot, horizon, i) +
              if opt[i].t !in spot || opt[j].t !in spot || spot[opt[j].t] - spot[opt[i].t] == 0.0 then []
              else [Pair(spot[opt[j].t] - spot[opt[i].t], opt[j].p - opt[i].p)]
  {
    hide FirstAfter;
  }

  lemma TooCloseLater(opt: Series, j: nat, i: nat, horizon: int)
    requires Sorted(opt) && TooClose(opt, j, i, horizon) && i + 1 < |opt|
    ensures TooClose(opt, j, i + 1, horizon)
  {
    assert opt[i].t <= opt[i + 1].t;
  }

  /** The two-pointer pass finds exactly the pairs of the quadratic search, for any horizon. */
  method CollectPairs(opt: Series, spot: map<int, real>, horizon: int) returns (ps: seq<Pair>)
    requires Sorted(opt)
    ensures ps == Pairs(opt, spot, horizon, |opt|)
  {
    hide FirstAfter, Pairs, PairOf, Sorted;
    NoPairs(opt, spot, horizon);
    ps := [];
    var j: nat := 0;
    for i := 0 to |opt|
      invariant j <= |opt| && (i < |opt| ==> TooClose(opt, j, i, horizon))
      invariant ps == Pairs(opt, spot, horizon, i)
    {
      while j < |opt| && opt[j].t - opt[i].t < horizon
        invariant j <= |opt| && TooClose(opt, j, i, horizon)
      {
        j := j + 1;
      }
      PointerIsPartner(opt, j, i, horizon);
      if j >= |opt| {
        NoMorePartners(opt, spot, horizon, i, |opt|);
        return;
      }
      PairsNext(opt, spot, horizon, i, j);
      if opt[i].t in spot && opt[j].t in spot {
        var dx := spot[opt[j].t] - spot[opt[i].t];
        if dx != 0.0 {
          ps := ps + [Pair(dx, opt[j].p - opt[i].p)];
        }
      }
      if i + 1 < |opt| {
        TooCloseLater(opt, j, i, horizon);
      }
    }
  }

  // ----- the fit -----

  function Square(x: real): real {
    Times(x, x)
  }

  lemma SquareSign(x: real)
    ensures Square(x) >= 0.0 && (x != 0.0 ==> Square(x) > 0.0)
  {
    if x > 0.0 {
      ProductPositive(x, x);
    } else if x < 0.0 {
      ProductPositive(-x, -x);
      assert Square(x) == Times(-x, -x);
    }
  }

  lemma Distribute(b: real, u: real, v: real)
    ensures Times(b, u + v) == Times(b, u) + Times(b, v)
  {
  }

  lemma SquareOfGap(y: real, b: real, x: real)
    ensures Square(y - Times(b, x)) == Square(y) - 2.0 * Times(b, Times(x, y)) + Times(Square(b), Square(x))
  {
    assert (y - b * x) * (y - b * x) == y * y - 2.0 * (b * (x * y)) + (b * b) * (x * x);
  }

  function Sxx(ps: seq<Pair>): real {
    if ps == [] then 0.0 else Sxx(ps[..|ps| - 1]) + Square(ps[|ps| - 1].x)
  }

  function Sxy(ps: seq<Pair>): real {
    if ps == [] then 0.0 else Sxy(ps[..|ps| - 1]) + Times(ps[|ps| - 1].x, ps[|ps| - 1].y)
  }

  function Syy(ps: seq<Pair>): real {
    if ps == [] then 0.0 else Syy(ps[..|ps| - 1]) + Square(ps[|ps| - 1].y)
  }

  /** The squared error of the line through the origin with slope `b`. */
  function Residual(ps: seq<Pair>, b: real): real {
    if ps == [] then 0.0
    else Residual(ps[..|ps| - 1], b) + Square(ps[|ps| - 1].y - Times(b, ps[|ps| - 1].x))
  }

  lemma {:induction false} SumSigns(ps: seq<Pair>, b: real)
    ensures Residual(ps, b) >= 0.0 && Syy(ps) >= 0.0
  {
    hide Times, Square;
    if ps != [] {
      SumSigns(ps[..|ps| - 1], b);
      SquareSign(ps[|ps| - 1].y - Times(b, ps[|ps| - 1].x));
      SquareSign(ps[|ps| - 1].y);
    }
  }

  lemma {:induction false} SxxPositive(ps: seq<Pair>)
    requires forall k :: 0 <= k < |ps| ==> ps[k].x != 0.0
    ensures Sxx(ps) >= 0.0 && (ps != [] ==> Sxx(ps) > 0.0)
  {
    hide Times, Square;
    if ps != [] {
      SxxPositive(ps[..|ps| - 1]);
      SquareSign(ps[|ps| - 1].x);
    }
  }

  lemma {:induction false} ResidualExpands(ps: seq<Pair>, b: real)
    ensures Residual(ps, b) == Syy(ps) - 2.0 * Times(b, Sxy(ps)) + Times(Square(b), Sxx(ps))
  {
    hide Times, Square;
    if ps == [] {
      ZeroTimes(b);
      ZeroTimes(Square(b));
    } else {
      var rest, q := ps[..|ps| - 1], ps[|ps| - 1];
      ResidualExpands(rest, b);
      SquareOfGap(q.y, b, q.x);
      Distribute(b, Sxy(rest), Times(q.x, q.y));
      Distribute(Square(b), Sxx(rest), Square(q.x));
    }
  }

  lemma ZeroTimes(b: real)
    ensures Times(b, 0.0) == 0.0
  {
  }

  /** Completing the square: any slope is worse than the fitted one by the square of its distance,
      weighted by the spread of the spot changes. */
  lemma FitIsLeastSquares(ps: seq<Pair>, beta: real, b: real)
    requires Times(beta, Sxx(ps)) == Sxy(ps)
    ensures Residual(ps, b) == Residual(ps, beta) + Times(Square(b - beta), Sxx(ps))
    ensures Residual(ps, beta) == Syy(ps) - Times(Square(beta), Sxx(ps))
  {
    hide Times, Square, Residual, Sxx, Sxy, Syy;
    ResidualExpands(ps, b);
    ResidualExpands(ps, beta);
    CompleteTheSquare(b, beta, Sxx(ps));
    CompleteTheSquare(beta, beta, Sxx(ps));
    ZeroGap(beta, Sxx(ps));
  }

  lemma CompleteTheSquare(b: real, beta: real, s: real)
    ensures Times(Square(b), s) - 2.0 * Times(b, Times(beta, s)) == Times(Square(b - beta), s) - Times(Square(beta), s)
  {
    assert ((b - beta) * (b - beta)) * s == (b * b) * s - 2.0 * (b * (beta * s)) + (beta * beta) * s;
  }

  lemma ZeroGap(beta: real, s: real)
    ensures Times(Square(beta - beta), s) == 0.0
  {
  }

  datatype Fit = Fit(n: nat, beta: real, r2: real)

  /** The fit, if there are enough pairs: no slope has a smaller squared error, and the share of the
      option's movement it explains is between zero and one. */
  method Regress(opt: Series, spot: map<int, real>, horizon: int, minN: int) returns (r: Option<Fit>)
    requires Sorted(opt) && minN >= 1
    ensures var ps := Pairs(opt, spot, horizon, |opt|);
            && (r.Some? <==> |ps| >= minN)
            && (r.Some? ==>
                  && r.value.n == |ps| && Times(r.value.beta, Sxx(ps)) == Sxy(ps)
                  && (forall b :: Residual(ps, r.value.beta) <= Residual(ps, b))
                  && 0.0 <= r.value.r2 <= 1.0
                  && (Syy(ps) == 0.0 ==> r.value.r2 == 0.0)
                  && (Syy(ps) != 0.0 ==> Times(r.value.r2, Syy(ps)) == Syy(ps) - Residual(ps, r.value.beta)))
    ensures forall k :: r.Some? && Tracks(opt, spot, k) ==> r.value.beta == k && (k != 0.0 ==> r.value.r2 == 1.0)
  {
    hide Residual, Sxx, Sxy, Syy, Pairs, Square, Times, Tracks;
    var ps := CollectPairs(opt, spot, horizon);
    if |ps| < minN {
      return None;
    }
    SxxPositive(ps);
    var beta := Sxy(ps) / Sxx(ps);
    Ratio(Sxy(ps), Sxx(ps));
    var ssRes, ssTot := Residual(ps, beta), Syy(ps);
    forall b
      ensures Residual(ps, beta) <= Residual(ps, b)
    {
      FittedIsBest(ps, beta, b);
    }
    var r2 := if ssTot != 0.0 then 1.0 - ssRes / ssTot else 0.0;
    SumSigns(ps, beta);
    FittedExplains(ps, beta);
    if ssTot != 0.0 {
      ShareOf(ssRes, ssTot);
    }
    r := Some(Fit(|ps|, beta, r2));
    forall k | Tracks(opt, spot, k)
      ensures beta == k && (k != 0.0 ==> r2 == 1.0)
    {
      TrackingIsMeasured(opt, spot, horizon, k, r.value);
    }
  }

  lemma FittedIsBest(ps: seq<Pair>, beta: real, b: real)
    requires Times(beta, Sxx(ps)) == Sxy(ps) && Sxx(ps) >= 0.0
    ensures Residual(ps, beta) <= Residual(ps, b)
  {
    hide Residual, Sxx, Sxy, Syy, Square, Times;
    FitIsLeastSquares(ps, beta, b);
    SquareSign(b - beta);
    ProductNotNegative(Square(b - beta), Sxx(ps));
  }

  lemma FittedExplains(ps: seq<Pair>, beta: real)
    requires Times(beta, Sxx(ps)) == Sxy(ps) && Sxx(ps) >= 0.0
    ensures Residual(ps, beta) <= Syy(ps)
  {
    hide Residual, Sxx, Sxy, Syy, Square, Times;
    FitIsLeastSquares(ps, beta, beta);
    SquareSign(beta);
    ProductNotNegative(Square(beta), Sxx(ps));
  }

  lemma ShareOf(part: real, whole: real)
    requires 0.0 <= part <= whole && whole > 0.0
    ensures 0.0 <= 1.0 - part / whole <= 1.0
    ensures Times(1.0 - part / whole, whole) == whole - part
  {
    assert (part / whole) * whole == part;
  }

  // ----- what a pair and a fit mean -----

  /** A tick's partner is the first one at least a horizon later; the pair is the change of spot and of the
      option from the tick to its partner, left out when spot is missing at either end or did not change. */
  lemma PairMeans(opt: Series, spot: map<int, real>, horizon: int, i: nat, j: nat)
    requires i < |opt| && j < |opt|
    requires opt[j].t - opt[i].t >= horizon && forall k :: 0 <= k < j ==> opt[k].t - opt[i].t < horizon
    ensures var known := opt[i].t in spot && opt[j].t in spot;
            && (PairOf(opt, spot, horizon, i).Some? <==> known && spot[opt[i].t] != spot[opt[j].t])
            && (PairOf(opt, spot, horizon, i).Some? ==>
                  var p := PairOf(opt, spot, horizon, i).value;
                  spot[opt[i].t] + p.x == spot[opt[j].t] && opt[i].p + p.y == opt[j].p)
  {
    assert FirstAfter(opt, 0, opt[i].t, horizon) == j;
  }

  lemma NoPartnerNoPair(opt: Series, spot: map<int, real>, horizon: int, i: nat)
    requires i < |opt| && forall k :: 0 <= k < |opt| ==> opt[k].t - opt[i].t < horizon
    ensures PairOf(opt, spot, horizon, i).None?
  {
  }

  /** The option moves exactly `k` times as much as the spot, wherever the spot is known. */
  ghost predicate Tracks(opt: Series, spot: map<int, real>, k: real) {
    forall i, j :: 0 <= i < |opt| && 0 <= j < |opt| && opt[i].t in spot && opt[j].t in spot ==>
      opt[j].p - opt[i].p == Times(k, spot[opt[j].t] - spot[opt[i].t])
  }

  /** Every pair lies on the line with slope `k`. */
  ghost predicate OnLine(ps: seq<Pair>, k: real) {
    forall i :: 0 <= i < |ps| ==> ps[i].y == Times(k, ps[i].x)
  }

  lemma {:induction false} TrackingPairs(opt: Series, spot: map<int, real>, horizon: int, k: real, n: nat)
    requires n <= |opt| && Tracks(opt, spot, k)
    ensures OnLine(Pairs(opt, spot, horizon, n), k)
  {
    hide Times;
    if n > 0 {
      TrackingPairs(opt, spot, horizon, k, n - 1);
    }
  }

  lemma {:induction false} LineSums(ps: seq<Pair>, k: real)
    requires OnLine(ps, k)
    ensures Sxy(ps) == Times(k, Sxx(ps)) && Residual(ps, k) == 0.0 && Syy(ps) == Times(Square(k), Sxx(ps))
  {
    hide Times, Square;
    if ps == [] {
      ZeroTimes(k);
      ZeroTimes(Square(k));
    } else {
      var rest, q := ps[..|ps| - 1], ps[|ps| - 1];
      LineSums(rest, k);
      LinePoint(q.x, k);
      Distribute(k, Sxx(rest), Square(q.x));
      Distribute(Square(k), Sxx(rest), Square(q.x));
    }
  }

  lemma LinePoint(x: real, k: real)
    ensures Times(x, Times(k, x)) == Times(k, Square(x)) && Square(Times(k, x)) == Times(Square(k), Square(x))
    ensures Square(Times(k, x) - Times(k, x)) == 0.0
  {
    assert (k * x) * (k * x) == (k * k) * (x * x);
  }

  /** An option that moves exactly `k` times the spot is measured to do so, and entirely explained. */
  lemma TrackingIsMeasured(opt: Series, spot: map<int, real>, horizon: int, k: real, fit: Fit)
    requires var ps := Pairs(opt, spot, horizon, |opt|);
             && Tracks(opt, spot, k) && ps != [] && Times(fit.beta, Sxx(ps)) == Sxy(ps)
             && (Syy(ps) != 0.0 ==> Times(fit.r2, Syy(ps)) == Syy(ps) - Residual(ps, fit.beta))
    ensures fit.beta == k && (k != 0.0 ==> fit.r2 == 1.0)
  {
    hide Residual, Sxx, Sxy, Syy, Pairs, Square, Times, Tracks, OnLine;
    var ps := Pairs(opt, spot, horizon, |opt|);
    TrackingPairs(opt, spot, horizon, k, |opt|);
    LineSums(ps, k);
    SxxPositive(ps);
    SameFactor(fit.beta, k, Sxx(ps));
    if k != 0.0 {
      SquareSign(k);
      ProductPositive(Square(k), Sxx(ps));
      One(Syy(ps));
      SameFactor(fit.r2, 1.0, Syy(ps));
    }
  }

  lemma SameFactor(x: real, y: real, s: real)
    requires s > 0.0 && Times(x, s) == Times(y, s)
    ensures x == y
  {
    assert (x - y) * s == 0.0;
  }

  lemma One(x: real)
    ensures Times(1.0, x) == x
  {
  }
}

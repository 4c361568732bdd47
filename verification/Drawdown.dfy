/** The largest fall of an equity curve, and the running-peak loop that finds it. */
module Drawdown {
  import opened Ticks

  /** `p` is the highest point of the curve. */
  ghost predicate IsPeak(curve: seq<real>, p: real) {
    (forall i :: 0 <= i < |curve| ==> curve[i] <= p) && exists i :: 0 <= i < |curve| && curve[i] == p
  }

  /** `v` is the largest fall from a point of the curve to a later one, or the same one. */
  ghost predicate IsMaxDrawdown(curve: seq<real>, v: real) {
    && (forall i, j :: 0 <= i <= j < |curve| ==> curve[i] - curve[j] <= v)
    && (exists i, j :: 0 <= i <= j < |curve| && curve[i] - curve[j] == v)
  }

  /** One more point of the curve. */
  lemma Extend(curve: seq<real>, x: real, peak: real, mdd: real)
    requires IsPeak(curve, peak) && IsMaxDrawdown(curve, mdd)
    ensures IsPeak(curve + [x], Max(peak, x))
    ensures IsMaxDrawdown(curve + [x], Max(mdd, Max(peak, x) - x))
  {
    var c, n := curve + [x], |curve|;
    var p :| 0 <= p < n && curve[p] == peak;
    var a, b :| 0 <= a <= b < n && curve[a] - curve[b] == mdd;
    assert c[p] == peak && c[n] == x && c[a] - c[b] == mdd;
    assert c[if x > peak then n else p] - c[n] == Max(peak, x) - x;
  }

  lemma Single(x: real)
    ensures IsPeak([x], x) && IsMaxDrawdown([x], 0.0)
  {
    assert [x][0] == x && [x][0] - [x][0] == 0.0;
  }

  /** The curve that starts at `start` and moves by each entry of `pnls` in turn. */
  function Curve(start: real, pnls: seq<real>): (c: seq<real>)
    ensures |c| == |pnls| + 1 && c[0] == start
    ensures forall i :: 0 <= i < |pnls| ==> c[i + 1] == c[i] + pnls[i]
  {
    if pnls == [] then [start]
    else
      var c := Curve(start, pnls[..|pnls| - 1]);
      c + [c[|c| - 1] + pnls[|pnls| - 1]]
  }

  /** The drawdown loop of `summarise`. */
  method OfPnls(pnls: seq<real>) returns (mdd: real)
    ensures IsMaxDrawdown(Curve(0.0, pnls), mdd)
  {
    hide IsPeak, IsMaxDrawdown, Curve;
    var eq, peak := 0.0, 0.0;
    mdd := 0.0;
    Single(0.0);
    CurveStarts(0.0, pnls);
    for i := 0 to |pnls|
      invariant eq == Curve(0.0, pnls[..i])[i]
      invariant IsPeak(Curve(0.0, pnls[..i]), peak) && IsMaxDrawdown(Curve(0.0, pnls[..i]), mdd)
    {
      CurveMore(0.0, pnls, i);
      eq := eq + pnls[i];
      Extend(Curve(0.0, pnls[..i]), eq, peak, mdd);
      peak := Max(peak, eq);
      mdd := Max(mdd, peak - eq);
    }
    assert pnls[..|pnls|] == pnls;
  }

  lemma CurveStarts(start: real, pnls: seq<real>)
    ensures Curve(start, pnls[..0]) == [start]
  {
  }

  lemma CurveMore(start: real, pnls: seq<real>, i: nat)
    requires i < |pnls|
    ensures Curve(start, pnls[..i + 1]) == Curve(start, pnls[..i]) + [Curve(start, pnls[..i])[i] + pnls[i]]
  {
    assert pnls[..i + 1][..i] == pnls[..i];
  }
}

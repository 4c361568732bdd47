/** The legs reported by `legs`: one record per zigzag swing, built from the ticks inside it. */
module Legs {
  import opened Ticks
  import opened Zigzag

  /** A leg. Excursions are measured from the start price along the leg's direction. */
  datatype Leg = Leg(start: int, end: int, dur: int, move: real, up: bool,
                     mfe: real, mae: real, hi: real, lo: real)

  /** The ticks among the first `n` stamped `from..to`, both ends included. */
  function Inside(s: Series, n: nat, from: int, to: int): (ks: seq<nat>)
    requires n <= |s|
    ensures forall k :: k in ks <==> 0 <= k < n && from <= s[k].t <= to
    ensures forall i :: 0 <= i < |ks| ==> ks[i] < n
  {
    if n == 0 then []
    else if from <= s[n - 1].t <= to then Inside(s, n - 1, from, to) + [n - 1]
    else Inside(s, n - 1, from, to)
  }

  function Prices(s: Series, ks: seq<nat>): (ps: seq<real>)
    requires forall i :: 0 <= i < |ks| ==> ks[i] < |s|
    ensures |ps| == |ks| && forall i :: 0 <= i < |ps| ==> ps[i] == s[ks[i]].p
  {
    seq(|ks|, i requires 0 <= i < |ks| => s[ks[i]].p)
  }

  /** How far each price is from `from` along the direction of the leg. */
  function Excursions(up: bool, from: real, ps: seq<real>): (xs: seq<real>)
    ensures |xs| == |ps| && forall i :: 0 <= i < |ps| ==> xs[i] == if up then ps[i] - from else from - ps[i]
  {
    seq(|ps|, i requires 0 <= i < |ps| => if up then ps[i] - from else from - ps[i])
  }

  function MaxOf(ps: seq<real>): (m: real)
    requires ps != []
    ensures exists i :: 0 <= i < |ps| && ps[i] == m
    ensures forall i :: 0 <= i < |ps| ==> ps[i] <= m
  {
    if |ps| == 1 then ps[0] else Max(MaxOf(ps[..|ps| - 1]), ps[|ps| - 1])
  }

  function MinOf(ps: seq<real>): (m: real)
    requires ps != []
    ensures exists i :: 0 <= i < |ps| && ps[i] == m
    ensures forall i :: 0 <= i < |ps| ==> m <= ps[i]
  {
    if |ps| == 1 then ps[0] else Min(MinOf(ps[..|ps| - 1]), ps[|ps| - 1])
  }

  /** The record of the leg from `a` to `b`, given the prices of the ticks inside it. */
  function LegFrom(a: Tick, b: Tick, seg: seq<real>): Leg {
    var move := b.p - a.p;
    var up := move > 0.0;
    if seg == [] then
      Leg(a.t, b.t, b.t - a.t, move, up, 0.0, 0.0, b.p, b.p)
    else
      var xs := Excursions(up, a.p, seg);
      Leg(a.t, b.t, b.t - a.t, move, up, MaxOf(xs), MinOf(xs), MaxOf(seg), MinOf(seg))
  }

  function MakeLeg(a: Tick, b: Tick, s: Series): Leg {
    LegFrom(a, b, Prices(s, Inside(s, |s|, a.t, b.t)))
  }

  /** `out` holds the record of each swing, in order. */
  ghost predicate Recorded(s: Series, ws: seq<Swing>, out: seq<Leg>) {
    && Bounded(ws, |s|)
    && |out| == |ws|
    && forall i :: 0 <= i < |ws| ==> out[i] == MakeLeg(s[ws[i].a], s[ws[i].b], s)
  }

  lemma RecordOne(s: Series, ws: seq<Swing>, out: seq<Leg>, w: Swing)
    requires Recorded(s, ws, out) && w.a < w.b <= w.at < |s|
    ensures Recorded(s, ws + [w], out + [MakeLeg(s[w.a], s[w.b], s)])
  {
    hide MakeLeg;
  }

  /** The loop over ticks, with the pivot and the extremes held as ticks: it reports the record of
      each swing of the machine. */
  method Compute(series: Series, threshold: real) returns (out: seq<Leg>)
    ensures Recorded(series, Swings(series, threshold), out)
  {
    hide *;
    out := [];
    if |series| < 2 {
      NothingSwung(series, threshold);
      return;
    }
    var pivot, hi, lo := series[0], series[0], series[0];
    NothingRecorded(series, threshold);
    ghost var z := Run(series, threshold, 1);
    for i := 1 to |series|
      invariant z == Run(series, threshold, i)
      invariant pivot == series[z.pivot] && hi == series[z.hi] && lo == series[z.lo]
      invariant Recorded(series, z.swings, out)
    {
      ghost var w := Swing(z.pivot, Run(series, threshold, i + 1).pivot, i);
      var x := series[i];
      if x.p > hi.p {
        hi := x;
      }
      if x.p < lo.p {
        lo := x;
      }
      StepOnTicks(series, threshold, i, hi, lo);
      if hi.p - x.p >= threshold && hi.p - pivot.p >= threshold && hi.t > pivot.t {
        RecordOne(series, z.swings, out, w);
        out := out + [MakeLeg(pivot, hi, series)];
        pivot := hi;
        hi, lo := x, x;
      } else if x.p - lo.p >= threshold && pivot.p - lo.p >= threshold && lo.t > pivot.t {
        RecordOne(series, z.swings, out, w);
        out := out + [MakeLeg(pivot, lo, series)];
        pivot := lo;
        hi, lo := x, x;
      }
      z := Run(series, threshold, i + 1);
    }
    assert Swings(series, threshold) == z.swings by { SwingsOfAll(series, threshold); }
  }

  lemma NothingSwung(s: Series, th: real)
    requires |s| < 2
    ensures Recorded(s, Swings(s, th), [])
  {
  }

  lemma SwingsOfAll(s: Series, th: real)
    requires 2 <= |s|
    ensures Swings(s, th) == Run(s, th, |s|).swings
  {
  }

  /** The machine's step in terms of the ticks it holds. */
  lemma StepOnTicks(s: Series, th: real, i: nat, hi: Tick, lo: Tick)
    requires 1 <= i < |s|
    requires hi == (if s[i].p > s[Run(s, th, i).hi].p then s[i] else s[Run(s, th, i).hi])
    requires lo == (if s[i].p < s[Run(s, th, i).lo].p then s[i] else s[Run(s, th, i).lo])
    ensures var z, z' := Run(s, th, i), Run(s, th, i + 1);
            var x, pivot := s[i], s[z.pivot];
            if hi.p - x.p >= th && hi.p - pivot.p >= th && hi.t > pivot.t then
              && s[z'.pivot] == hi && z'.hi == z'.lo == i && z.pivot < z'.pivot
              && z'.swings == z.swings + [Swing(z.pivot, z'.pivot, i)]
            else if x.p - lo.p >= th && pivot.p - lo.p >= th && lo.t > pivot.t then
              && s[z'.pivot] == lo && z'.hi == z'.lo == i && z.pivot < z'.pivot
              && z'.swings == z.swings + [Swing(z.pivot, z'.pivot, i)]
            else
              z'.pivot == z.pivot && s[z'.hi] == hi && s[z'.lo] == lo && z'.swings == z.swings
  {
    hide Bounded;
  }

  lemma NothingRecorded(s: Series, th: real)
    requires 1 <= |s|
    ensures Run(s, th, 1) == State(0, 0, 0, []) && Recorded(s, [], [])
  {
  }
}

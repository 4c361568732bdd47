/** The average true range of a list of bars. */
module AverageTrueRange {
  import opened Ticks
  import opened Candles

  function TrueRange(prev: Bar, b: Bar): real {
    Max(Max(b.h - b.l, Abs(b.h - prev.c)), Abs(b.l - prev.c))
  }

  /** Sum of the true ranges of bars `from..to`; the first bar has none. */
  function SumOfRanges(bars: seq<Bar>, from: nat, to: nat): real
    requires 1 <= from <= to <= |bars|
  {
    if from == to then 0.0 else SumOfRanges(bars, from, to - 1) + TrueRange(bars[to - 2], bars[to - 1])
  }

  /** One true range per bar past the first. */
  ghost predicate AreTrueRanges(bars: seq<Bar>, trs: seq<Option<real>>) {
    && |trs| == (if bars == [] then 1 else |bars|)
    && trs[0] == None
    && forall k :: 1 <= k < |bars| ==> trs[k] == Some(TrueRange(bars[k - 1], bars[k]))
  }

  method TrueRanges(bars: seq<Bar>) returns (trs: seq<Option<real>>)
    ensures AreTrueRanges(bars, trs)
  {
    trs := [None];
    var i := 1;
    while i < |bars|
      invariant 1 <= i && |trs| == i && trs[0] == None && (bars == [] ==> i == 1) && (bars != [] ==> i <= |bars|)
      invariant forall k :: 1 <= k < i ==> trs[k] == Some(TrueRange(bars[k - 1], bars[k]))
    {
      var pc := bars[i - 1].c;
      trs := trs + [Some(Max(Max(bars[i].h - bars[i].l, Abs(bars[i].h - pc)), Abs(bars[i].l - pc)))];
      i := i + 1;
    }
  }

  /** The mean of the true ranges in the window ending at bar `i`, if the window is full. */
  method WindowMean(bars: seq<Bar>, trs: seq<Option<real>>, i: nat, period: int) returns (r: Option<real>)
    requires period >= 1 && i < |bars| && AreTrueRanges(bars, trs)
    ensures r.Some? <==> i >= period
    ensures i >= period ==> r == Some(SumOfRanges(bars, i - period + 1, i + 1) / period as real)
  {
    hide TrueRange;
    var from := if i - period + 1 > 0 then i - period + 1 else 0;
    ghost var first := if from == 0 then 1 else from;
    var sum, count := 0.0, 0;
    for j := from to i + 1
      invariant if j < first then count == 0 && sum == 0.0 else count == j - first && sum == SumOfRanges(bars, first, j)
    {
      if trs[j].Some? {
        sum, count := sum + trs[j].value, count + 1;
      }
    }
    r := if count >= period then Some(sum / count as real) else None;
  }

  /** `None` before `period` true ranges exist, then the mean of the last `period` of them. */
  method Atr(bars: seq<Bar>, period: int) returns (out: seq<Option<real>>)
    requires period >= 1
    ensures |out| == |bars|
    ensures forall i :: 0 <= i < |bars| ==> (out[i].Some? <==> i >= period)
    ensures forall i :: period <= i < |bars| ==>
              out[i] == Some(SumOfRanges(bars, i - period + 1, i + 1) / period as real)
  {
    hide SumOfRanges, AreTrueRanges;
    var trs := TrueRanges(bars);
    out := [];
    for i := 0 to |bars|
      invariant |out| == i
      invariant forall k :: 0 <= k < i ==> (out[k].Some? <==> k >= period)
      invariant forall k :: period <= k < i ==>
                  out[k] == Some(SumOfRanges(bars, k - period + 1, k + 1) / period as real)
    {
      var r := WindowMean(bars, trs, i, period);
      out := out + [r];
    }
  }

  /** A zero average means every one of its true ranges is zero, never a missing value. */
  lemma {:induction false} ZeroAtrIsFlat(bars: seq<Bar>, from: nat, to: nat)
    requires 1 <= from <= to <= |bars| && forall i :: 0 <= i < |bars| ==> bars[i].l <= bars[i].h
    ensures 0.0 <= SumOfRanges(bars, from, to)
    ensures SumOfRanges(bars, from, to) == 0.0 <==>
            forall i :: from <= i < to ==> bars[i].h == bars[i].l == bars[i - 1].c
  {
    if from < to {
      ZeroAtrIsFlat(bars, from, to - 1);
    }
  }

  /** The true range spans the bar and the close before it. */
  lemma TrueRangeSpans(prev: Bar, b: Bar)
    requires b.l <= b.h
    ensures TrueRange(prev, b) == Max(b.h, prev.c) - Min(b.l, prev.c)
  {
  }

  /** A sum of ranges counts each bar's once. */
  lemma {:induction false} RangesAddUp(bars: seq<Bar>, from: nat, i: nat, to: nat)
    requires 1 <= from <= i < to <= |bars|
    ensures SumOfRanges(bars, from, to)
            == SumOfRanges(bars, from, i) + TrueRange(bars[i - 1], bars[i]) + SumOfRanges(bars, i + 1, to)
    ensures SumOfRanges(bars, from, from) == 0.0
  {
    hide TrueRange;
    if i + 1 < to {
      RangesAddUp(bars, from, i, to - 1);
    }
  }
}

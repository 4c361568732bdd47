/** Bars from ticks: `build` and the view of an observer at an instant. */
module Candles {
  import opened Ticks

  /** A bar: `k` is its bucket number counted from the day's midnight, so the bar starts `k` bucket
      widths after it. */
  datatype Bar = Bar(k: int, o: real, h: real, l: real, c: real, n: nat, partial: bool, firstT: int, lastT: int)

  /** Midnight of the day of an instant. */
  function Midnight(t: int): int {
    t - t % DAY
  }

  /** Whole seconds since `origin`, truncated toward zero. */
  function WholeSeconds(t: int, origin: int): int {
    if t >= origin then (t - origin) / MICROS else -((origin - t) / MICROS)
  }

  function Bucket(t: int, origin: int, seconds: int): int
    requires seconds > 0
  {
    WholeSeconds(t, origin) / seconds
  }

  /** Every observation at or before `t`, and, with a nonzero lookback, none older than that. */
  function AsOf(s: Series, t: int, lookback: Option<int>): Series {
    if s == [] then []
    else
      var x := s[|s| - 1];
      var rest := AsOf(s[..|s| - 1], t, lookback);
      if x.t <= t && (lookback.None? || lookback.value == 0 || x.t >= t - lookback.value * MICROS) then rest + [x]
      else rest
  }

  function OneTick(x: Tick, k: int): Bar {
    Bar(k, x.p, x.p, x.p, x.p, 1, false, x.t, x.t)
  }

  function Absorb(b: Bar, x: Tick): Bar {
    b.(h := Max(b.h, x.p), l := Min(b.l, x.p), c := x.p, n := b.n + 1, lastT := x.t)
  }

  /** What one more tick does to a list of bars. */
  function AddTick(bs: seq<Bar>, x: Tick, k: int): seq<Bar> {
    if bs != [] && bs[|bs| - 1].k == k then bs[|bs| - 1 := Absorb(bs[|bs| - 1], x)] else bs + [OneTick(x, k)]
  }

  /** The bars of the first `n` ticks. */
  function Bars(s: Series, origin: int, seconds: int, n: nat): (bs: seq<Bar>)
    requires seconds > 0 && n <= |s|
    ensures bs == [] <==> n == 0
  {
    if n == 0 then []
    else AddTick(Bars(s, origin, seconds, n - 1), s[n - 1], Bucket(s[n - 1].t, origin, seconds))
  }

  function MarkPartial(bs: seq<Bar>): seq<Bar>
    requires bs != []
  {
    bs[|bs| - 1 := bs[|bs| - 1].(partial := true)]
  }

  function Source(s: Series, upto: Option<int>): Series {
    if upto.Some? then AsOf(s, upto.value, None) else s
  }

  /** What `build` returns. */
  function Built(s: Series, seconds: int, upto: Option<int>): seq<Bar>
    requires seconds > 0
  {
    var src := Source(s, upto);
    if src == [] then []
    else
      var bs := Bars(src, Midnight(src[0].t), seconds, |src|);
      if upto.Some? then MarkPartial(bs) else bs
  }

  /** The loop, growing the list and updating its last bar in place. */
  method Build(series: Series, seconds: int, upto: Option<int>) returns (out: seq<Bar>)
    requires seconds > 0
    ensures out == Built(series, seconds, upto)
  {
    var src := Source(series, upto);
    out := [];
    if src == [] {
      return;
    }
    var origin := Midnight(src[0].t);
    var key: Option<int> := None;
    for i := 0 to |src|
      invariant out == Bars(src, origin, seconds, i)
      invariant i > 0 ==> key == Some(out[|out| - 1].k)
    {
      var x := src[i];
      var k := Bucket(x.t, origin, seconds);
      if i == 0 || key != Some(k) {
        out := out + [OneTick(x, k)];
        key := Some(k);
      } else {
        var b := out[|out| - 1];
        out := out[|out| - 1 := b.(h := Max(b.h, x.p), l := Min(b.l, x.p), c := x.p, n := b.n + 1, lastT := x.t)];
      }
    }
    if upto.Some? {
      out := out[|out| - 1 := out[|out| - 1].(partial := true)];
    }
  }

  // ----- what a list of bars says about the ticks -----

  /** How many ticks the first `i` bars hold. */
  function Offset(bs: seq<Bar>, i: nat): nat
    requires i <= |bs|
  {
    if i == 0 then 0 else Offset(bs, i - 1) + bs[i - 1].n
  }

  /** `b` summarises exactly the ticks `from..to`: one bucket, first and last price, exact extremes. */
  ghost predicate Summarises(s: Series, origin: int, seconds: int, b: Bar, from: nat, to: nat)
    requires seconds > 0
  {
    && from < to <= |s| && b.n == to - from
    && (forall j :: from <= j < to ==> Bucket(s[j].t, origin, seconds) == b.k)
    && b.o == s[from].p && b.c == s[to - 1].p && b.firstT == s[from].t && b.lastT == s[to - 1].t
    && (forall j :: from <= j < to ==> b.l <= s[j].p <= b.h)
    && (exists j :: from <= j < to && s[j].p == b.h)
    && (exists j :: from <= j < to && s[j].p == b.l)
  }

  /** The bars cut the first `n` ticks into maximal runs of one bucket, and summarise each run. */
  ghost predicate Exact(s: Series, origin: int, seconds: int, n: nat, bs: seq<Bar>)
    requires seconds > 0
  {
    && n <= |s| && Offset(bs, |bs|) == n
    && (forall i {:trigger bs[i]} :: 0 <= i < |bs| ==>
          Summarises(s, origin, seconds, bs[i], Offset(bs, i), Offset(bs, i) + bs[i].n) && !bs[i].partial)
    && (forall i, j :: 0 <= i < j < |bs| && j == i + 1 ==> bs[i].k != bs[j].k)
  }

  lemma {:induction false} OffsetSame(cs: seq<Bar>, bs: seq<Bar>, i: nat)
    requires i <= |cs| && i <= |bs| && forall j :: 0 <= j < i ==> cs[j].n == bs[j].n
    ensures Offset(cs, i) == Offset(bs, i)
  {
    if i > 0 {
      OffsetSame(cs, bs, i - 1);
    }
  }

  lemma AbsorbSummarises(s: Series, origin: int, seconds: int, b: Bar, from: nat, to: nat)
    requires seconds > 0 && to < |s| && Summarises(s, origin, seconds, b, from, to)
    requires Bucket(s[to].t, origin, seconds) == b.k
    ensures Summarises(s, origin, seconds, Absorb(b, s[to]), from, to + 1)
  {
    var jh :| from <= jh < to && s[jh].p == b.h;
    var jl :| from <= jl < to && s[jl].p == b.l;
    var b' := Absorb(b, s[to]);
    assert b'.h == s[if b.h < s[to].p then to else jh].p;
    assert b'.l == s[if s[to].p < b.l then to else jl].p;
  }

  /** The bars of any ticks are exact, and their counts add up to the number of ticks. */
  lemma {:induction false} BarsAreExact(s: Series, origin: int, seconds: int, n: nat)
    requires seconds > 0 && n <= |s|
    ensures Exact(s, origin, seconds, n, Bars(s, origin, seconds, n))
  {
    hide Bucket, Exact, Offset, Absorb;
    if n == 0 {
      NoBars(s, origin, seconds);
    } else {
      BarsAreExact(s, origin, seconds, n - 1);
      ExactStep(s, origin, seconds, n - 1, Bars(s, origin, seconds, n - 1), Bars(s, origin, seconds, n));
    }
  }

  lemma ExactStep(s: Series, origin: int, seconds: int, n: nat, bs: seq<Bar>, cs: seq<Bar>)
    requires seconds > 0 && n < |s| && Exact(s, origin, seconds, n, bs)
    requires cs == AddTick(bs, s[n], Bucket(s[n].t, origin, seconds))
    ensures Exact(s, origin, seconds, n + 1, cs)
  {
    hide Bucket, Summarises, Absorb, OneTick, Offset;
    var last := |cs| - 1;
    OffsetNext(cs, last);
    if bs != [] {
      OffsetNext(bs, |bs| - 1);
    }
    forall i: nat | i <= last
      ensures Offset(cs, i) == Offset(bs, i)
    {
      OffsetSame(cs, bs, i);
    }
    if last < |bs| {
      AbsorbSummarises(s, origin, seconds, bs[last], Offset(bs, last), n);
      AbsorbFields(bs[last], s[n]);
    } else {
      OneSummarises(s, origin, seconds, n);
    }
  }

  lemma NoBars(s: Series, origin: int, seconds: int)
    requires seconds > 0
    ensures Exact(s, origin, seconds, 0, [])
  {
  }

  lemma OffsetNext(bs: seq<Bar>, i: nat)
    requires i < |bs|
    ensures Offset(bs, i + 1) == Offset(bs, i) + bs[i].n
  {
  }

  lemma AbsorbFields(b: Bar, x: Tick)
    ensures var c := Absorb(b, x); c.k == b.k && c.n == b.n + 1 && c.partial == b.partial
  {
  }

  lemma OneSummarises(s: Series, origin: int, seconds: int, n: nat)
    requires seconds > 0 && n < |s|
    ensures var b := OneTick(s[n], Bucket(s[n].t, origin, seconds));
            && Summarises(s, origin, seconds, b, n, n + 1)
            && b.n == 1 && !b.partial && b.k == Bucket(s[n].t, origin, seconds)
  {
  }

  /** On time-sorted ticks buckets never come back: each bar holds all the ticks of its bucket. */
  lemma SortedBarsAreWhole(s: Series, origin: int, seconds: int, n: nat, bs: seq<Bar>, i: nat, j: nat)
    requires seconds > 0 && n <= |s| && Sorted(s) && Exact(s, origin, seconds, n, bs)
    requires i < |bs| && j < n && Bucket(s[j].t, origin, seconds) == bs[i].k
    ensures Offset(bs, i) <= j < Offset(bs, i) + bs[i].n
  {
    hide Bucket, Sorted, Offset, Summarises;
    var i' := HolderOf(s, origin, seconds, n, bs, j);
    if i < i' {
      KeysGrow(s, origin, seconds, n, bs, i, i');
    } else if i' < i {
      KeysGrow(s, origin, seconds, n, bs, i', i);
    }
  }

  /** The bar a tick fell into. */
  lemma {:induction false} HolderOf(s: Series, origin: int, seconds: int, n: nat, bs: seq<Bar>, j: nat) returns (i: nat)
    requires seconds > 0 && n <= |s| && Exact(s, origin, seconds, n, bs) && j < n
    ensures i < |bs| && Offset(bs, i) <= j < Offset(bs, i) + bs[i].n && bs[i].k == Bucket(s[j].t, origin, seconds)
  {
    hide Bucket, Offset;
    i := |bs|;
    while Offset(bs, i) > j
      invariant i <= |bs|
      invariant i < |bs| ==> j < Offset(bs, i) + bs[i].n
      invariant i == |bs| ==> j < Offset(bs, i)
    {
      NoOffset(bs);
      OffsetNext(bs, i - 1);
      i := i - 1;
    }
  }

  lemma NoOffset(bs: seq<Bar>)
    ensures Offset(bs, 0) == 0
  {
  }

  lemma BucketsGrow(t: int, u: int, origin: int, seconds: int)
    requires seconds > 0 && t <= u
    ensures Bucket(t, origin, seconds) <= Bucket(u, origin, seconds)
  {
    SecondsGrow(t, u, origin);
    DivGrows(WholeSeconds(t, origin), WholeSeconds(u, origin), seconds);
  }

  lemma SecondsGrow(t: int, u: int, origin: int)
    requires t <= u
    ensures WholeSeconds(t, origin) <= WholeSeconds(u, origin)
  {
  }

  lemma MulSign(e: int, d: int)
    requires d > 0
    ensures (e > 0 ==> e * d >= d) && (e < 0 ==> e * d <= -d)
  {
  }

  lemma DivUnique(x: int, d: int, q: int, r: int)
    requires d > 0 && x == q * d + r && 0 <= r < d
    ensures x / d == q
  {
    MulSign(x / d - q, d);
    assert (x / d - q) * d == r - x % d;
  }

  lemma DivGrows(x: int, y: int, d: int)
    requires d > 0 && x <= y
    ensures x / d <= y / d
  {
    MulSign(y / d - x / d, d);
    assert (y / d - x / d) * d == (y - y % d) - (x - x % d);
  }

  lemma {:induction false} KeysGrow(s: Series, origin: int, seconds: int, n: nat, bs: seq<Bar>, i: nat, j: nat)
    requires seconds > 0 && n <= |s| && Sorted(s) && Exact(s, origin, seconds, n, bs) && i < j < |bs|
    ensures bs[i].k < bs[j].k
    decreases j
  {
    hide Bucket, Sorted, Offset;
    OffsetNext(bs, j - 1);
    assert bs[j - 1].k != bs[j].k;
    NeighbourKeys(s, origin, seconds, bs[j - 1], bs[j], Offset(bs, j - 1), Offset(bs, j));
    if i < j - 1 {
      KeysGrow(s, origin, seconds, n, bs, i, j - 1);
    }
  }

  lemma NeighbourKeys(s: Series, origin: int, seconds: int, a: Bar, b: Bar, from: nat, mid: nat)
    requires seconds > 0 && Sorted(s) && a.k != b.k && mid == from + a.n
    requires Summarises(s, origin, seconds, a, from, mid) && Summarises(s, origin, seconds, b, mid, mid + b.n)
    ensures a.k < b.k
  {
    hide Bucket;
    BucketsGrow(s[from].t, s[mid].t, origin, seconds);
  }

  // ----- nothing later leaks -----

  lemma {:induction false} AsOfAppend(a: Series, b: Series, t: int, lookback: Option<int>)
    ensures AsOf(a + b, t, lookback) == AsOf(a, t, lookback) + AsOf(b, t, lookback)
  {
    if b == [] {
      assert a + b == a;
    } else {
      AsOfAppend(a, b[..|b| - 1], t, lookback);
      assert (a + b)[..|a + b| - 1] == a + b[..|b| - 1];
    }
  }

  lemma {:induction false} AsOfLater(s: Series, t: int)
    requires forall j :: 0 <= j < |s| ==> t < s[j].t
    ensures AsOf(s, t, None) == []
  {
    if s != [] {
      AsOfLater(s[..|s| - 1], t);
    }
  }

  lemma {:induction false} AsOfAll(s: Series, t: int)
    requires forall j :: 0 <= j < |s| ==> s[j].t <= t
    ensures AsOf(s, t, None) == s
  {
    if s != [] {
      AsOfAll(s[..|s| - 1], t);
      assert s[..|s| - 1] + [s[|s| - 1]] == s;
    }
  }

  /** Ticks after the instant of observation change nothing, wherever they sit in the series. */
  lemma LaterTicksCannotLeak(a: Series, later: Series, b: Series, seconds: int, t: int)
    requires seconds > 0 && forall j :: 0 <= j < |later| ==> t < later[j].t
    ensures Built(a + later + b, seconds, Some(t)) == Built(a + b, seconds, Some(t))
  {
    hide Bars, AsOf;
    AsOfAppend(a + later, b, t, None);
    AsOfAppend(a, later, t, None);
    AsOfAppend(a, b, t, None);
    AsOfLater(later, t);
    assert AsOf(a, t, None) + [] == AsOf(a, t, None);
  }

  /** `early` is what `late` looked like before more ticks came: finished bars are the same, and the
      last one has the same start, a nested range and no larger count. */
  ghost predicate EarlierView(early: seq<Bar>, late: seq<Bar>) {
    && |early| <= |late|
    && (forall i :: 0 <= i < |early| - 1 ==> early[i] == late[i])
    && (early != [] ==>
          var a, b := early[|early| - 1], late[|early| - 1];
          a.k == b.k && a.o == b.o && a.firstT == b.firstT && b.l <= a.l && a.h <= b.h && a.n <= b.n)
  }

  lemma {:induction false} BarsOnlyGrow(s: Series, origin: int, seconds: int, m: nat, n: nat)
    requires seconds > 0 && m <= n <= |s|
    ensures EarlierView(Bars(s, origin, seconds, m), Bars(s, origin, seconds, n))
    decreases n
  {
    hide Bucket;
    if m < n {
      BarsOnlyGrow(s, origin, seconds, m, n - 1);
    }
  }

  lemma {:induction false} BarsOfPrefix(s: Series, origin: int, seconds: int, m: nat, n: nat)
    requires seconds > 0 && n <= m <= |s|
    ensures Bars(s[..m], origin, seconds, n) == Bars(s, origin, seconds, n)
  {
    if n > 0 {
      BarsOfPrefix(s, origin, seconds, m, n - 1);
    }
  }

  /** What an observer at `t` saw of a time-sorted session is an earlier view of the whole session. */
  lemma ObserverSawEarlierView(s: Series, seconds: int, t: int)
    requires seconds > 0 && Sorted(s)
    ensures EarlierView(Built(s, seconds, Some(t)), Built(s, seconds, None))
    ensures AsOf(s, t, None) <= s
  {
    hide Bars, AsOf, EarlierView, Midnight, MarkPartial, Sorted;
    var m := AsOfIsPrefix(s, t);
    if m > 0 {
      BarsOfPrefix(s, Midnight(s[0].t), seconds, m, m);
      BarsOnlyGrow(s, Midnight(s[0].t), seconds, m, |s|);
      PartialView(Bars(s, Midnight(s[0].t), seconds, m), Built(s, seconds, None));
    } else {
      EmptyView(Built(s, seconds, None));
    }
  }

  lemma AsOfIsPrefix(s: Series, t: int) returns (m: nat)
    requires Sorted(s)
    ensures m <= |s| && AsOf(s, t, None) == s[..m]
    ensures forall j :: 0 <= j < |s| ==> (s[j].t <= t <==> j < m)
  {
    hide AsOf;
    m := CountUpTo(s, t);
    AsOfAppend(s[..m], s[m..], t, None);
    assert s == s[..m] + s[m..];
    AsOfAll(s[..m], t);
    AsOfLater(s[m..], t);
  }

  lemma PartialView(early: seq<Bar>, late: seq<Bar>)
    requires early != [] && EarlierView(early, late)
    ensures EarlierView(MarkPartial(early), late)
  {
  }

  lemma EmptyView(late: seq<Bar>)
    ensures EarlierView([], late)
  {
  }

  lemma CountUpTo(s: Series, t: int) returns (m: nat)
    requires Sorted(s)
    ensures m <= |s| && (forall j :: 0 <= j < m ==> s[j].t <= t) && (forall j :: m <= j < |s| ==> t < s[j].t)
  {
    m := 0;
    while m < |s| && s[m].t <= t
      invariant m <= |s| && forall j :: 0 <= j < m ==> s[j].t <= t
    {
      m := m + 1;
    }
  }
}

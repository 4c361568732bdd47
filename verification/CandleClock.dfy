/** Where on the clock the bars of `build` lie, stated without the bucket numbers' own formula. */
module CandleClock {
  import opened Ticks
  import opened Candles

  /** Instant `t` falls into the `k`-th stretch of `width` microseconds after `midnight`. Before midnight,
      where seconds are cut off upwards, every stretch starts and ends just under a second early. */
  predicate InStretch(t: int, midnight: int, k: int, width: int) {
    var early := if t >= midnight then 0 else 1_000_000 - 1;
    k * width <= t - midnight + early < (k + 1) * width
  }

  lemma DivBounds(x: int, d: int)
    requires d > 0
    ensures x / d * d <= x < (x / d + 1) * d
  {
    assert (x / d + 1) * d == x / d * d + d;
  }

  lemma Scale(q: int, d: int, w: int)
    requires d > 0 && q * d <= w < (q + 1) * d
    ensures q * (d * 1_000_000) <= w * 1_000_000 && w * 1_000_000 + 1_000_000 <= (q + 1) * (d * 1_000_000)
  {
    assert q * (d * 1_000_000) == (q * d) * 1_000_000;
    assert (q + 1) * (d * 1_000_000) == ((q + 1) * d) * 1_000_000;
  }

  lemma WholeSecondBounds(t: int, origin: int)
    ensures var w := WholeSeconds(t, origin);
            var early := if t >= origin then 0 else 1_000_000 - 1;
            w * 1_000_000 <= t - origin + early < (w + 1) * 1_000_000
  {
  }

  /** A tick falls into stretch `k` of the day exactly when `k` is its bucket. */
  lemma BucketIsStretch(t: int, midnight: int, seconds: int, k: int)
    requires seconds > 0
    ensures InStretch(t, midnight, k, seconds * 1_000_000) <==> k == Bucket(t, midnight, seconds)
  {
    hide WholeSeconds;
    var w := WholeSeconds(t, midnight);
    WholeSecondBounds(t, midnight);
    DivBounds(w, seconds);
    Scale(w / seconds, seconds, w);
    if InStretch(t, midnight, k, seconds * 1_000_000) {
      OneStretch(t, midnight, k, w / seconds, seconds * 1_000_000);
    }
  }

  lemma OneStretch(t: int, midnight: int, a: int, b: int, width: int)
    requires width > 0 && InStretch(t, midnight, a, width) && InStretch(t, midnight, b, width)
    ensures a == b
  {
    MulSign(a - b, width);
    assert (a - b) * width == a * width - b * width;
    assert (a + 1) * width == a * width + width && (b + 1) * width == b * width + width;
  }

  lemma MidnightIsStartOfDay(t: int)
    ensures var m := Midnight(t); m % (86_400 * 1_000_000) == 0 && m <= t < m + 86_400 * 1_000_000
  {
    assert DAY == 86_400 * 1_000_000;
    Multiple(t / DAY);
  }

  lemma Multiple(q: int)
    ensures (q * DAY) % DAY == 0
  {
    DivUnique(q * DAY, DAY, q, 0);
  }

  /** The observer's filter keeps a tick exactly when it is not later than the instant and, with a
      nonzero lookback, not more than that many seconds older; with `AsOfAppend` this is the whole filter. */
  lemma AsOfOne(x: Tick, t: int, lookback: Option<int>)
    ensures AsOf([x], t, lookback) ==
              if x.t > t || (lookback.Some? && lookback.value != 0 && t - x.t > lookback.value * 1_000_000) then []
              else [x]
    ensures AsOf([], t, lookback) == []
  {
    assert [x][..0] == [];
  }

  /** Bar `b` is what the ticks `from..to` make it. */
  ghost predicate IsBarOf(src: Series, b: Bar, from: nat, to: nat) {
    && from < to <= |src| && b.n == to - from
    && b.o == src[from].p && b.firstT == src[from].t && b.c == src[to - 1].p && b.lastT == src[to - 1].t
    && (forall j :: from <= j < to ==> b.l <= src[j].p <= b.h)
    && (exists j :: from <= j < to && src[j].p == b.h)
    && (exists j :: from <= j < to && src[j].p == b.l)
  }

  /** The ticks `from..to` all fall into stretch `k`. */
  ghost predicate AllIn(src: Series, midnight: int, k: int, width: int, from: nat, to: nat)
  {
    forall j :: from <= j < to && j < |src| ==> InStretch(src[j].t, midnight, k, width)
  }

  /** The bars cut the ticks `src` into runs, each within its own stretch of the day of the first tick, and
      say of each run what its ticks make it; the last bar is partial exactly when `watched`, and no other
      is. */
  ghost predicate OnTheClock(src: Series, seconds: int, out: seq<Bar>, midnight: int, watched: bool) {
    && Offset(out, |out|) == |src|
    && (src != [] ==> midnight % (86_400 * 1_000_000) == 0
                      && midnight <= src[0].t < midnight + 86_400 * 1_000_000)
    && (forall i {:trigger out[i]} :: 0 <= i < |out| ==>
          var from := Offset(out, i);
          && IsBarOf(src, out[i], from, from + out[i].n)
          && AllIn(src, midnight, out[i].k, seconds * 1_000_000, from, from + out[i].n)
          && (out[i].partial <==> watched && i == |out| - 1))
    && (forall i, j :: 0 <= i < j < |out| && j == i + 1 ==> out[i].k != out[j].k)
  }

  lemma SummarisesOnClock(s: Series, midnight: int, seconds: int, b: Bar, from: nat, to: nat)
    requires seconds > 0 && Summarises(s, midnight, seconds, b, from, to)
    ensures IsBarOf(s, b, from, to) && AllIn(s, midnight, b.k, seconds * 1_000_000, from, to)
  {
    hide Bucket, InStretch;
    forall j | from <= j < to
      ensures InStretch(s[j].t, midnight, b.k, seconds * 1_000_000)
    {
      BucketIsStretch(s[j].t, midnight, seconds, b.k);
    }
  }

  lemma BarsOnClock(src: Series, seconds: int)
    requires seconds > 0 && src != []
    ensures var m := Midnight(src[0].t); OnTheClock(src, seconds, Bars(src, m, seconds, |src|), m, false)
  {
    hide Bars, Midnight, Bucket, IsBarOf, AllIn, Offset;
    var m := Midnight(src[0].t);
    var bs := Bars(src, m, seconds, |src|);
    MidnightIsStartOfDay(src[0].t);
    BarsAreExact(src, m, seconds, |src|);
    forall i: nat | i < |bs|
      ensures IsBarOf(src, bs[i], Offset(bs, i), Offset(bs, i) + bs[i].n)
              && AllIn(src, m, bs[i].k, seconds * 1_000_000, Offset(bs, i), Offset(bs, i) + bs[i].n)
    {
      SummarisesOnClock(src, m, seconds, bs[i], Offset(bs, i), Offset(bs, i) + bs[i].n);
    }
  }

  lemma PartialOnClock(src: Series, seconds: int, bs: seq<Bar>, midnight: int)
    requires bs != [] && OnTheClock(src, seconds, bs, midnight, false)
    ensures OnTheClock(src, seconds, MarkPartial(bs), midnight, true)
  {
    hide Offset, AllIn, IsBarOf;
    var cs := MarkPartial(bs);
    forall i: nat | i <= |cs|
      ensures Offset(cs, i) == Offset(bs, i)
    {
      OffsetSame(cs, bs, i);
    }
    forall i: nat | i < |cs|
      ensures cs[i].n == bs[i].n && cs[i].k == bs[i].k
              && IsBarOf(src, cs[i], Offset(bs, i), Offset(bs, i) + bs[i].n)
    {
      PartialIsBarOf(src, bs[i], Offset(bs, i), Offset(bs, i) + bs[i].n);
    }
  }

  lemma PartialIsBarOf(src: Series, b: Bar, from: nat, to: nat)
    requires IsBarOf(src, b, from, to)
    ensures IsBarOf(src, b.(partial := true), from, to)
  {
  }

  /** What `build` returns, for any ticks in any order, over the ticks an observer may see. */
  lemma BuiltOnClock(s: Series, seconds: int, upto: Option<int>) returns (midnight: int)
    requires seconds > 0
    ensures OnTheClock(Source(s, upto), seconds, Built(s, seconds, upto), midnight, upto.Some?)
  {
    hide Bars, Midnight, OnTheClock, AsOf, MarkPartial;
    var src := Source(s, upto);
    midnight := 0;
    if src == [] {
      NothingOnClock(seconds, upto.Some?);
    } else {
      midnight := Midnight(src[0].t);
      BarsOnClock(src, seconds);
      if upto.Some? {
        PartialOnClock(src, seconds, Bars(src, midnight, seconds, |src|), midnight);
      }
    }
  }

  lemma NothingOnClock(seconds: int, watched: bool)
    ensures OnTheClock([], seconds, [], 0, watched)
  {
  }

  /** On a time-sorted series the observer's ticks are the first `m`, up to the instant, and bar `i` holds
      exactly those of them stamped from its start until one width later. */
  lemma SortedBuiltOnClock(s: Series, seconds: int, upto: Option<int>) returns (m: nat, midnight: int)
    requires seconds > 0 && Sorted(s)
    ensures m <= |s| && (upto.None? ==> m == |s|)
    ensures upto.Some? ==> forall j :: 0 <= j < |s| ==> (s[j].t <= upto.value <==> j < m)
    ensures var out := Built(s, seconds, upto);
            && OnTheClock(s[..m], seconds, out, midnight, upto.Some?)
            && (forall i: nat, j: nat | i < |out| && j < m ::
                  Offset(out, i) <= j < Offset(out, i) + out[i].n
                  <==> midnight + out[i].k * (seconds * 1_000_000) <= s[j].t
                       && s[j].t < midnight + (out[i].k + 1) * (seconds * 1_000_000))
  {
    hide Built, OnTheClock, AsOf, Offset, Sorted;
    m := |s|;
    if upto.Some? {
      m := AsOfIsPrefix(s, upto.value);
    }
    assert Source(s, upto) == s[..m];
    midnight := BuiltOnClock(s, seconds, upto);
    SortedPrefix(s, m);
    var out := Built(s, seconds, upto);
    forall i: nat, j: nat | i < |out| && j < m
      ensures Offset(out, i) <= j < Offset(out, i) + out[i].n
              <==> midnight + out[i].k * (seconds * 1_000_000) <= s[j].t
                   && s[j].t < midnight + (out[i].k + 1) * (seconds * 1_000_000)
    {
      HoldsItsStretch(s[..m], seconds, out, midnight, upto.Some?, i, j);
      assert s[..m][j] == s[j];
    }
  }

  lemma SortedPrefix(s: Series, m: nat)
    requires Sorted(s) && m <= |s|
    ensures Sorted(s[..m])
  {
  }

  /** The bar that holds a tick. */
  lemma Holder(src: Series, out: seq<Bar>, j: nat) returns (i: nat)
    requires Offset(out, |out|) == |src| && j < |src|
    ensures i < |out| && Offset(out, i) <= j < Offset(out, i) + out[i].n
  {
    hide Offset;
    i := |out|;
    while Offset(out, i) > j
      invariant i <= |out|
      decreases i
      invariant i < |out| ==> j < Offset(out, i) + out[i].n
      invariant i == |out| ==> j < Offset(out, i)
    {
      NoOffset(out);
      OffsetNext(out, i - 1);
      i := i - 1;
    }
  }

  lemma {:induction false} LaterStretch(src: Series, seconds: int, out: seq<Bar>, midnight: int, watched: bool,
                                        a: nat, b: nat)
    requires seconds > 0 && Sorted(src) && OnTheClock(src, seconds, out, midnight, watched) && a < b < |out|
    ensures out[a].k < out[b].k
    decreases b
  {
    hide Offset, Sorted, InStretch, AllIn, IsBarOf;
    OffsetNext(out, b - 1);
    NextStretch(src, midnight, seconds * 1_000_000, out[b - 1], out[b], Offset(out, b - 1), Offset(out, b));
    if a < b - 1 {
      LaterStretch(src, seconds, out, midnight, watched, a, b - 1);
    }
  }

  lemma NextStretch(src: Series, midnight: int, width: int, a: Bar, b: Bar, from: nat, mid: nat)
    requires width > 0 && Sorted(src) && a.k != b.k && mid == from + a.n
    requires src != [] ==> midnight <= src[0].t
    requires IsBarOf(src, a, from, mid) && AllIn(src, midnight, a.k, width, from, mid)
    requires IsBarOf(src, b, mid, mid + b.n) && AllIn(src, midnight, b.k, width, mid, mid + b.n)
    ensures a.k < b.k
  {
    assert midnight <= src[from].t <= src[mid].t;
    StretchesInOrder(src[from].t, src[mid].t, midnight, a.k, b.k, width);
  }

  lemma StretchesInOrder(t: int, u: int, midnight: int, a: int, b: int, width: int)
    requires width > 0 && midnight <= t <= u
    requires InStretch(t, midnight, a, width) && InStretch(u, midnight, b, width)
    ensures a <= b
  {
    MulSign(a - b, width);
    assert (a - b) * width == a * width - b * width;
    assert (b + 1) * width == b * width + width;
  }

  lemma InBar(src: Series, seconds: int, out: seq<Bar>, midnight: int, watched: bool, i: nat, j: nat)
    requires OnTheClock(src, seconds, out, midnight, watched)
    requires i < |out| && Offset(out, i) <= j < Offset(out, i) + out[i].n
    ensures j < |src| && InStretch(src[j].t, midnight, out[i].k, seconds * 1_000_000)
  {
    hide Offset, InStretch;
  }

  lemma AfterMidnight(src: Series, seconds: int, out: seq<Bar>, midnight: int, watched: bool, j: nat)
    requires Sorted(src) && OnTheClock(src, seconds, out, midnight, watched) && j < |src|
    ensures midnight <= src[0].t <= src[j].t
  {
    hide Offset, AllIn, IsBarOf;
  }

  lemma HoldsItsStretch(src: Series, seconds: int, out: seq<Bar>, midnight: int, watched: bool, i: nat, j: nat)
    requires seconds > 0 && Sorted(src) && OnTheClock(src, seconds, out, midnight, watched)
    requires i < |out| && j < |src|
    ensures Offset(out, i) <= j < Offset(out, i) + out[i].n <==>
            midnight + out[i].k * (seconds * 1_000_000) <= src[j].t
            && src[j].t < midnight + (out[i].k + 1) * (seconds * 1_000_000)
  {
    hide Offset, Sorted, IsBarOf, AllIn;
    AfterMidnight(src, seconds, out, midnight, watched, j);
    if Offset(out, i) <= j < Offset(out, i) + out[i].n {
      InBar(src, seconds, out, midnight, watched, i, j);
    } else if InStretch(src[j].t, midnight, out[i].k, seconds * 1_000_000) {
      var h := HolderOfTick(src, seconds, out, midnight, watched, j);
      InBar(src, seconds, out, midnight, watched, h, j);
      OneStretch(src[j].t, midnight, out[i].k, out[h].k, seconds * 1_000_000);
      if i < h {
        LaterStretch(src, seconds, out, midnight, watched, i, h);
      } else {
        LaterStretch(src, seconds, out, midnight, watched, h, i);
      }
    }
  }

  lemma HolderOfTick(src: Series, seconds: int, out: seq<Bar>, midnight: int, watched: bool, j: nat)
    returns (i: nat)
    requires OnTheClock(src, seconds, out, midnight, watched) && j < |src|
    ensures i < |out| && Offset(out, i) <= j < Offset(out, i) + out[i].n
  {
    hide Offset, AllIn, IsBarOf;
    i := Holder(src, out, j);
  }
}

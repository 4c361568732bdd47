/** Timeframes cannot disagree: wider bars are roll-ups of narrower ones. */
module Timeframes {
  import opened Ticks
  import opened Candles

  function Merge(a: Bar, b: Bar): Bar {
    Bar(a.k, a.o, Max(a.h, b.h), Min(a.l, b.l), b.c, a.n + b.n, a.partial || b.partial, a.firstT, b.lastT)
  }

  /** Bars `m` times as wide, computed from bars alone: first open, highest high, lowest low, last
      close, summed count. */
  function RollUp(bs: seq<Bar>, m: int): (rs: seq<Bar>)
    requires m > 0
    ensures rs == [] <==> bs == []
  {
    if bs == [] then []
    else
      var rs := RollUp(bs[..|bs| - 1], m);
      var b := bs[|bs| - 1].(k := bs[|bs| - 1].k / m);
      if rs != [] && rs[|rs| - 1].k == b.k then rs[|rs| - 1 := Merge(rs[|rs| - 1], b)] else rs + [b]
  }

  lemma DivDiv(x: int, a: int, m: int)
    requires a > 0 && m > 0
    ensures a * m > 0 && x / a / m == x / (a * m)
  {
    var q, r := x / a, x % a;
    var p, u := q / m, q % m;
    Split(q, r, p, u, a, m);
    DivUnique(x, a * m, p, u * a + r);
  }

  lemma Split(q: int, r: int, p: int, u: int, a: int, m: int)
    requires a > 0 && m > 0 && q == p * m + u && 0 <= r < a && 0 <= u < m
    ensures a * m > 0 && q * a + r == p * (a * m) + (u * a + r) && 0 <= u * a + r < a * m
  {
    Times(m - 1 - u, a);
    Times(u, a);
    Times(m - 1, a);
    assert u * a + (m - 1 - u) * a == (m - 1) * a == a * m - a;
    assert q * a == (p * m) * a + u * a == p * (a * m) + u * a;
  }

  lemma Times(x: int, y: int)
    requires x >= 0 && y > 0
    ensures x * y >= 0 && y * (x + 1) == x * y + y > 0
  {
  }

  lemma RollUpSnoc(bs: seq<Bar>, b: Bar, m: int)
    requires m > 0
    ensures RollUp(bs + [b], m) ==
              var rs := RollUp(bs, m);
              var c := b.(k := b.k / m);
              if rs != [] && rs[|rs| - 1].k == c.k then rs[|rs| - 1 := Merge(rs[|rs| - 1], c)] else rs + [c]
  {
    assert (bs + [b])[..|bs|] == bs;
  }

  /** Rolling up commutes with adding a tick. */
  lemma RollUpAdd(bs: seq<Bar>, x: Tick, k: int, m: int)
    requires m > 0
    ensures RollUp(AddTick(bs, x, k), m) == AddTick(RollUp(bs, m), x, k / m)
  {
    hide RollUp;
    if bs != [] && bs[|bs| - 1].k == k {
      var init, b := bs[..|bs| - 1], bs[|bs| - 1];
      assert bs == init + [b] && AddTick(bs, x, k) == init + [Absorb(b, x)];
      RollUpSnoc(init, b, m);
      RollUpSnoc(init, Absorb(b, x), m);
    } else {
      RollUpSnoc(bs, OneTick(x, k), m);
    }
  }

  /** Rolling up the bars of any ticks, sorted or not, gives exactly the wider bars of those ticks. */
  lemma {:induction false} RollUpBars(s: Series, origin: int, a: int, m: int, n: nat)
    requires a > 0 && m > 0 && a * m > 0 && n <= |s|
    ensures RollUp(Bars(s, origin, a, n), m) == Bars(s, origin, a * m, n)
  {
    hide WholeSeconds, RollUp, AddTick;
    if n == 0 {
      NoRollUp(m);
    } else {
      RollUpBars(s, origin, a, m, n - 1);
      var k := Bucket(s[n - 1].t, origin, a);
      DivDiv(WholeSeconds(s[n - 1].t, origin), a, m);
      RollUpAdd(Bars(s, origin, a, n - 1), s[n - 1], k, m);
    }
  }

  lemma NoRollUp(m: int)
    requires m > 0
    ensures RollUp([], m) == []
  {
  }

  /** All views an observer has, or all views of the finished session, are roll-ups of one another. */
  lemma TimeframesAgree(s: Series, a: int, m: int, upto: Option<int>)
    requires a > 0 && m > 0 && a * m > 0
    ensures RollUp(Built(s, a, upto), m) == Built(s, a * m, upto)
  {
    hide Bars, Merge;
    var src := Source(s, upto);
    if src != [] {
      var origin := Midnight(src[0].t);
      RollUpBars(src, origin, a, m, |src|);
      if upto.Some? {
        RollUpPartial(Bars(src, origin, a, |src|), m);
      }
    }
  }

  lemma RollUpPartial(bs: seq<Bar>, m: int)
    requires m > 0 && bs != []
    ensures RollUp(MarkPartial(bs), m) == MarkPartial(RollUp(bs, m))
  {
    var init, b := bs[..|bs| - 1], bs[|bs| - 1];
    assert bs == init + [b] && MarkPartial(bs) == init + [b.(partial := true)];
    RollUpSnoc(init, b, m);
    RollUpSnoc(init, b.(partial := true), m);
  }

  /** The four timeframes of a session. */
  datatype Frame = Frame(tenSeconds: seq<Bar>, thirtySeconds: seq<Bar>, oneMinute: seq<Bar>, fiveMinutes: seq<Bar>)

  function FrameOf(s: Series, upto: Option<int>): (f: Frame)
    ensures f.tenSeconds == Built(s, 10, upto)
    ensures f.thirtySeconds == RollUp(f.tenSeconds, 3)
    ensures f.oneMinute == RollUp(f.thirtySeconds, 2)
    ensures f.fiveMinutes == RollUp(f.oneMinute, 5)
  {
    TimeframesAgree(s, 10, 3, upto);
    TimeframesAgree(s, 30, 2, upto);
    TimeframesAgree(s, 60, 5, upto);
    Frame(Built(s, 10, upto), Built(s, 30, upto), Built(s, 60, upto), Built(s, 300, upto))
  }
}

/** The shape fields that every bar is decorated with. */
module BarShape {
  import opened Ticks
  import opened Candles
  import opened RealFacts

  datatype Course = Rising | Falling | Level

  /** Velocity is in points a minute; the two shares are missing for a bar without range. */
  datatype Shape = Shape(range: real, body: real, upperWick: real, lowerWick: real, course: Course,
                         bodyShare: Option<real>, closeAt: Option<real>, velocity: real)

  /** The time a bar spans, in minutes; its nominal length if all its ticks share an instant. */
  function Minutes(b: Bar, seconds: int): (m: real)
    requires seconds > 0
    ensures m != 0.0 && (b.firstT <= b.lastT ==> m > 0.0)
  {
    (if b.lastT != b.firstT then (b.lastT - b.firstT) as real / MICROS as real else seconds as real) / 60.0
  }

  function Decorate(b: Bar, seconds: int): Shape
    requires seconds > 0
  {
    var range, body := b.h - b.l, b.c - b.o;
    Shape(range, body, b.h - Max(b.o, b.c), Min(b.o, b.c) - b.l,
          if body > 0.0 then Rising else if body < 0.0 then Falling else Level,
          if range != 0.0 then Some(Abs(body) / range) else None,
          if range != 0.0 then Some((b.c - b.l) / range) else None,
          Abs(body) / Minutes(b, seconds))
  }

  /** Open and close lie between low and high. */
  predicate Sane(b: Bar) {
    b.l <= b.o <= b.h && b.l <= b.c <= b.h && b.firstT <= b.lastT
  }

  /** Every bar is sane and ended by instant `t`. */
  ghost predicate AllSane(bs: seq<Bar>, t: int) {
    forall i :: 0 <= i < |bs| ==> Sane(bs[i]) && bs[i].lastT <= t
  }

  lemma StaysSane(bs: seq<Bar>, t: int, x: Tick, k: int)
    requires AllSane(bs, t) && (bs != [] ==> t <= x.t)
    ensures AllSane(AddTick(bs, x, k), x.t)
  {
  }

  /** So is every bar of a time-sorted series. */
  lemma {:induction false} BarsAreSane(s: Series, origin: int, seconds: int, n: nat)
    requires seconds > 0 && n <= |s| && Sorted(s)
    ensures AllSane(Bars(s, origin, seconds, n), if n > 0 then s[n - 1].t else 0)
  {
    hide Bucket, Sorted, AllSane, AddTick;
    if n == 0 {
      NoBarIsSane();
    } else {
      BarsAreSane(s, origin, seconds, n - 1);
      if n > 1 {
        InOrder(s, n - 1);
      }
      StaysSane(Bars(s, origin, seconds, n - 1), if n > 1 then s[n - 2].t else 0, s[n - 1],
                Bucket(s[n - 1].t, origin, seconds));
    }
  }

  lemma NoBarIsSane()
    ensures AllSane([], 0)
  {
  }

  lemma InOrder(s: Series, n: nat)
    requires Sorted(s) && 1 <= n < |s|
    ensures s[n - 1].t <= s[n].t
  {
  }

  /** Wicks and body make up the range; the shares are shares, missing exactly for a bar without range,
      which then has one price only; and the velocity is zero exactly for a bar that closes where it
      opened. */
  ghost predicate IsSound(b: Bar, d: Shape) {
    && d.upperWick >= 0.0 && d.lowerWick >= 0.0
    && d.upperWick + Abs(d.body) + d.lowerWick == d.range
    && (d.bodyShare.Some? <==> d.range > 0.0) && (d.closeAt.Some? <==> d.range > 0.0)
    && (d.bodyShare.Some? ==> 0.0 <= d.bodyShare.value <= 1.0 && 0.0 <= d.closeAt.value <= 1.0)
    && (d.range == 0.0 ==> b.o == b.h == b.l == b.c)
    && d.velocity >= 0.0 && (d.velocity == 0.0 <==> d.course == Level)
  }

  lemma ShapeIsSound(b: Bar, seconds: int)
    requires seconds > 0 && Sane(b)
    ensures IsSound(b, Decorate(b, seconds))
  {
    var range, body := b.h - b.l, Abs(b.c - b.o);
    if range != 0.0 {
      ShareOfWhole(body, range);
      ShareOfWhole(b.c - b.l, range);
    }
    Pace(body, Minutes(b, seconds));
  }

  lemma Pace(x: real, minutes: real)
    requires x >= 0.0 && minutes > 0.0
    ensures x / minutes >= 0.0 && (x / minutes == 0.0 <==> x == 0.0)
  {
  }

  /** Every bar built from a time-sorted series is sane, with and without an instant. */
  lemma BuiltAreSane(s: Series, seconds: int, upto: Option<int>, i: nat)
    requires seconds > 0 && Sorted(s) && i < |Built(s, seconds, upto)|
    ensures Sane(Built(s, seconds, upto)[i])
  {
    hide Bars, AsOf, Midnight;
    var m := |s|;
    if upto.Some? {
      m := AsOfIsPrefix(s, upto.value);
    }
    var src := s[..m];
    assert Source(s, upto) == src;
    BarsAreSane(src, Midnight(src[0].t), seconds, |src|);
  }

  /** What is returned to the caller: the bars, each with its shape. */
  method BuildDecorated(series: Series, seconds: int, upto: Option<int>) returns (out: seq<Bar>, shapes: seq<Shape>)
    requires seconds > 0
    ensures out == Built(series, seconds, upto) && |shapes| == |out|
    ensures forall i :: 0 <= i < |out| ==> shapes[i] == Decorate(out[i], seconds)
    ensures Sorted(series) ==> forall i :: 0 <= i < |out| ==> IsSound(out[i], shapes[i])
  {
    hide Decorate, IsSound, Sane, Built, Sorted;
    out := Build(series, seconds, upto);
    shapes := [];
    for k := 0 to |out|
      invariant |shapes| == k && forall i :: 0 <= i < k ==> shapes[i] == Decorate(out[i], seconds)
      invariant Sorted(series) ==> forall i :: 0 <= i < k ==> IsSound(out[i], shapes[i])
    {
      shapes := shapes + [Decorate(out[k], seconds)];
      if Sorted(series) {
        BuiltAreSane(series, seconds, upto, k);
        ShapeIsSound(out[k], seconds);
      }
    }
  }

  /** What the shape says, on any bar: a rising bar closed above its open; the wicks reach from the body to
      the extremes; the shares are shares of the range; and the velocity is points a minute over the time
      from the first to the last tick, or over the bar's nominal length if that is nothing. */
  lemma ShapeMeans(b: Bar, seconds: int)
    requires seconds > 0
    ensures var d := Decorate(b, seconds);
            && (d.course == Rising <==> b.c > b.o) && (d.course == Falling <==> b.c < b.o)
            && d.range == b.h - b.l && d.body == b.c - b.o
            && (b.c >= b.o ==> d.upperWick == b.h - b.c && d.lowerWick == b.o - b.l)
            && (b.c <= b.o ==> d.upperWick == b.h - b.o && d.lowerWick == b.c - b.l)
            && (if b.h == b.l then d.bodyShare == None == d.closeAt
                else
                  && d.bodyShare.Some? && d.closeAt.Some?
                  && d.bodyShare.value * (b.h - b.l) == (if b.c < b.o then b.o - b.c else b.c - b.o)
                  && d.closeAt.value * (b.h - b.l) == b.c - b.l)
            && d.velocity * (if b.lastT != b.firstT then (b.lastT - b.firstT) as real / 1_000_000.0
                             else seconds as real)
               == 60.0 * (if b.c < b.o then b.o - b.c else b.c - b.o)
  {
    hide Minutes;
    var body, m := Abs(b.c - b.o), Minutes(b, seconds);
    MinutesAre(b, seconds);
    if b.h != b.l {
      Ratio(body, b.h - b.l);
      Ratio(b.c - b.l, b.h - b.l);
    }
    Ratio(body, m);
    assert body / m * (60.0 * m) == 60.0 * (body / m * m);
  }

  lemma MinutesAre(b: Bar, seconds: int)
    requires seconds > 0
    ensures 60.0 * Minutes(b, seconds) == if b.lastT != b.firstT then (b.lastT - b.firstT) as real / 1_000_000.0
                                          else seconds as real
  {
  }
}

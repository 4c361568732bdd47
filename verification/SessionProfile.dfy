/** The daily numbers of `session_profile`, and how they bound one another. */
module SessionProfile {
  import opened Ticks
  import MaxMove
  import opened Zigzag
  import opened Legs
  import opened LegFacts

  /** The largest move inside any window of `seconds`. */
  datatype WindowMove = WindowMove(seconds: int, up: real, down: real)

  datatype Profile = Profile(open: real, close: real, high: Tick, low: Tick, n: nat,
                             windows: seq<WindowMove>, legCounts: seq<nat>,
                             largestUp: Option<Leg>, largestDown: Option<Leg>)

  const WINDOWS: seq<int> := [10, 30, 60, 300, 600, 1800]
  const LEG_THRESHOLDS: seq<real> := [5.0, 10.0, 15.0, 25.0]

  /** A move that a rolling window really reached and never exceeded. */
  ghost predicate IsWindowMove(s: Series, m: WindowMove) {
    && (exists at :: MaxMove.Largest(s, m.seconds * MICROS, true, |s|, m.up, at))
    && (exists at :: MaxMove.Largest(s, m.seconds * MICROS, false, |s|, m.down, at))
  }

  /** The first tick that goes furthest in the named direction. */
  ghost predicate FirstFurthest(s: Series, up: bool, x: Tick) {
    && (forall k :: 0 <= k < |s| ==> Along(up, s[k].p) <= Along(up, x.p))
    && exists k :: 0 <= k < |s| && s[k] == x && forall j :: 0 <= j < k ==> Along(up, s[j].p) < Along(up, x.p)
  }

  /** The first leg that goes furthest in the named direction; none if no leg goes that way. */
  ghost predicate IsLargestLeg(legs: seq<Leg>, up: bool, r: Option<Leg>) {
    && (r.None? <==> forall i :: 0 <= i < |legs| ==> Along(up, legs[i].move) <= 0.0)
    && (r.Some? ==>
          && Along(up, r.value.move) > 0.0
          && (forall i :: 0 <= i < |legs| ==> Along(up, legs[i].move) <= Along(up, r.value.move))
          && exists k :: 0 <= k < |legs| && legs[k] == r.value
                         && forall j :: 0 <= j < k ==> Along(up, legs[j].move) < Along(up, r.value.move))
  }

  method Extremes(s: Series) returns (high: Tick, low: Tick)
    requires s != []
    ensures FirstFurthest(s, true, high) && FirstFurthest(s, false, low)
    ensures forall k :: 0 <= k < |s| ==> low.p <= s[k].p <= high.p
  {
    high, low := s[0], s[0];
    ghost var h, l := 0, 0;
    for i := 1 to |s|
      invariant 0 <= h < i && 0 <= l < i && high == s[h] && low == s[l]
      invariant forall k :: 0 <= k < i ==> low.p <= s[k].p <= high.p
      invariant forall j :: 0 <= j < h ==> s[j].p < high.p
      invariant forall j :: 0 <= j < l ==> low.p < s[j].p
    {
      if s[i].p > high.p {
        high, h := s[i], i;
      }
      if s[i].p < low.p {
        low, l := s[i], i;
      }
    }
  }

  method LargestLeg(legs: seq<Leg>, up: bool) returns (r: Option<Leg>)
    ensures IsLargestLeg(legs, up, r)
  {
    r := None;
    ghost var at := 0;
    for i := 0 to |legs|
      invariant r.None? <==> forall k :: 0 <= k < i ==> Along(up, legs[k].move) <= 0.0
      invariant r.Some? ==> at < i && legs[at] == r.value && Along(up, r.value.move) > 0.0
      invariant r.Some? ==> forall k :: 0 <= k < i ==> Along(up, legs[k].move) <= Along(up, r.value.move)
      invariant r.Some? ==> forall k :: 0 <= k < at ==> Along(up, legs[k].move) < Along(up, r.value.move)
    {
      var g := legs[i];
      if Along(up, g.move) > 0.0 && (r.None? || Along(up, g.move) > Along(up, r.value.move)) {
        r, at := Some(g), i;
      }
    }
  }

  /** The largest move never shrinks as the window widens, and never exceeds the day's range. */
  lemma WindowsNest(s: Series, a: WindowMove, b: WindowMove, low: real, high: real)
    requires IsWindowMove(s, a) && IsWindowMove(s, b) && a.seconds <= b.seconds
    requires low <= high && forall k :: 0 <= k < |s| ==> low <= s[k].p <= high
    ensures a.up <= b.up <= high - low
    ensures a.down <= b.down <= high - low
  {
    var up1 :| MaxMove.Largest(s, a.seconds * MICROS, true, |s|, a.up, up1);
    var up2 :| MaxMove.Largest(s, b.seconds * MICROS, true, |s|, b.up, up2);
    var dn1 :| MaxMove.Largest(s, a.seconds * MICROS, false, |s|, a.down, dn1);
    var dn2 :| MaxMove.Largest(s, b.seconds * MICROS, false, |s|, b.down, dn2);
    MaxMove.WiderIsLarger(s, a.seconds * MICROS, b.seconds * MICROS, true, a.up, up1, b.up, up2);
    MaxMove.WiderIsLarger(s, a.seconds * MICROS, b.seconds * MICROS, false, a.down, dn1, b.down, dn2);
    MaxMove.BoundedByRange(s, b.seconds * MICROS, true, b.up, up2, low, high);
    MaxMove.BoundedByRange(s, b.seconds * MICROS, false, b.down, dn2, low, high);
  }

  /** The six rolling windows, from the narrowest to the widest. */
  method Windows(s: Series, low: real, high: real) returns (windows: seq<WindowMove>)
    requires low <= high && forall k :: 0 <= k < |s| ==> low <= s[k].p <= high
    ensures |windows| == |WINDOWS| && forall i :: 0 <= i < |WINDOWS| ==> windows[i].seconds == WINDOWS[i]
    ensures Sorted(s) ==> Nested(windows, high - low) && forall i :: 0 <= i < |WINDOWS| ==> IsWindowMove(s, windows[i])
  {
    hide MaxMove.Largest, Sorted;
    windows := [];
    for i := 0 to |WINDOWS|
      invariant |windows| == i && forall k :: 0 <= k < i ==> windows[k].seconds == WINDOWS[k]
      invariant Sorted(s) ==> forall k :: 0 <= k < i ==> IsWindowMove(s, windows[k])
    {
      var m := MaxMove.Compute(s, WINDOWS[i]);
      windows := windows + [WindowMove(WINDOWS[i], m.up, m.down)];
    }
    if Sorted(s) {
      forall i, j | 0 <= i <= j < |windows|
        ensures windows[i].up <= windows[j].up <= high - low && windows[i].down <= windows[j].down <= high - low
      {
        WindowsNest(s, windows[i], windows[j], low, high);
      }
    }
  }

  /** Neither direction shrinks from one window to a wider one, nor exceeds `range`. */
  ghost predicate Nested(ws: seq<WindowMove>, range: real) {
    forall i, j :: 0 <= i <= j < |ws| ==>
      ws[i].up <= ws[j].up <= range && ws[i].down <= ws[j].down <= range
  }

  method LegCounts(s: Series) returns (counts: seq<nat>)
    ensures |counts| == |LEG_THRESHOLDS|
    ensures forall i :: 0 <= i < |LEG_THRESHOLDS| ==> counts[i] == |Swings(s, LEG_THRESHOLDS[i])|
  {
    hide Swings, MakeLeg;
    counts := [];
    for i := 0 to |LEG_THRESHOLDS|
      invariant |counts| == i && forall k :: 0 <= k < i ==> counts[k] == |Swings(s, LEG_THRESHOLDS[k])|
    {
      var legs := Legs.Compute(s, LEG_THRESHOLDS[i]);
      counts := counts + [|legs|];
    }
  }

  /** The profile; `None` stands for the empty dictionary of a session of fewer than three ticks. */
  method Compute(s: Series) returns (r: Option<Profile>)
    ensures r.None? <==> |s| < 3
    ensures r.Some? ==>
              var p := r.value;
              && p.open == s[0].p && p.close == s[|s| - 1].p && p.n == |s|
              && FirstFurthest(s, true, p.high) && FirstFurthest(s, false, p.low)
              && |p.windows| == 6 && p.windows[0].seconds == 10 && p.windows[1].seconds == 30
              && p.windows[2].seconds == 60 && p.windows[3].seconds == 300
              && p.windows[4].seconds == 600 && p.windows[5].seconds == 1800
              && (Sorted(s) ==> Nested(p.windows, p.high.p - p.low.p))
              && (Sorted(s) ==> forall i :: 0 <= i < 6 ==> IsWindowMove(s, p.windows[i]))
              && p.legCounts == [|Swings(s, 5.0)|, |Swings(s, 10.0)|, |Swings(s, 15.0)|, |Swings(s, 25.0)|]
              && (exists legs :: Recorded(s, Swings(s, 5.0), legs)
                    && IsLargestLeg(legs, true, p.largestUp) && IsLargestLeg(legs, false, p.largestDown))
              && (p.largestUp.Some? ==> 5.0 <= p.largestUp.value.move <= p.high.p - p.low.p)
              && (p.largestDown.Some? ==> 5.0 <= -p.largestDown.value.move <= p.high.p - p.low.p)
  {
    hide Swings, Sorted, Nested, Recorded, IsWindowMove;
    if |s| < 3 {
      return None;
    }
    var high, low := Extremes(s);
    var windows := Windows(s, low.p, high.p);
    var counts := LegCounts(s);
    var legs := Legs.Compute(s, 5.0);
    var up := LargestLeg(legs, true);
    var down := LargestLeg(legs, false);
    if up.Some? {
      LegInRange(s, 5.0, legs, up.value, low.p, high.p);
    }
    if down.Some? {
      LegInRange(s, 5.0, legs, down.value, low.p, high.p);
    }
    r := Some(Profile(s[0].p, s[|s| - 1].p, high, low, |s|, windows, counts, up, down));
  }

  lemma LegInRange(s: Series, th: real, legs: seq<Leg>, g: Leg, low: real, high: real)
    requires 2 <= |s| && th > 0.0 && Recorded(s, Swings(s, th), legs) && g in legs
    requires forall k :: 0 <= k < |s| ==> low <= s[k].p <= high
    ensures th <= Abs(g.move) <= high - low
  {
    hide Run, Spans, MakeLeg;
    AnyTicksAreSound(s, th, |s|);
    var i :| 0 <= i < |legs| && legs[i] == g;
    var w := Swings(s, th)[i];
    MoveOf(s[w.a], s[w.b], s);
    SpanInRange(s, th, w, low, high);
  }

  lemma MoveOf(a: Tick, b: Tick, s: Series)
    ensures MakeLeg(a, b, s).move == b.p - a.p
  {
  }

  lemma SpanInRange(s: Series, th: real, w: Swing, low: real, high: real)
    requires th > 0.0 && Spans(s, th, w)
    requires forall k :: 0 <= k < |s| ==> low <= s[k].p <= high
    ensures th <= Abs(s[w.b].p - s[w.a].p) <= high - low
  {
  }
}

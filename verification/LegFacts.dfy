/** What the reported legs are worth: exact excursions, and no hindsight. */
module LegFacts {
  import opened Ticks
  import opened Zigzag
  import opened Legs

  /** Whatever the ticks, even unsorted or with repeated instants: legs start at the first tick and
      chain, each spans at least the threshold and is confirmed by a retracement of at least the
      threshold, and ends strictly later than it starts. */
  ghost predicate Sound(s: Series, th: real, z: State) {
    && Bounded(z.swings, |s|) && z.pivot < |s|
    && (forall i :: 0 <= i < |z.swings| ==> Spans(s, th, z.swings[i]))
    && (forall i, j :: 0 <= i < j < |z.swings| && j == i + 1 ==> z.swings[i].b == z.swings[j].a)
    && (if z.swings == [] then z.pivot == 0 else z.swings[0].a == 0 && z.swings[|z.swings| - 1].b == z.pivot)
  }

  ghost predicate Spans(s: Series, th: real, w: Swing) {
    && w.a < w.b <= w.at < |s|
    && s[w.a].t < s[w.b].t
    && (|| (s[w.b].p - s[w.a].p >= th && s[w.b].p - s[w.at].p >= th)
        || (s[w.a].p - s[w.b].p >= th && s[w.at].p - s[w.b].p >= th))
  }

  lemma {:induction false} AnyTicksAreSound(s: Series, th: real, n: nat)
    requires 1 <= n <= |s|
    ensures Sound(s, th, Run(s, th, n))
  {
    if n > 1 {
      AnyTicksAreSound(s, th, n - 1);
      SoundStep(s, th, n - 1);
    }
  }

  lemma SoundStep(s: Series, th: real, n: nat)
    requires 1 <= n < |s| && Sound(s, th, Run(s, th, n))
    ensures Sound(s, th, Run(s, th, n + 1))
  {
    hide Step, Run;
    var z, z' := Run(s, th, n), Run(s, th, n + 1);
    StepOnTicks(s, th, n, if s[n].p > s[z.hi].p then s[n] else s[z.hi], if s[n].p < s[z.lo].p then s[n] else s[z.lo]);
    var w := Swing(z.pivot, z'.pivot, n);
    if z'.swings != z.swings {
      assert Spans(s, th, w);
      assert z'.swings == z.swings + [w];
    }
  }

  // ----- what each record says, on any ticks -----

  /** Tick `k` is stamped inside the record. */
  predicate StampedIn(s: Series, g: Leg, k: nat) {
    k < |s| && g.start <= s[k].t <= g.end
  }

  /** How far tick `k` is from the price `from`, counted along the record's direction. */
  function Excursion(s: Series, g: Leg, from: real, k: nat): real
    requires k < |s|
  {
    if g.move > 0.0 then s[k].p - from else from - s[k].p
  }

  /** The highest and lowest price of the ticks stamped inside. */
  ghost predicate PricesExact(s: Series, g: Leg) {
    && (forall k: nat :: StampedIn(s, g, k) ==> g.lo <= s[k].p <= g.hi)
    && (exists k: nat :: StampedIn(s, g, k) && s[k].p == g.hi)
    && (exists k: nat :: StampedIn(s, g, k) && s[k].p == g.lo)
  }

  /** The furthest any of them goes along the direction, and the furthest against it. */
  ghost predicate ExcursionsExact(s: Series, g: Leg, from: real) {
    && (forall k: nat :: StampedIn(s, g, k) ==> g.mae <= Excursion(s, g, from, k) <= g.mfe)
    && (exists k: nat :: StampedIn(s, g, k) && Excursion(s, g, from, k) == g.mfe)
    && (exists k: nat :: StampedIn(s, g, k) && Excursion(s, g, from, k) == g.mae)
  }

  /** The record of a leg from tick `a` to tick `b`: its stamps, duration, move and direction, and the
      exact extremes of all ticks stamped inside, in price and along the direction. */
  ghost predicate IsExactRecord(s: Series, a: nat, b: nat, g: Leg) {
    && a < |s| && b < |s|
    && g.start == s[a].t && g.end == s[b].t && g.dur == g.end - g.start
    && g.move == s[b].p - s[a].p && (g.up <==> s[b].p > s[a].p)
    && PricesExact(s, g) && ExcursionsExact(s, g, s[a].p)
  }

  /** On any ticks, sorted or not, every record that is reported is exact, the first leg's included. */
  lemma RecordsAreExact(s: Series, th: real, out: seq<Leg>, i: nat)
    requires Recorded(s, Swings(s, th), out) && i < |out|
    ensures var w := Swings(s, th)[i]; IsExactRecord(s, w.a, w.b, out[i])
  {
    hide Run, MakeLeg, IsExactRecord;
    AnyTicksAreSound(s, th, |s|);
    var w := Swings(s, th)[i];
    assert Spans(s, th, w);
    MadeExactly(s, w.a, w.b);
  }

  lemma MadeExactly(s: Series, a: nat, b: nat)
    requires a < |s| && b < |s| && s[a].t <= s[b].t
    ensures IsExactRecord(s, a, b, MakeLeg(s[a], s[b], s))
  {
    hide Inside, Prices, Excursions, MaxOf, MinOf, PricesExact, ExcursionsExact;
    var g := MakeLeg(s[a], s[b], s);
    var ks := Inside(s, |s|, s[a].t, s[b].t);
    assert a in ks;
    var seg := Prices(s, ks);
    var xs := Excursions(g.up, s[a].p, seg);
    PricesAreExact(s, g, ks, seg);
    ExcursionsAreExact(s, g, ks, s[a].p, xs);
  }

  /** `ks` are the indices of the ticks stamped inside. */
  ghost predicate Collects(s: Series, g: Leg, ks: seq<nat>) {
    ks != [] && forall k: nat :: k in ks <==> StampedIn(s, g, k)
  }

  lemma PricesAreExact(s: Series, g: Leg, ks: seq<nat>, seg: seq<real>)
    requires Collects(s, g, ks) && |seg| == |ks|
    requires forall j :: 0 <= j < |ks| ==> ks[j] < |s| && seg[j] == s[ks[j]].p
    requires g.hi == MaxOf(seg) && g.lo == MinOf(seg)
    ensures PricesExact(s, g)
  {
    hide MaxOf, MinOf, StampedIn;
    var h :| 0 <= h < |seg| && seg[h] == g.hi;
    var l :| 0 <= l < |seg| && seg[l] == g.lo;
    assert ks[h] in ks && ks[l] in ks;
    forall k: nat | StampedIn(s, g, k)
      ensures k < |s| && g.lo <= s[k].p <= g.hi
    {
      var j :| 0 <= j < |ks| && ks[j] == k;
      assert seg[j] == s[k].p;
    }
  }

  lemma ExcursionsAreExact(s: Series, g: Leg, ks: seq<nat>, from: real, xs: seq<real>)
    requires Collects(s, g, ks) && |xs| == |ks|
    requires forall j :: 0 <= j < |ks| ==> ks[j] < |s| && xs[j] == Excursion(s, g, from, ks[j])
    requires g.mfe == MaxOf(xs) && g.mae == MinOf(xs)
    ensures ExcursionsExact(s, g, from)
  {
    hide MaxOf, MinOf, StampedIn, Excursion;
    var f :| 0 <= f < |xs| && xs[f] == g.mfe;
    var e :| 0 <= e < |xs| && xs[e] == g.mae;
    assert ks[f] in ks && ks[e] in ks;
    forall k: nat | StampedIn(s, g, k)
      ensures k < |s| && g.mae <= Excursion(s, g, from, k) <= g.mfe
    {
      var j :| 0 <= j < |ks| && ks[j] == k;
      assert xs[j] == Excursion(s, g, from, k);
    }
  }

  /** With two ticks of one instant the threshold or more apart, legs need not alternate: here two
      rising legs in a row, because the fall between them shares its instant with the top. */
  lemma SameInstantBreaksAlternation() returns (s: Series)
    ensures Sorted(s) && |Swings(s, 5.0)| == 2
    ensures Swings(s, 5.0) == [Swing(0, 1, 2), Swing(1, 3, 4)]
    ensures |s| == 5 && s[0].p < s[1].p < s[3].p
    ensures !IsZigzag(s, 5.0, |s|, Swings(s, 5.0))
  {
    s := [Tick(0, 100.0), Tick(1, 106.0), Tick(1, 100.0), Tick(2, 112.0), Tick(3, 106.0)];
    assert Run(s, 5.0, 1) == State(0, 0, 0, []);
    assert Run(s, 5.0, 2) == State(0, 1, 0, []);
    assert Run(s, 5.0, 3) == State(1, 2, 2, [Swing(0, 1, 2)]);
    assert Run(s, 5.0, 4) == State(1, 3, 2, [Swing(0, 1, 2)]);
    assert Run(s, 5.0, 5) == State(3, 4, 4, [Swing(0, 1, 2), Swing(1, 3, 4)]);
    assert !Follows(s, Swing(0, 1, 2), Swing(1, 3, 4));
    var ws := Swings(s, 5.0);
    assert !Follows(s, ws[0], ws[1]);
  }

  /** A withheld leg need not break the alternation: here a fall within the first instant is withheld,
      the legs are not the zigzag, and still they fall and rise in turn. */
  lemma WithheldYetAlternating()
    ensures var s := WITHHELD;
            && Sorted(s) && !Unblocked(s, 5.0, |s|) && !IsZigzag(s, 5.0, |s|, Swings(s, 5.0))
            && Swings(s, 5.0) == [Swing(0, 3, 4), Swing(3, 5, 6)]
            && s[3].p < s[0].p && s[3].p < s[5].p
  {
    hide Run, Step, IsZigzag, Tail, AlwaysZigzag, Blocked;
    WithheldFirst();
    WithheldThen();
    RunReports(WITHHELD, 5.0);
    ZigzagIffUnblocked(WITHHELD, 5.0, 7);
  }

  const WITHHELD: Series := [Tick(0, 100.0), Tick(0, 106.0), Tick(0, 100.0), Tick(1, 94.0), Tick(2, 100.0),
                             Tick(3, 106.0), Tick(4, 100.0)]

  lemma WithheldFirst()
    ensures Run(WITHHELD, 5.0, 4) == State(0, 1, 3, [])
    ensures Blocked(WITHHELD, 5.0, Run(WITHHELD, 5.0, 2), 2)
  {
    assert Run(WITHHELD, 5.0, 1) == State(0, 0, 0, []);
    assert Run(WITHHELD, 5.0, 2) == State(0, 1, 0, []);
    assert Run(WITHHELD, 5.0, 3) == State(0, 1, 0, []);
  }

  lemma WithheldThen()
    ensures Run(WITHHELD, 5.0, 7) == State(5, 6, 6, [Swing(0, 3, 4), Swing(3, 5, 6)])
  {
    WithheldFirst();
    assert Run(WITHHELD, 5.0, 5) == State(3, 4, 4, [Swing(0, 3, 4)]);
    assert Run(WITHHELD, 5.0, 6) == State(3, 5, 4, [Swing(0, 3, 4)]);
  }

  lemma RunReports(s: Series, th: real)
    requires 2 <= |s|
    ensures Swings(s, th) == Run(s, th, |s|).swings
  {
  }

  /** In a zigzag, every tick stamped inside a leg, the same-instant neighbours of its ends
      included, lies between its ends; for the first leg, not behind its start by the threshold. */
  lemma InsideLeg(s: Series, th: real, ws: seq<Swing>, i: nat, k: nat)
    requires th > 0.0 && Sorted(s) && Quiet(s, th) && IsZigzag(s, th, |s|, ws)
    requires i < |ws| && k < |s| && s[ws[i].a].t <= s[k].t <= s[ws[i].b].t
    ensures var up := Up(s, ws[i]);
            && Along(up, s[k].p) <= Along(up, s[ws[i].b].p)
            && (if i == 0 then Along(up, s[ws[i].a].p) - Along(up, s[k].p) < th
                else Along(up, s[ws[i].a].p) <= Along(up, s[k].p))
  {
    var w := ws[i];
    BeforeConfirmation(s, th, w, k);
    if i == 0 {
      FirstLegHolds(s, th, w, k);
    } else if k < w.a {
      hide Chained, Undeclared, NoCounterMove;
      assert Follows(s, ws[i - 1], w) by { assert Chained(s, ws); }
      SameInstantAsStart(s, th, ws[i - 1], w, k);
    }
  }

  /** A tick no later than the end of a leg comes before the tick that confirmed it. */
  lemma BeforeConfirmation(s: Series, th: real, w: Swing, k: nat)
    requires th > 0.0 && Sorted(s) && Quiet(s, th) && Confirmed(s, th, w)
    requires k < |s| && s[k].t <= s[w.b].t
    ensures k < w.at
  {
  }

  lemma SameInstantAsStart(s: Series, th: real, v: Swing, w: Swing, k: nat)
    requires th > 0.0 && Sorted(s) && Quiet(s, th) && Confirmed(s, th, v) && Confirmed(s, th, w) && Follows(s, v, w)
    requires k < w.a && s[w.a].t <= s[k].t
    ensures Along(Up(s, w), s[w.a].p) <= Along(Up(s, w), s[k].p) <= Along(Up(s, w), s[w.b].p)
  {
    assert s[k].t == s[w.a].t;
    assert v.a < k;
  }

  lemma FirstLegHolds(s: Series, th: real, w: Swing, k: nat)
    requires th > 0.0 && Confirmed(s, th, w) && w.a == 0 && Undeclared(s, th, w.at) && k < w.at
    ensures Along(Up(s, w), s[0].p) - Along(Up(s, w), s[k].p) < th
  {
    assert !Turned(s, th, !Up(s, w), k, w.b);
    assert !Turned(s, th, Up(s, w), w.b, k);
  }

  /** The record of a leg of a zigzag: its favourable excursion is its whole move; past the first
      leg it has no adverse excursion and its ends are the exact extremes of the ticks inside; the
      first leg's adverse excursion is below the threshold. */
  lemma LegIsExact(s: Series, th: real, ws: seq<Swing>, i: nat)
    requires th > 0.0 && Sorted(s) && Quiet(s, th) && IsZigzag(s, th, |s|, ws) && i < |ws|
    ensures var a, b := s[ws[i].a], s[ws[i].b];
            var g := MakeLeg(a, b, s);
            && g.up == Up(s, ws[i])
            && g.mfe == Abs(g.move) >= th
            && (i > 0 ==> g.mae == 0.0 && g.hi == Max(a.p, b.p) && g.lo == Min(a.p, b.p))
            && -th < g.mae <= 0.0
            && (if g.up then g.hi else g.lo) == b.p
  {
    hide IsZigzag, Sorted, Quiet, LegFrom, Inside, Prices, Along, Extreme, Holds, Max, Min;
    assert Confirmed(s, th, ws[i]) by { ZigzagConfirms(s, th, ws, i); }
    var a, b := s[ws[i].a], s[ws[i].b];
    var seg := Prices(s, Inside(s, |s|, a.t, b.t));
    var ia, ib := SegmentOfLeg(s, th, ws, i, seg);
    Distance(s, th, ws[i]);
    Extremes(a, b, seg, ia, ib, th, i == 0);
  }

  /** What one reported record says of the ticks: it runs forward in time by at least the threshold,
      its favourable excursion is its whole move and its adverse one stays below the threshold; past
      the first it runs from one exact extreme of all ticks stamped inside it to the other. */
  ghost predicate IsLegRecord(s: Series, th: real, g: Leg, first: bool) {
    && g.start < g.end && g.up == (g.move > 0.0)
    && g.mfe == Abs(g.move) >= th && -th < g.mae <= 0.0
    && (exists a, b :: 0 <= a < b < |s| && Joins(s, g, a, b))
    && (!first ==>
          && g.mae == 0.0
          && (forall k :: 0 <= k < |s| && g.start <= s[k].t <= g.end ==> g.lo <= s[k].p <= g.hi)
          && exists a, b :: 0 <= a < b < |s| && Joins(s, g, a, b) && s[a].p == if g.up then g.lo else g.hi)
  }

  /** The record leads from tick `a` to tick `b`, which is its far extreme. */
  ghost predicate Joins(s: Series, g: Leg, a: nat, b: nat)
    requires a < b < |s|
  {
    && g.start == s[a].t && g.end == s[b].t && g.move == s[b].p - s[a].p
    && s[b].p == if g.up then g.hi else g.lo
  }

  /** The reported list is a zigzag: each record is as it should be, each starts where the one before
      ended and runs the other way, and the first starts at the first tick. */
  ghost predicate AreZigzagRecords(s: Series, th: real, out: seq<Leg>) {
    && (forall i :: 0 <= i < |out| ==> IsLegRecord(s, th, out[i], i == 0))
    && (forall i, j :: 0 <= i < j < |out| && j == i + 1 ==> Continues(out[i], out[j]))
    && (out != [] ==> s != [] && out[0].start == s[0].t)
  }

  ghost predicate Continues(g: Leg, h: Leg) {
    && g.end == h.start && g.up != h.up
    && if g.up then g.hi == h.hi else g.lo == h.lo
  }

  /** On quiet sorted ticks the list that `legs` returns is a zigzag of records. */
  lemma ReportedLegsAreZigzag(s: Series, th: real, out: seq<Leg>)
    requires th > 0.0 && Sorted(s) && Quiet(s, th) && Recorded(s, Swings(s, th), out)
    ensures AreZigzagRecords(s, th, out)
  {
    hide IsZigzag, Sorted, Quiet, IsLegRecord, Continues, MakeLeg, Run;
    var ws := Swings(s, th);
    if ws != [] {
      QuietMachineIsZigzag(s, th, |s|);
      forall i | 0 <= i < |ws|
        ensures IsLegRecord(s, th, out[i], i == 0)
      {
        RecordIsLeg(s, th, ws, i);
      }
      forall i, j | 0 <= i < j < |ws| && j == i + 1
        ensures Continues(out[i], out[j])
      {
        RecordContinues(s, th, ws, i);
      }
      StartsAtFirst(s, th, ws);
    }
  }

  lemma StartsAtFirst(s: Series, th: real, ws: seq<Swing>)
    requires IsZigzag(s, th, |s|, ws) && ws != []
    ensures ws[0].a == 0 && InRange(ws[0], |s|) && MakeLeg(s[ws[0].a], s[ws[0].b], s).start == s[0].t
  {
    ZigzagConfirms(s, th, ws, 0);
  }

  lemma RecordIsLeg(s: Series, th: real, ws: seq<Swing>, i: nat)
    requires th > 0.0 && Sorted(s) && Quiet(s, th) && IsZigzag(s, th, |s|, ws) && Bounded(ws, |s|) && i < |ws|
    ensures IsLegRecord(s, th, MakeLeg(s[ws[i].a], s[ws[i].b], s), i == 0)
  {
    hide IsZigzag, Sorted, Quiet, LegFrom, Inside, Prices, Extreme, Holds;
    var w := ws[i];
    var g := MakeLeg(s[w.a], s[w.b], s);
    LegIsExact(s, th, ws, i);
    LegEnds(s[w.a], s[w.b], s);
    ZigzagConfirms(s, th, ws, i);
    Distance(s, th, w);
    EndsApart(s, th, w);
    assert Joins(s, g, w.a, w.b);
    if i > 0 {
      forall k | 0 <= k < |s| && g.start <= s[k].t <= g.end
        ensures g.lo <= s[k].p <= g.hi
      {
        InsideLeg(s, th, ws, i, k);
      }
    }
  }

  lemma LegEnds(a: Tick, b: Tick, s: Series)
    ensures var g := MakeLeg(a, b, s); g.start == a.t && g.end == b.t && g.move == b.p - a.p && g.up == (g.move > 0.0)
  {
  }

  lemma EndsApart(s: Series, th: real, w: Swing)
    requires Sorted(s) && Quiet(s, th) && InRange(w, |s|) && Abs(s[w.b].p - s[w.a].p) >= th
    ensures s[w.a].t < s[w.b].t
  {
  }

  lemma RecordContinues(s: Series, th: real, ws: seq<Swing>, i: nat)
    requires th > 0.0 && Sorted(s) && Quiet(s, th) && IsZigzag(s, th, |s|, ws) && Bounded(ws, |s|) && i + 1 < |ws|
    ensures Continues(MakeLeg(s[ws[i].a], s[ws[i].b], s), MakeLeg(s[ws[i + 1].a], s[ws[i + 1].b], s))
  {
    hide Sorted, Quiet, LegFrom, Inside, Prices, Confirmed, Clean;
    assert Follows(s, ws[i], ws[i + 1]);
    LegIsExact(s, th, ws, i);
    LegIsExact(s, th, ws, i + 1);
    LegEnds(s[ws[i].a], s[ws[i].b], s);
    LegEnds(s[ws[i + 1].a], s[ws[i + 1].b], s);
  }

  /** The segment of a leg contains its ends and nothing outside them. */
  lemma SegmentOfLeg(s: Series, th: real, ws: seq<Swing>, i: nat, seg: seq<real>) returns (ia: nat, ib: nat)
    requires th > 0.0 && Sorted(s) && Quiet(s, th) && IsZigzag(s, th, |s|, ws) && i < |ws| && InRange(ws[i], |s|)
    requires seg == Prices(s, Inside(s, |s|, s[ws[i].a].t, s[ws[i].b].t))
    ensures ia < |seg| && ib < |seg| && seg[ia] == s[ws[i].a].p && seg[ib] == s[ws[i].b].p
    ensures var up := Up(s, ws[i]);
            forall x :: 0 <= x < |seg| ==>
              && Along(up, seg[x]) <= Along(up, seg[ib])
              && if i == 0 then Along(up, seg[ia]) - Along(up, seg[x]) < th else Along(up, seg[ia]) <= Along(up, seg[x])
  {
    hide IsZigzag, Sorted, Quiet, Confirmed, Up, Along, Inside;
    var w := ws[i];
    var ks := Inside(s, |s|, s[w.a].t, s[w.b].t);
    EndsInOrder(s, w);
    ia :| 0 <= ia < |ks| && ks[ia] == w.a;
    ib :| 0 <= ib < |ks| && ks[ib] == w.b;
    forall x | 0 <= x < |seg|
      ensures Along(Up(s, w), seg[x]) <= Along(Up(s, w), seg[ib])
      ensures if i == 0 then Along(Up(s, w), seg[ia]) - Along(Up(s, w), seg[x]) < th
              else Along(Up(s, w), seg[ia]) <= Along(Up(s, w), seg[x])
    {
      assert ks[x] in ks;
      InsideLeg(s, th, ws, i, ks[x]);
    }
  }

  lemma ZigzagConfirms(s: Series, th: real, ws: seq<Swing>, i: nat)
    requires IsZigzag(s, th, |s|, ws) && i < |ws|
    ensures Confirmed(s, th, ws[i])
  {
  }

  lemma Distance(s: Series, th: real, w: Swing)
    requires th > 0.0 && Confirmed(s, th, w)
    ensures Abs(s[w.b].p - s[w.a].p) >= th
  {
  }

  lemma EndsInOrder(s: Series, w: Swing)
    requires Sorted(s) && InRange(w, |s|)
    ensures s[w.a].t <= s[w.b].t
  {
  }

  lemma Extremes(a: Tick, b: Tick, seg: seq<real>, ia: nat, ib: nat, th: real, first: bool)
    requires th > 0.0 && ia < |seg| && ib < |seg| && seg[ia] == a.p && seg[ib] == b.p
    requires Abs(b.p - a.p) >= th
    requires var up := b.p > a.p;
             forall x :: 0 <= x < |seg| ==>
               && Along(up, seg[x]) <= Along(up, b.p)
               && if first then Along(up, a.p) - Along(up, seg[x]) < th else Along(up, a.p) <= Along(up, seg[x])
    ensures var g := LegFrom(a, b, seg);
            && g.move == b.p - a.p && g.up == (b.p > a.p)
            && g.mfe == Abs(g.move)
            && (!first ==> g.mae == 0.0 && g.hi == Max(a.p, b.p) && g.lo == Min(a.p, b.p))
            && -th < g.mae <= 0.0
            && (if g.up then g.hi else g.lo) == b.p
  {
  }

  // ----- no hindsight -----

  /** The machine on a prefix is the machine on the whole series at that moment. */
  lemma {:induction false} RunOnPrefix(s: Series, th: real, m: nat, n: nat)
    requires 1 <= n <= m <= |s|
    ensures Run(s[..m], th, n) == Run(s, th, n)
  {
    hide Step, Bounded;
    if n > 1 {
      RunOnPrefix(s, th, m, n - 1);
      StepOnPrefix(s, th, m, Run(s, th, n - 1), n - 1);
    }
  }

  lemma StepOnPrefix(s: Series, th: real, m: nat, z: State, i: nat)
    requires i < m <= |s| && z.pivot <= z.hi < i && z.pivot <= z.lo < i
    ensures Step(s[..m], th, z, i) == Step(s, th, z, i)
  {
  }

  /** Later ticks only add swings. */
  lemma {:induction false} SwingsOnlyGrow(s: Series, th: real, n: nat, m: nat)
    requires 1 <= n <= m <= |s|
    ensures Run(s, th, n).swings <= Run(s, th, m).swings
    decreases m
  {
    hide Step, Bounded;
    if n < m {
      SwingsOnlyGrow(s, th, n, m - 1);
      StepOnlyAdds(s, th, Run(s, th, m - 1), m - 1);
    }
  }

  lemma StepOnlyAdds(s: Series, th: real, z: State, i: nat)
    requires z.pivot <= z.hi < i < |s| && z.pivot <= z.lo < i
    ensures z.swings <= Step(s, th, z, i).swings
  {
  }

  lemma {:induction false} InsideSame(s: Series, m: nat, n: nat, from: int, to: int)
    requires n <= m <= |s|
    ensures Inside(s[..m], n, from, to) == Inside(s, n, from, to)
  {
    if n > 0 {
      InsideSame(s, m, n - 1, from, to);
    }
  }

  lemma {:induction false} InsidePrefix(s: Series, m: nat, n: nat, from: int, to: int)
    requires m <= n <= |s|
    requires forall k :: m <= k < n ==> to < s[k].t
    ensures Inside(s[..m], m, from, to) == Inside(s, n, from, to)
    decreases n
  {
    if m < n {
      InsidePrefix(s, m, n - 1, from, to);
    } else {
      InsideSame(s, m, m, from, to);
    }
  }

  /** Once confirmed, a leg's record never changes: ticks after the confirmation are later than the
      leg's end, so they are not inside it. */
  lemma RecordIsFinal(s: Series, th: real, m: nat, w: Swing)
    requires th > 0.0 && Sorted(s) && Quiet(s, th) && Spans(s, th, w) && w.at < m <= |s|
    ensures MakeLeg(s[w.a], s[w.b], s[..m]) == MakeLeg(s[w.a], s[w.b], s)
  {
    assert s[w.b].t < s[w.at].t;
    InsidePrefix(s, m, |s|, s[w.a].t, s[w.b].t);
    var ks := Inside(s, |s|, s[w.a].t, s[w.b].t);
    assert Prices(s[..m], ks) == Prices(s, ks);
  }

  /** The legs reported for a prefix are a prefix of the legs reported for the series, record for
      record: no leg is declared, or changed, by what came later. */
  lemma LegsAreOnline(s: Series, th: real, m: nat, early: seq<Leg>, late: seq<Leg>)
    requires th > 0.0 && Sorted(s) && Quiet(s, th) && m <= |s|
    requires Recorded(s[..m], Swings(s[..m], th), early) && Recorded(s, Swings(s, th), late)
    ensures early <= late
  {
    hide Sorted, Quiet, MakeLeg, Run, Spans;
    if m >= 2 {
      RunOnPrefix(s, th, m, m);
      SwingsOnlyGrow(s, th, m, |s|);
      AnyTicksAreSound(s, th, m);
      var ws := Run(s, th, m).swings;
      assert s[..m][..m] == s[..m];
      forall i | 0 <= i < |early|
        ensures i < |late| && early[i] == late[i]
      {
        RecordIsFinal(s, th, m, ws[i]);
      }
    }
  }
}

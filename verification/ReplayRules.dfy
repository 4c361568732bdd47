/** What the exit rules ask, in prices, times and the strength of the last fourteen changes. */
module ReplayRules {
  import opened Ticks
  import opened Replay

  /** The fifteen prices that end at tick `i`. */
  function LastFifteen(opt: Series, i: nat): seq<real>
    requires 14 <= i < |opt|
  {
    seq(15, k requires 0 <= k < 15 => opt[i - 14 + k].p)
  }

  /** From the fifteenth tick on, whether held or not, the indicator is the strength of the last fourteen
      changes of the option's price; before it there is none. */
  lemma StrengthAt(opt: Series, i: nat)
    requires i < |opt|
    ensures if i < 14 then RsiAt(opt, i) == None
            else RsiAt(opt, i).Some? && IsStrength(LastFifteen(opt, i), RsiAt(opt, i))
  {
    hide Rsi, IsStrength;
    WindowIs(opt, i);
    RsiIsStrength(Window(opt, i));
    if i < 14 {
      TooShort(Window(opt, i));
    } else {
      assert Window(opt, i) == LastFifteen(opt, i);
      LongEnough(Window(opt, i));
    }
  }

  lemma WindowIs(opt: Series, i: nat)
    requires i < |opt|
    ensures var w := Window(opt, i);
            && |w| == (if i < 14 then i + 1 else 15)
            && forall k :: 0 <= k < |w| ==> w[k] == opt[i + 1 - |w| + k].p
  {
  }

  lemma TooShort(w: seq<real>)
    requires |w| < 15
    ensures Rsi(w) == None
  {
  }

  lemma LongEnough(w: seq<real>)
    requires |w| >= 15
    ensures Rsi(w).Some?
  {
  }

  /** Some tick held so far, not after `n`, was stronger than `x`. */
  ghost predicate WasAbove(opt: Series, e: Entry, n: nat, x: real)
    requires n < |opt|
  {
    exists j :: 0 <= j <= n && opt[j].t > e.at && RsiAt(opt, j).Some? && RsiAt(opt, j).value > x
  }

  ghost predicate WasBelow(opt: Series, e: Entry, n: nat, x: real)
    requires n < |opt|
  {
    exists j :: 0 <= j <= n && opt[j].t > e.at && RsiAt(opt, j).Some? && RsiAt(opt, j).value < x
  }

  lemma {:induction false} MaxRsiAbove(opt: Series, e: Entry, n: nat, x: real)
    requires n < |opt|
    ensures MaxRsi(opt, e, n + 1) > x <==> x < 0.0 || WasAbove(opt, e, n, x)
  {
    hide RsiAt, Max;
    RsiMore(opt, e, n);
    MaxAbove(MaxRsi(opt, e, n), if RsiAt(opt, n).Some? then RsiAt(opt, n).value else 0.0, x);
    if n == 0 {
      BeforeAnyTick(opt, e);
    } else {
      MaxRsiAbove(opt, e, n - 1, x);
    }
  }

  lemma {:induction false} MinRsiBelow(opt: Series, e: Entry, n: nat, x: real)
    requires n < |opt|
    ensures MinRsi(opt, e, n + 1) < x <==> x > 100.0 || WasBelow(opt, e, n, x)
  {
    hide RsiAt, Min;
    RsiMore(opt, e, n);
    MinBelow(MinRsi(opt, e, n), if RsiAt(opt, n).Some? then RsiAt(opt, n).value else 0.0, x);
    if n == 0 {
      BeforeAnyTick(opt, e);
    } else {
      MinRsiBelow(opt, e, n - 1, x);
    }
  }

  lemma MaxAbove(a: real, b: real, x: real)
    ensures Max(a, b) > x <==> a > x || b > x
  {
  }

  lemma MinBelow(a: real, b: real, x: real)
    ensures Min(a, b) < x <==> a < x || b < x
  {
  }

  lemma BeforeAnyTick(opt: Series, e: Entry)
    ensures MaxRsi(opt, e, 0) == 0.0 && MinRsi(opt, e, 0) == 100.0
  {
  }

  /** A gain is taken on a strong enough reading: above the upper level for a call, below the lower one
      for a put. */
  predicate TakesStrength(lad: Ladder, opt: Series, e: Entry, i: nat)
    requires i < |opt|
  {
    var r := RsiAt(opt, i);
    && r.Some? && opt[i].p >= e.price + lad.rsiExitMinProfit
    && (e.side == CE ==> r.value > lad.rsiOb) && (e.side == PE ==> r.value < lad.rsiOs)
  }

  /** A gain is taken once a strong reading has been seen and the strength has come back. The running
      extremes start at 0 and 100, so an extreme outside 0..100 counts as seen. */
  ghost predicate TakesReversal(lad: Ladder, opt: Series, e: Entry, i: nat)
    requires i < |opt|
  {
    var r := RsiAt(opt, i);
    && r.Some? && opt[i].p >= e.price + lad.revMinProfit
    && (e.side == CE ==> (lad.revExtremeCe < 0.0 || WasAbove(opt, e, i, lad.revExtremeCe)) && r.value < lad.revExitCe)
    && (e.side == PE ==> (lad.revExtremePe > 100.0 || WasBelow(opt, e, i, lad.revExtremePe)) && r.value > lad.revExitPe)
  }

  /** A loss is cut early on, or late. */
  predicate CutsLoss(lad: Ladder, gain: real, age: int) {
    (age <= lad.earlySec && gain <= -lad.earlyPts) || (age >= lad.softSec && gain <= -lad.softPts)
  }

  lemma HoldsMeans(lad: Ladder, opt: Series, e: Entry, i: nat)
    requires i < |opt|
    ensures var gain, age := opt[i].p - e.price, opt[i].t - e.at;
            && (Holds(lad, opt, e, i, HardSl) <==> gain <= -lad.hardSl)
            && (Holds(lad, opt, e, i, Tp) <==> gain >= lad.tp)
            && (Holds(lad, opt, e, i, EarlyCut) <==> age <= lad.earlySec && gain <= -lad.earlyPts)
            && (Holds(lad, opt, e, i, SoftLoss) <==> age >= lad.softSec && gain <= -lad.softPts)
            && (Holds(lad, opt, e, i, RsiExit) <==> TakesStrength(lad, opt, e, i))
            && (Holds(lad, opt, e, i, RsiReversal) <==> TakesReversal(lad, opt, e, i))
            && (Holds(lad, opt, e, i, Time) <==> age >= lad.maxHold)
  {
    hide RsiAt, MaxRsi, MinRsi, WasAbove, WasBelow;
    MaxRsiAbove(opt, e, i, lad.revExtremeCe);
    MinRsiBelow(opt, e, i, lad.revExtremePe);
  }

  lemma FiresMeans(lad: Ladder, opt: Series, e: Entry, i: nat)
    requires i < |opt|
    ensures var gain, age := opt[i].p - e.price, opt[i].t - e.at;
            Fires(lad, opt, e, i) <==>
              && age > 0
              && (gain <= -lad.hardSl || gain >= lad.tp || CutsLoss(lad, gain, age) || age >= lad.maxHold
                  || TakesStrength(lad, opt, e, i) || TakesReversal(lad, opt, e, i))
  {
    hide Holds, TakesStrength, TakesReversal;
    HoldsMeans(lad, opt, e, i);
    assert PRIORITY[0] == HardSl && PRIORITY[1] == Tp && PRIORITY[2] == EarlyCut && PRIORITY[3] == SoftLoss
        && PRIORITY[4] == RsiExit && PRIORITY[5] == RsiReversal && PRIORITY[6] == Time && |PRIORITY| == 7;
  }

  /** A position is left exactly at the first tick after the entry that stops it, reaches the target, cuts
      a loss, takes a gain or is too old; without one it ends with the data. */
  lemma LeavesAtFirst(lad: Ladder, opt: Series, e: Entry, r: Outcome, i: nat)
    requires IsOutcome(lad, opt, e, r) && i < |opt|
    ensures var gain, age := opt[i].p - e.price, opt[i].t - e.at;
            var leaves := gain <= -lad.hardSl || gain >= lad.tp || CutsLoss(lad, gain, age) || age >= lad.maxHold
                          || TakesStrength(lad, opt, e, i) || TakesReversal(lad, opt, e, i);
            && (i < r.idx ==> age <= 0 || !leaves)
            && (i == r.idx && r.reason != Eod ==> age > 0 && leaves)
            && (r.reason == Eod ==> r.idx == |opt| - 1 && (age <= 0 || !leaves))
            && r.reason != NoData
  {
    hide Holds, TakesStrength, TakesReversal, CutsLoss, Best, Fires;
    FiresMeans(lad, opt, e, i);
    assert forall k :: 0 <= k < |PRIORITY| ==> PRIORITY[k] != Eod && PRIORITY[k] != NoData;
  }

  /** Which reason is recorded: the first of the rules, in the order stop, target, early cut, soft loss,
      strength, reversal, age. */
  lemma ReasonMeans(lad: Ladder, opt: Series, e: Entry, r: Outcome)
    requires IsOutcome(lad, opt, e, r) && r.reason != Eod && r.reason != NoData
    ensures 0 <= r.idx < |opt|
    ensures var gain, age := opt[r.idx].p - e.price, opt[r.idx].t - e.at;
            var between := -lad.hardSl < gain < lad.tp;
            var cut := between && CutsLoss(lad, gain, age);
            var strong, reversed := TakesStrength(lad, opt, e, r.idx), TakesReversal(lad, opt, e, r.idx);
            && (r.reason == HardSl <==> gain <= -lad.hardSl)
            && (r.reason == Tp <==> -lad.hardSl < gain && lad.tp <= gain)
            && (r.reason == EarlyCut <==> between && age <= lad.earlySec && gain <= -lad.earlyPts)
            && (r.reason == EarlyCut || r.reason == SoftLoss <==> cut)
            && (r.reason == RsiExit <==> between && !cut && strong)
            && (r.reason == RsiReversal <==> between && !cut && !strong && reversed)
            && (r.reason == Time <==> between && !cut && !strong && !reversed)
            && (r.reason == Time ==> age >= lad.maxHold)
  {
    hide Holds, TakesStrength, TakesReversal, Best, Fires, Survives;
    HoldsMeans(lad, opt, e, r.idx);
    var k :| 0 <= k < |PRIORITY| && r.reason == PRIORITY[k] && Holds(lad, opt, e, r.idx, PRIORITY[k])
             && forall j :: 0 <= j < k ==> !Holds(lad, opt, e, r.idx, PRIORITY[j]);
    assert PRIORITY[0] == HardSl && PRIORITY[1] == Tp && PRIORITY[2] == EarlyCut && PRIORITY[3] == SoftLoss
        && PRIORITY[4] == RsiExit && PRIORITY[5] == RsiReversal && PRIORITY[6] == Time && |PRIORITY| == 7;
  }

  /** What is recorded of an exit: the spread's cost, the points and the profit of 65 units, the age, and the
      largest gain and loss of the ticks held up to it. */
  lemma RecordMeans(lad: Ladder, opt: Series, e: Entry, r: Outcome)
    requires IsOutcome(lad, opt, e, r) && opt != []
    ensures 0 <= r.idx < |opt| && r.exitLtp == opt[r.idx].p && r.hold == opt[r.idx].t - e.at
    ensures var cost := 2.0 * (r.exitLtp - r.fill);
            && 0.05 <= cost && r.exitLtp * lad.spreadPct <= 100.0 * cost
            && (cost == 0.05 || 100.0 * cost == r.exitLtp * lad.spreadPct)
    ensures r.pts == r.fill - e.price && r.pnl == 65.0 * r.pts && r.mae <= 0.0 <= r.mfe
    ensures forall i :: 0 <= i <= r.idx && opt[i].t > e.at ==> r.mae <= opt[i].p - e.price <= r.mfe
    ensures r.mfe > 0.0 ==> exists i :: 0 <= i <= r.idx && opt[i].t > e.at && opt[i].p - e.price == r.mfe
    ensures r.mae < 0.0 ==> exists i :: 0 <= i <= r.idx && opt[i].t > e.at && opt[i].p - e.price == r.mae
  {
    hide Fires, Best, Survives, Holds;
    assert r == Closed(lad, e, opt[r.idx].p, r.reason, opt[r.idx].t - e.at, r.mfe, r.mae, r.idx);
    BestGain(opt, e, r.idx + 1, r.mfe);
    BestLoss(opt, e, r.idx + 1, r.mae);
  }

  lemma BestGain(opt: Series, e: Entry, n: nat, v: real)
    requires n <= |opt| && Best(opt, e, n, 1, v)
    ensures v >= 0.0 && forall i :: 0 <= i < n && opt[i].t > e.at ==> opt[i].p - e.price <= v
    ensures v > 0.0 ==> exists i :: 0 <= i < n && opt[i].t > e.at && opt[i].p - e.price == v
  {
    forall i | 0 <= i < n && opt[i].t > e.at
      ensures opt[i].p - e.price <= v
    {
      assert Held(opt, e, i);
    }
  }

  lemma BestLoss(opt: Series, e: Entry, n: nat, v: real)
    requires n <= |opt| && Best(opt, e, n, -1, -v)
    ensures v <= 0.0 && forall i :: 0 <= i < n && opt[i].t > e.at ==> v <= opt[i].p - e.price
    ensures v < 0.0 ==> exists i :: 0 <= i < n && opt[i].t > e.at && opt[i].p - e.price == v
  {
    forall i | 0 <= i < n && opt[i].t > e.at
      ensures v <= opt[i].p - e.price
    {
      assert Held(opt, e, i);
    }
  }

  /** Without any tick the entry price is taken and nothing was gained or lost but the spread. */
  lemma NoDataMeans(lad: Ladder, e: Entry, r: Outcome)
    requires IsOutcome(lad, [], e, r)
    ensures r.reason == NoData && r.exitLtp == e.price && r.hold == 0 && r.idx == 0 && r.mfe == 0.0 == r.mae
    ensures var cost := -2.0 * r.pts;
            && 0.05 <= cost && e.price * lad.spreadPct <= 100.0 * cost
            && (cost == 0.05 || 100.0 * cost == e.price * lad.spreadPct)
    ensures r.fill == e.price + r.pts && r.pnl == 65.0 * r.pts
  {
  }
}

/** What a replay can and cannot depend on. */
module ReplayFacts {
  import opened Ticks
  import opened Replay

  lemma BestIsUnique(opt: Series, e: Entry, n: nat, sign: int, v: real, w: real)
    requires n <= |opt| && Best(opt, e, n, sign, v) && Best(opt, e, n, sign, w)
    ensures v == w
  {
  }

  /** The definition fixes the outcome completely. */
  lemma OutcomeIsUnique(lad: Ladder, opt: Series, e: Entry, r: Outcome, q: Outcome)
    requires IsOutcome(lad, opt, e, r) && IsOutcome(lad, opt, e, q)
    ensures r == q
  {
    hide Best, Fires, Holds;
    if exists i :: 0 <= i < |opt| && Fires(lad, opt, e, i) {
      assert r.idx == q.idx;
      SameRule(lad, opt, e, r, q);
      BestIsUnique(opt, e, r.idx + 1, 1, r.mfe, q.mfe);
      BestIsUnique(opt, e, r.idx + 1, -1, -r.mae, -q.mae);
    } else if opt != [] {
      BestIsUnique(opt, e, |opt|, 1, r.mfe, q.mfe);
      BestIsUnique(opt, e, |opt|, -1, -r.mae, -q.mae);
    }
  }

  lemma SameRule(lad: Ladder, opt: Series, e: Entry, r: Outcome, q: Outcome)
    requires 0 <= r.idx == q.idx < |opt| && Fires(lad, opt, e, r.idx)
    requires IsOutcome(lad, opt, e, r) && IsOutcome(lad, opt, e, q)
    ensures r.reason == q.reason
  {
    hide Best, Fires, Holds, Survives;
    var k :| 0 <= k < |PRIORITY| && r.reason == PRIORITY[k] && Holds(lad, opt, e, r.idx, PRIORITY[k])
             && forall j :: 0 <= j < k ==> !Holds(lad, opt, e, r.idx, PRIORITY[j]);
    var l :| 0 <= l < |PRIORITY| && q.reason == PRIORITY[l] && Holds(lad, opt, e, q.idx, PRIORITY[l])
             && forall j :: 0 <= j < l ==> !Holds(lad, opt, e, q.idx, PRIORITY[j]);
    assert k == l;
  }

  /** Until it exits, a position stays strictly between its stop and its target, is younger than the
      maximum hold, and after the soft deadline is above the soft loss. */
  lemma HeldTicksAreInside(lad: Ladder, opt: Series, e: Entry, r: Outcome, i: nat)
    requires IsOutcome(lad, opt, e, r) && 0 <= i < r.idx < |opt| && Held(opt, e, i)
    ensures -lad.hardSl < Diff(opt, e, i) < lad.tp
    ensures opt[i].t - e.at < lad.maxHold
    ensures opt[i].t - e.at >= lad.softSec ==> Diff(opt, e, i) > -lad.softPts
    ensures opt[i].t - e.at <= lad.earlySec ==> Diff(opt, e, i) > -lad.earlyPts
  {
    hide Best;
    assert !Fires(lad, opt, e, i);
    assert !Holds(lad, opt, e, i, PRIORITY[0]) && !Holds(lad, opt, e, i, PRIORITY[1])
        && !Holds(lad, opt, e, i, PRIORITY[2]) && !Holds(lad, opt, e, i, PRIORITY[3])
        && !Holds(lad, opt, e, i, PRIORITY[6]);
  }

  /** What an exit is worth: every one pays at least two and a half paise a unit for the spread, so a
      stop always loses more than its distance. */
  lemma ExitIsPaidFor(lad: Ladder, opt: Series, e: Entry, r: Outcome)
    requires IsOutcome(lad, opt, e, r)
    ensures r.pts <= r.exitLtp - e.price - 0.025 && r.pnl == r.pts * LOT
    ensures r.reason == HardSl ==> r.pts <= -lad.hardSl - 0.025 && r.pnl <= (-lad.hardSl - 0.025) * LOT
    ensures r.reason != NoData ==> r.exitLtp - e.price == Diff(opt, e, r.idx)
  {
    hide Best, Fires, Survives, RsiAt, MaxRsi, MinRsi;
    assert HalfSpread(r.exitLtp, lad.spreadPct) >= 0.025;
  }

  // ----- the future does not matter -----

  lemma {:induction false} RunningRsiSame(opt: Series, opt': Series, e: Entry, n: nat)
    requires n <= |opt| && n <= |opt'| && opt[..n] == opt'[..n]
    ensures MaxRsi(opt, e, n) == MaxRsi(opt', e, n) && MinRsi(opt, e, n) == MinRsi(opt', e, n)
  {
    if n > 0 {
      assert opt[..n - 1] == opt[..n][..n - 1] && opt'[..n - 1] == opt'[..n][..n - 1];
      assert opt[..n][n - 1] == opt'[..n][n - 1];
      RunningRsiSame(opt, opt', e, n - 1);
      WindowSame(opt, opt', n - 1);
    }
  }

  lemma WindowSame(opt: Series, opt': Series, i: nat)
    requires i < |opt| && i < |opt'| && opt[..i + 1] == opt'[..i + 1]
    ensures Window(opt, i) == Window(opt', i)
  {
    var from := if i > 20 then i - 20 else 0;
    assert opt[from..i + 1] == opt[..i + 1][from..] && opt'[from..i + 1] == opt'[..i + 1][from..];
  }

  lemma HoldsSame(lad: Ladder, opt: Series, opt': Series, e: Entry, i: nat, rule: Reason)
    requires i < |opt| && i < |opt'| && opt[..i + 1] == opt'[..i + 1]
    ensures Holds(lad, opt, e, i, rule) == Holds(lad, opt', e, i, rule)
    ensures Held(opt, e, i) == Held(opt', e, i) && Diff(opt, e, i) == Diff(opt', e, i)
  {
    hide MaxRsi, MinRsi, Window;
    assert opt[..i + 1][i] == opt'[..i + 1][i];
    RunningRsiSame(opt, opt', e, i + 1);
    WindowSame(opt, opt', i);
  }

  lemma FiresSame(lad: Ladder, opt: Series, opt': Series, e: Entry, i: nat)
    requires i < |opt| && i < |opt'| && opt[..i + 1] == opt'[..i + 1]
    ensures Fires(lad, opt, e, i) == Fires(lad, opt', e, i)
  {
    hide Holds, Held;
    HoldsSame(lad, opt, opt', e, i, HardSl);
    forall k | 0 <= k < |PRIORITY|
      ensures Holds(lad, opt, e, i, PRIORITY[k]) == Holds(lad, opt', e, i, PRIORITY[k])
    {
      HoldsSame(lad, opt, opt', e, i, PRIORITY[k]);
    }
  }

  lemma BestSame(opt: Series, opt': Series, e: Entry, n: nat, sign: int, v: real)
    requires n <= |opt| && n <= |opt'| && opt[..n] == opt'[..n] && Best(opt, e, n, sign, v)
    ensures Best(opt', e, n, sign, v)
  {
    forall i | 0 <= i < n
      ensures opt[i] == opt'[i] && (Held(opt', e, i) ==> Signed(sign, Diff(opt', e, i)) <= v)
    {
      assert opt[..n][i] == opt'[..n][i];
      assert Held(opt, e, i) == Held(opt', e, i);
    }
    if v != 0.0 {
      var i :| 0 <= i < n && Held(opt, e, i) && Signed(sign, Diff(opt, e, i)) == v;
      assert Held(opt', e, i) && Signed(sign, Diff(opt', e, i)) == v;
    }
  }

  /** Whatever happens after the exit tick, the outcome is the same. */
  lemma FutureDoesNotMatter(lad: Ladder, opt: Series, opt': Series, e: Entry, r: Outcome)
    requires IsOutcome(lad, opt, e, r) && r.reason != Eod && r.reason != NoData
    requires r.idx < |opt'| && opt[..r.idx + 1] == opt'[..r.idx + 1]
    ensures IsOutcome(lad, opt', e, r)
  {
    hide Fires, Best, Holds, Held;
    var n := r.idx + 1;
    forall i | 0 <= i < n
      ensures Fires(lad, opt, e, i) == Fires(lad, opt', e, i)
    {
      assert opt[..i + 1] == opt[..n][..i + 1] && opt'[..i + 1] == opt'[..n][..i + 1];
      FiresSame(lad, opt, opt', e, i);
    }
    BestSame(opt, opt', e, n, 1, r.mfe);
    BestSame(opt, opt', e, n, -1, -r.mae);
    assert opt[..n][r.idx] == opt'[..n][r.idx];
    var k :| 0 <= k < |PRIORITY| && r.reason == PRIORITY[k] && Holds(lad, opt, e, r.idx, PRIORITY[k])
             && forall j :: 0 <= j < k ==> !Holds(lad, opt, e, r.idx, PRIORITY[j]);
    forall j | 0 <= j <= k
      ensures Holds(lad, opt, e, r.idx, PRIORITY[j]) == Holds(lad, opt', e, r.idx, PRIORITY[j])
    {
      HoldsSame(lad, opt, opt', e, r.idx, PRIORITY[j]);
    }
  }

  // ----- tighter ladders leave earlier -----

  /** Every threshold of `b` is at least as eager to leave as `a`'s. */
  predicate Tighter(a: Ladder, b: Ladder) {
    && b.hardSl <= a.hardSl && b.tp <= a.tp && b.maxHold <= a.maxHold
    && b.earlyPts <= a.earlyPts && b.earlySec >= a.earlySec
    && b.softPts <= a.softPts && b.softSec <= a.softSec
    && b.rsiOb <= a.rsiOb && b.rsiOs >= a.rsiOs && b.rsiExitMinProfit <= a.rsiExitMinProfit
    && b.revExtremeCe <= a.revExtremeCe && b.revExitCe >= a.revExitCe
    && b.revExtremePe >= a.revExtremePe && b.revExitPe <= a.revExitPe && b.revMinProfit <= a.revMinProfit
  }

  lemma TighterFires(a: Ladder, b: Ladder, opt: Series, e: Entry, i: nat)
    requires Tighter(a, b) && i < |opt| && Fires(a, opt, e, i)
    ensures Fires(b, opt, e, i)
  {
    hide MaxRsi, MinRsi, RsiAt, Held;
    var k :| 0 <= k < |PRIORITY| && Holds(a, opt, e, i, PRIORITY[k]);
    assert Holds(b, opt, e, i, PRIORITY[k]);
  }

  /** On the same ticks a tighter ladder never leaves later, never sees a larger favourable excursion
      and never a deeper adverse one. */
  lemma TighterLeavesNoLater(a: Ladder, b: Ladder, opt: Series, e: Entry, ra: Outcome, rb: Outcome)
    requires Tighter(a, b) && IsOutcome(a, opt, e, ra) && IsOutcome(b, opt, e, rb)
    ensures rb.idx <= ra.idx && rb.mfe <= ra.mfe && ra.mae <= rb.mae
  {
    hide Best, Fires, Holds, Held, Tighter;
    if exists i :: 0 <= i < |opt| && Fires(a, opt, e, i) {
      TighterFires(a, b, opt, e, ra.idx);
    }
    if opt != [] {
      BestGrows(opt, e, rb.idx + 1, ra.idx + 1, 1, rb.mfe, ra.mfe);
      BestGrows(opt, e, rb.idx + 1, ra.idx + 1, -1, -rb.mae, -ra.mae);
    }
  }

  lemma BestGrows(opt: Series, e: Entry, m: nat, n: nat, sign: int, v: real, w: real)
    requires m <= n <= |opt| && Best(opt, e, m, sign, v) && Best(opt, e, n, sign, w)
    ensures v <= w
  {
  }
}

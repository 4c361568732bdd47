/** Exit-ladder replay: walk the ticks after an entry and leave at the first rule that fires. */
module Replay {
  import opened Ticks
  import opened RelativeStrength

  datatype Side = CE | PE

  /** The rules' thresholds; durations in microseconds. */
  datatype Ladder = Ladder(hardSl: real, tp: real, maxHold: int, earlyPts: real, earlySec: int,
                           softPts: real, softSec: int, rsiOb: real, rsiOs: real, rsiExitMinProfit: real,
                           revExtremeCe: real, revExitCe: real, revExtremePe: real, revExitPe: real, revMinProfit: real,
                           spreadPct: real)

  datatype Reason = HardSl | Tp | EarlyCut | SoftLoss | RsiExit | RsiReversal | Time | NoData | Eod

  datatype Outcome = Outcome(exitLtp: real, fill: real, reason: Reason, hold: int, pts: real, pnl: real,
                             mfe: real, mae: real, idx: int)

  /** Units in one lot. */
  const LOT: real := 65.0

  function HalfSpread(ltp: real, pct: real): real {
    Max(0.05, ltp * pct / 100.0) / 2.0
  }

  // ----- the tick indicator -----

  /** Total of the rises (falls) between consecutive prices `from..to`. */
  function Rises(w: seq<real>, from: nat, to: nat): (g: real)
    requires 1 <= from <= to <= |w|
    ensures g >= 0.0
  {
    if from == to then 0.0
    else
      var c := w[to - 1] - w[to - 2];
      Rises(w, from, to - 1) + if c > 0.0 then c else 0.0
  }

  function Falls(w: seq<real>, from: nat, to: nat): (l: real)
    requires 1 <= from <= to <= |w|
    ensures l >= 0.0
  {
    if from == to then 0.0
    else
      var c := w[to - 1] - w[to - 2];
      Falls(w, from, to - 1) + if c > 0.0 then 0.0 else -c
  }

  function Rsi(w: seq<real>): Option<real> {
    if |w| < 15 then None
    else Some(Index(Rises(w, |w| - 14, |w|) / 14.0, Falls(w, |w| - 14, |w|) / 14.0))
  }

  /** Total movement, up and down alike, between consecutive prices `from..to`. */
  function Movement(w: seq<real>, from: nat, to: nat): (m: real)
    requires 1 <= from <= to <= |w|
    ensures m >= 0.0
  {
    if from == to then 0.0 else Movement(w, from, to - 1) + Abs(w[to - 1] - w[to - 2])
  }

  lemma {:induction false} RisesAndFalls(w: seq<real>, from: nat, to: nat)
    requires 1 <= from <= to <= |w|
    ensures Rises(w, from, to) - Falls(w, from, to) == w[to - 1] - w[from - 1]
    ensures Rises(w, from, to) + Falls(w, from, to) == Movement(w, from, to)
  {
    if from < to {
      RisesAndFalls(w, from, to - 1);
    }
  }

  /** The strength of the last fourteen changes: half of it is 50, and the rest is the net change as a
      share of the movement; no movement at all is 50 too. Fewer changes have no strength. */
  ghost predicate IsStrength(w: seq<real>, r: Option<real>) {
    if |w| < 15 then r == None
    else
      var moved := Movement(w, |w| - 14, |w|);
      && r.Some? && (moved > 0.0 ==> r.value * moved == 50.0 * (moved + (w[|w| - 1] - w[|w| - 15])))
      && (moved == 0.0 ==> r.value == 50.0)
  }

  lemma RsiIsStrength(w: seq<real>)
    ensures IsStrength(w, Rsi(w))
  {
    hide Index;
    if |w| >= 15 {
      var from := |w| - 14;
      RisesAndFalls(w, from, |w|);
      Fourteenth(Rises(w, from, |w|), Falls(w, from, |w|));
    }
  }

  lemma Fourteenth(g: real, l: real)
    requires g >= 0.0 && l >= 0.0
    ensures var r := Index(g / 14.0, l / 14.0);
            && (g + l > 0.0 ==> r * (g + l) == 100.0 * g)
            && (g + l == 0.0 ==> r == 50.0)
  {
    var r := Index(g / 14.0, l / 14.0);
    IndexIsShare(g / 14.0, l / 14.0);
    if g + l > 0.0 {
      hide Index;
      assert r * (g / 14.0 + l / 14.0) == 100.0 * (g / 14.0);
      assert r * (g / 14.0 + l / 14.0) * 14.0 == r * (g + l);
    }
  }

  method TickRsi(window: seq<real>) returns (r: Option<real>)
    ensures r == Rsi(window) && IsStrength(window, r)
    ensures r.Some? ==> 0.0 <= r.value <= 100.0
  {
    hide IsStrength;
    RsiIsStrength(window);
    if |window| < 15 {
      return None;
    }
    var g, l := 0.0, 0.0;
    var first := |window| - 14;
    for i := first to |window|
      invariant g == Rises(window, first, i) && l == Falls(window, first, i)
    {
      var c := window[i] - window[i - 1];
      if c > 0.0 {
        g := g + c;
      } else {
        l := l + -c;
      }
    }
    var ag, al := g / 14.0, l / 14.0;
    IndexIsShare(ag, al);
    if al == 0.0 {
      return Some(if ag > 0.0 then 100.0 else 50.0);
    }
    r := Some(100.0 - 100.0 / (1.0 + ag / al));
  }

  // ----- the rules -----

  /** The entry under study. */
  datatype Entry = Entry(at: int, price: real, side: Side)

  /** Leaving at a price: half the spread is lost in the fill, and a lot is valued at the fill. */
  function Closed(lad: Ladder, e: Entry, px: real, reason: Reason, hold: int, mfe: real, mae: real, idx: int): Outcome {
    var fill := px - HalfSpread(px, lad.spreadPct);
    Outcome(px, fill, reason, hold, fill - e.price, (fill - e.price) * LOT, mfe, mae, idx)
  }

  /** A tick the position is still exposed to. */
  predicate Held(opt: Series, e: Entry, i: nat)
    requires i < |opt|
  {
    opt[i].t > e.at
  }

  function Diff(opt: Series, e: Entry, i: nat): real
    requires i < |opt|
  {
    opt[i].p - e.price
  }

  /** The last fifteen prices of the last twenty-one, ending at tick `i`. */
  function Window(opt: Series, i: nat): seq<real>
    requires i < |opt|
  {
    var recent := opt[if i > 20 then i - 20 else 0..i + 1];
    var last := recent[if |recent| > 15 then |recent| - 15 else 0..];
    seq(|last|, k requires 0 <= k < |last| => last[k].p)
  }

  function RsiAt(opt: Series, i: nat): Option<real>
    requires i < |opt|
  {
    Rsi(Window(opt, i))
  }

  /** Highest (lowest) indicator over the held ticks before `n`. */
  function MaxRsi(opt: Series, e: Entry, n: nat): real
    requires n <= |opt|
  {
    if n == 0 then 0.0
    else if Held(opt, e, n - 1) && RsiAt(opt, n - 1).Some? then Max(MaxRsi(opt, e, n - 1), RsiAt(opt, n - 1).value)
    else MaxRsi(opt, e, n - 1)
  }

  function MinRsi(opt: Series, e: Entry, n: nat): real
    requires n <= |opt|
  {
    if n == 0 then 100.0
    else if Held(opt, e, n - 1) && RsiAt(opt, n - 1).Some? then Min(MinRsi(opt, e, n - 1), RsiAt(opt, n - 1).value)
    else MinRsi(opt, e, n - 1)
  }

  /** Whether a rule's own condition holds at tick `i`, whatever the other rules say. */
  predicate Holds(lad: Ladder, opt: Series, e: Entry, i: nat, rule: Reason)
    requires i < |opt|
  {
    var diff, held, r := Diff(opt, e, i), opt[i].t - e.at, RsiAt(opt, i);
    match rule
    case HardSl => diff <= -lad.hardSl
    case Tp => diff >= lad.tp
    case EarlyCut => held <= lad.earlySec && diff <= -lad.earlyPts
    case SoftLoss => held >= lad.softSec && diff <= -lad.softPts
    case RsiExit =>
      && r.Some? && diff >= lad.rsiExitMinProfit
      && (if e.side == CE then r.value > lad.rsiOb else r.value < lad.rsiOs)
    case RsiReversal =>
      && r.Some? && diff >= lad.revMinProfit
      && (if e.side == CE then MaxRsi(opt, e, i + 1) > lad.revExtremeCe && r.value < lad.revExitCe
          else MinRsi(opt, e, i + 1) < lad.revExtremePe && r.value > lad.revExitPe)
    case Time => held >= lad.maxHold
    case NoData => false
    case Eod => false
  }

  /** The rules from the most to the least urgent. */
  const PRIORITY: seq<Reason> := [HardSl, Tp, EarlyCut, SoftLoss, RsiExit, RsiReversal, Time]

  predicate Fires(lad: Ladder, opt: Series, e: Entry, i: nat)
    requires i < |opt|
  {
    Held(opt, e, i) && exists k :: 0 <= k < |PRIORITY| && Holds(lad, opt, e, i, PRIORITY[k])
  }

  /** The position outlives every tick before `n`. */
  ghost predicate Survives(lad: Ladder, opt: Series, e: Entry, n: nat)
    requires n <= |opt|
  {
    forall i :: 0 <= i < n ==> !Fires(lad, opt, e, i)
  }

  /** `v` is the largest gain (zero included) over the held ticks before `n`. */
  ghost predicate Best(opt: Series, e: Entry, n: nat, sign: int, v: real)
    requires n <= |opt|
  {
    && v >= 0.0
    && (forall i :: 0 <= i < n && Held(opt, e, i) ==> Signed(sign, Diff(opt, e, i)) <= v)
    && (v == 0.0 || exists i :: 0 <= i < n && Held(opt, e, i) && Signed(sign, Diff(opt, e, i)) == v)
  }

  function Signed(sign: int, x: real): real {
    if sign > 0 then x else -x
  }

  /** The outcome, defined without a loop: the least held tick at which any rule holds, the most
      urgent of the rules that hold there, and the extremes of everything held up to it. */
  ghost predicate IsOutcome(lad: Ladder, opt: Series, e: Entry, r: Outcome) {
    if exists i :: 0 <= i < |opt| && Fires(lad, opt, e, i) then
      && 0 <= r.idx < |opt| && Fires(lad, opt, e, r.idx) && Survives(lad, opt, e, r.idx)
      && (exists k :: 0 <= k < |PRIORITY| && r.reason == PRIORITY[k] && Holds(lad, opt, e, r.idx, PRIORITY[k])
                      && forall j :: 0 <= j < k ==> !Holds(lad, opt, e, r.idx, PRIORITY[j]))
      && r == Closed(lad, e, opt[r.idx].p, r.reason, opt[r.idx].t - e.at, r.mfe, r.mae, r.idx)
      && Best(opt, e, r.idx + 1, 1, r.mfe) && Best(opt, e, r.idx + 1, -1, -r.mae)
    else if opt == [] then
      r == Closed(lad, e, e.price, NoData, 0, 0.0, 0.0, 0)
    else
      && r.reason == Eod && r.idx == |opt| - 1
      && r == Closed(lad, e, opt[|opt| - 1].p, Eod, opt[|opt| - 1].t - e.at, r.mfe, r.mae, |opt| - 1)
      && Best(opt, e, |opt|, 1, r.mfe) && Best(opt, e, |opt|, -1, -r.mae)
  }

  /** One pass over the ticks, returning from inside the loop. */
  method Run(opt: Series, e: Entry, lad: Ladder) returns (r: Outcome)
    ensures IsOutcome(lad, opt, e, r)
  {
    hide IsOutcome, Survives, Fires, Best, MaxRsi, MinRsi, Window, Rsi;
    var maxRsi, minRsi := 0.0, 100.0;
    var mfe, mae := 0.0, 0.0;
    NothingHeld(lad, opt, e);
    for i := 0 to |opt|
      invariant Survives(lad, opt, e, i)
      invariant maxRsi == MaxRsi(opt, e, i) && minRsi == MinRsi(opt, e, i)
      invariant Best(opt, e, i, 1, mfe) && Best(opt, e, i, -1, -mae)
    {
      RsiMore(opt, e, i);
      BestMore(opt, e, i, 1, mfe);
      BestMore(opt, e, i, -1, -mae);
      var t, px := opt[i].t, opt[i].p;
      if t <= e.at {
        Outlive(lad, opt, e, i);
        continue;
      }
      var held := t - e.at;
      var diff := px - e.price;
      mfe := Max(mfe, diff);
      mae := Min(mae, diff);
      if diff <= -lad.hardSl {
        r := Leave(lad, opt, e, i, 0, mfe, mae);
        return;
      }
      if diff >= lad.tp {
        r := Leave(lad, opt, e, i, 1, mfe, mae);
        return;
      }
      if held <= lad.earlySec && diff <= -lad.earlyPts {
        r := Leave(lad, opt, e, i, 2, mfe, mae);
        return;
      }
      if held >= lad.softSec && diff <= -lad.softPts {
        r := Leave(lad, opt, e, i, 3, mfe, mae);
        return;
      }
      var rsi := TickRsi(Window(opt, i));
      if rsi.Some? {
        maxRsi := Max(maxRsi, rsi.value);
        minRsi := Min(minRsi, rsi.value);
        if diff >= lad.rsiExitMinProfit {
          if e.side == CE && rsi.value > lad.rsiOb {
            r := Leave(lad, opt, e, i, 4, mfe, mae);
            return;
          }
          if e.side == PE && rsi.value < lad.rsiOs {
            r := Leave(lad, opt, e, i, 4, mfe, mae);
            return;
          }
        }
        if diff >= lad.revMinProfit {
          if e.side == CE && maxRsi > lad.revExtremeCe && rsi.value < lad.revExitCe {
            r := Leave(lad, opt, e, i, 5, mfe, mae);
            return;
          }
          if e.side == PE && minRsi < lad.revExtremePe && rsi.value > lad.revExitPe {
            r := Leave(lad, opt, e, i, 5, mfe, mae);
            return;
          }
        }
      }
      if held >= lad.maxHold {
        r := Leave(lad, opt, e, i, 6, mfe, mae);
        return;
      }
      Outlive(lad, opt, e, i);
    }
    r := RunOut(lad, opt, e, mfe, mae);
  }

  /** Close the position by rule `k` of the priority list. */
  method Leave(lad: Ladder, opt: Series, e: Entry, i: nat, k: nat, mfe: real, mae: real) returns (r: Outcome)
    requires i < |opt| && k < |PRIORITY| && Held(opt, e, i) && Survives(lad, opt, e, i)
    requires Holds(lad, opt, e, i, PRIORITY[k]) && forall j :: 0 <= j < k ==> !Holds(lad, opt, e, i, PRIORITY[j])
    requires Best(opt, e, i + 1, 1, mfe) && Best(opt, e, i + 1, -1, -mae)
    ensures IsOutcome(lad, opt, e, r) && r.reason == PRIORITY[k] && r.idx == i
  {
    hide Holds, Best, Survives, Held;
    r := Closed(lad, e, opt[i].p, PRIORITY[k], opt[i].t - e.at, mfe, mae, i);
    assert Fires(lad, opt, e, i);
  }

  /** No rule fired before the data ended. */
  method RunOut(lad: Ladder, opt: Series, e: Entry, mfe: real, mae: real) returns (r: Outcome)
    requires Survives(lad, opt, e, |opt|) && Best(opt, e, |opt|, 1, mfe) && Best(opt, e, |opt|, -1, -mae)
    ensures IsOutcome(lad, opt, e, r)
  {
    hide Fires, Best;
    r := if opt == [] then Closed(lad, e, e.price, NoData, 0, 0.0, 0.0, 0)
         else Closed(lad, e, opt[|opt| - 1].p, Eod, opt[|opt| - 1].t - e.at, mfe, mae, |opt| - 1);
  }

  lemma NothingHeld(lad: Ladder, opt: Series, e: Entry)
    ensures Survives(lad, opt, e, 0) && Best(opt, e, 0, 1, 0.0) && Best(opt, e, 0, -1, 0.0)
    ensures MaxRsi(opt, e, 0) == 0.0 && MinRsi(opt, e, 0) == 100.0
  {
  }

  lemma Outlive(lad: Ladder, opt: Series, e: Entry, i: nat)
    requires i < |opt| && Survives(lad, opt, e, i)
    requires Held(opt, e, i) ==> forall k :: 0 <= k < |PRIORITY| ==> !Holds(lad, opt, e, i, PRIORITY[k])
    ensures Survives(lad, opt, e, i + 1)
  {
    hide Holds, Held;
  }

  lemma RsiMore(opt: Series, e: Entry, i: nat)
    requires i < |opt|
    ensures var r := RsiAt(opt, i);
            var seen := Held(opt, e, i) && r.Some?;
            && MaxRsi(opt, e, i + 1) == (if seen then Max(MaxRsi(opt, e, i), r.value) else MaxRsi(opt, e, i))
            && MinRsi(opt, e, i + 1) == (if seen then Min(MinRsi(opt, e, i), r.value) else MinRsi(opt, e, i))
  {
  }

  lemma BestMore(opt: Series, e: Entry, n: nat, sign: int, v: real)
    requires n < |opt| && Best(opt, e, n, sign, v)
    ensures Best(opt, e, n + 1, sign, if Held(opt, e, n) then Max(v, Signed(sign, Diff(opt, e, n))) else v)
  {
    if v != 0.0 {
      var i :| 0 <= i < n && Held(opt, e, i) && Signed(sign, Diff(opt, e, i)) == v;
      assert Held(opt, e, i) && Signed(sign, Diff(opt, e, i)) == v;
    }
  }
}

/** Open-interest buildup: the live rule with its memory, and the reconstruction that walks a
    recorded session. */
module OpenInterest {
  import opened Ticks

  datatype Label = LongBuildup | ShortBuildup | ShortCovering | LongUnwinding | Neutral

  /** One observation of open interest and price. */
  datatype Sample = Sample(t: int, oi: real, price: real)

  /** How many samples the live rule's deque holds. */
  const CAPACITY: nat := 4000

  function Classify(changePct: real, priceUp: bool): Label {
    if changePct > 1.0 then (if priceUp then LongBuildup else ShortBuildup)
    else if changePct < -1.0 then (if priceUp then ShortCovering else LongUnwinding)
    else Neutral
  }

  function ChangePct(oi: real, base: real): real
    requires base > 0.0
  {
    (oi - base) / base * 100.0
  }

  /** The label of a sample against a base sample. */
  function LabelAgainst(x: Sample, base: Sample): Label
    requires base.oi > 0.0
  {
    Classify(ChangePct(x.oi, base.oi), x.price > base.price)
  }

  /** The latest of `xs[lo..hi]` at or before `cutoff`; the first of them if there is none. */
  function BaseIn(xs: seq<Sample>, lo: nat, hi: nat, cutoff: int): (k: nat)
    requires lo <= hi <= |xs|
    ensures lo <= k <= hi && (lo < hi ==> k < hi)
  {
    if hi == lo then lo else if xs[hi - 1].t <= cutoff then hi - 1 else BaseIn(xs, lo, hi - 1, cutoff)
  }

  // ----- the live rule -----

  /** What the rule remembers between ticks. */
  datatype Memory = Memory(lastOi: Option<real>, prevOi: Option<real>, lastPrice: Option<real>,
                           changePct: real, history: seq<Sample>)

  const EMPTY: Memory := Memory(None, None, None, 0.0, [])

  /** Appending to a deque of bounded length drops its oldest element. */
  function Push(h: seq<Sample>, x: Sample): seq<Sample> {
    if |h| >= CAPACITY then h[|h| - CAPACITY + 1..] + [x] else h + [x]
  }

  /** The base the rule compares with, once it has a previous tick. */
  function LiveBase(m: Memory, window: int, x: Sample): Sample
    requires m.lastOi.Some?
  {
    if window > 0 then
      var h := Push(m.history, x);
      h[BaseIn(h, 0, |h|, x.t - window)]
    else Sample(0, m.lastOi.value, if m.lastPrice.Some? then m.lastPrice.value else x.price)
  }

  class Tracker {
    const window: int
    var lastOi: Option<real>
    var prevOi: Option<real>
    var lastPrice: Option<real>
    var oiChangePct: real
    var oiHistory: seq<Sample>

    function View(): Memory
      reads this
    {
      Memory(lastOi, prevOi, lastPrice, oiChangePct, oiHistory)
    }

    constructor (window: int)
      ensures View() == EMPTY && this.window == window
    {
      this.window := window;
      lastOi, prevOi, lastPrice, oiChangePct, oiHistory := None, None, None, 0.0, [];
    }

    /** One tick: the change in percent, and the label. */
    method UpdateOiData(x: Sample) returns (pct: real, verdict: Label)
      modifies this
      ensures (View(), verdict) == Update(old(View()), window, x)
      ensures x.oi <= 0.0 || old(lastOi).None? ==> verdict == Neutral
      ensures x.oi <= 0.0 ==> View() == old(View())
      ensures pct == if x.oi <= 0.0 || old(lastOi).None? then 0.0 else oiChangePct
    {
      if x.oi <= 0.0 {
        return 0.0, Neutral;
      }
      if lastOi.None? {
        lastOi, prevOi, lastPrice := Some(x.oi), Some(x.oi), Some(x.price);
        return 0.0, Neutral;
      }
      var prevPrice := if lastPrice.Some? then lastPrice.value else x.price;
      var baseOi := lastOi.value;
      if window > 0 {
        oiHistory := Push(oiHistory, x);
        var k := FindBase(oiHistory, x.t - window);
        baseOi, prevPrice := oiHistory[k].oi, oiHistory[k].price;
      }
      pct := if baseOi > 0.0 then (x.oi - baseOi) / baseOi * 100.0 else 0.0;
      oiChangePct := pct;
      var priceUp := x.price > prevPrice;
      if pct > 1.0 {
        verdict := if priceUp then LongBuildup else ShortBuildup;
      } else if pct < -1.0 {
        verdict := if priceUp then ShortCovering else LongUnwinding;
      } else {
        verdict := Neutral;
      }
      prevOi := lastOi;
      lastOi := Some(x.oi);
      lastPrice := Some(x.price);
    }
  }

  /** Scan for the last sample at or before the cutoff. */
  method FindBase(h: seq<Sample>, cutoff: int) returns (k: nat)
    requires h != []
    ensures k == BaseIn(h, 0, |h|, cutoff)
  {
    k := 0;
    for i := 0 to |h|
      invariant k == BaseIn(h, 0, i, cutoff)
    {
      if h[i].t <= cutoff {
        k := i;
      }
    }
  }

  /** The rule as a function of its memory. */
  function Update(m: Memory, window: int, x: Sample): (Memory, Label) {
    if x.oi <= 0.0 then (m, Neutral)
    else if m.lastOi.None? then (m.(lastOi := Some(x.oi), prevOi := Some(x.oi), lastPrice := Some(x.price)), Neutral)
    else
      var base := LiveBase(m, window, x);
      var pct := if base.oi > 0.0 then ChangePct(x.oi, base.oi) else 0.0;
      (Memory(Some(x.oi), m.lastOi, Some(x.price), pct, if window > 0 then Push(m.history, x) else m.history),
       Classify(pct, x.price > base.price))
  }

  /** The memory after a run, and the label emitted for each tick. */
  function Feed(window: int, xs: seq<Sample>): Memory {
    if xs == [] then EMPTY else Update(Feed(window, xs[..|xs| - 1]), window, xs[|xs| - 1]).0
  }

  function LiveLabel(window: int, xs: seq<Sample>, n: nat): Label
    requires n < |xs|
  {
    Update(Feed(window, xs[..n]), window, xs[n]).1
  }

  // ----- the reconstruction -----

  /** The base row of row `i` of a recorded series: the row before, or the latest row a window ago. */
  function BaseIndex(xs: seq<Sample>, window: int, i: nat): (k: nat)
    requires 1 <= i < |xs|
    ensures k < i
  {
    if window > 0 then BaseIn(xs, 0, i, xs[i].t - window) else i - 1
  }

  predicate Positive(xs: seq<Sample>) {
    forall k :: 0 <= k < |xs| ==> xs[k].oi > 0.0
  }

  /** The labels of a recorded series, one per row past the first. */
  function RowLabel(xs: seq<Sample>, window: int, i: nat): Label
    requires Positive(xs) && 1 <= i < |xs|
  {
    LabelAgainst(xs[i], xs[BaseIndex(xs, window, i)])
  }

  function RowLabels(xs: seq<Sample>, window: int, n: nat): (ls: seq<Label>)
    requires Positive(xs) && n <= |xs|
    ensures |ls| == if n == 0 then 0 else n - 1
    ensures forall i :: 1 <= i < n ==> ls[i - 1] == RowLabel(xs, window, i)
  {
    if n <= 1 then [] else RowLabels(xs, window, n - 1) + [RowLabel(xs, window, n - 1)]
  }

  function CountOf(ls: seq<Label>, l: Label): nat {
    if ls == [] then 0 else CountOf(ls[..|ls| - 1], l) + if ls[|ls| - 1] == l then 1 else 0
  }

  function Get(m: map<Label, nat>, l: Label): nat {
    if l in m then m[l] else 0
  }

  /** The rows that carry open interest. */
  function WithOi(rows: seq<Sample>): (xs: seq<Sample>)
    ensures Positive(xs)
  {
    if rows == [] then []
    else
      var xs := WithOi(rows[..|rows| - 1]);
      if rows[|rows| - 1].oi > 0.0 then xs + [rows[|rows| - 1]] else xs
  }

  datatype Profile = Profile(rows: nat, distinct: nat, steps: nat, labels: map<Label, nat>)

  function Steps(xs: seq<Sample>, n: nat): nat
    requires n <= |xs|
  {
    if n <= 1 then 0 else Steps(xs, n - 1) + if xs[n - 2].oi != xs[n - 1].oi then 1 else 0
  }

  function Counted(p: Profile): set<Label> {
    set l | l in p.labels && p.labels[l] > 0
  }

  /** A label that is constant carries no information. */
  predicate Discriminates(p: Profile) {
    |Counted(p)| > 1
  }

  /** The profile of a session: its rows with open interest, their distinct values and changes, and
      how often the reconstruction gives each label. */
  ghost predicate IsProfile(p: Profile, rows: seq<Sample>, window: int) {
    var xs := WithOi(rows);
    && p.rows == |xs| && p.steps == Steps(xs, |xs|)
    && p.distinct == |set k | 0 <= k < |xs| :: xs[k].oi|
    && forall l :: Get(p.labels, l) == CountOf(RowLabels(xs, window, |xs|), l)
  }

  method LabelRow(xs: seq<Sample>, window: int, i: nat) returns (verdict: Label)
    requires Positive(xs) && 1 <= i < |xs|
    ensures verdict == RowLabel(xs, window, i)
  {
    var k := i - 1;
    if window > 0 {
      k := FindBase(xs[..i], xs[i].t - window);
      BaseInPrefix(xs, i, i, xs[i].t - window);
    }
    verdict := Classify((xs[i].oi - xs[k].oi) / xs[k].oi * 100.0, xs[i].price > xs[k].price);
  }

  /** Observe one symbol's session, rows in time order. */
  method OiProfile(rows: seq<Sample>, window: int) returns (p: Profile)
    ensures IsProfile(p, rows, window)
  {
    var xs := WithOi(rows);
    var values: set<real> := {};
    var steps := 0;
    var labels: map<Label, nat> := map[];
    for i := 0 to |xs|
      invariant values == set k | 0 <= k < i :: xs[k].oi
      invariant steps == Steps(xs, i)
      invariant forall l :: Get(labels, l) == CountOf(RowLabels(xs, window, i), l)
    {
      values := values + {xs[i].oi};
      if i > 0 {
        if xs[i - 1].oi != xs[i].oi {
          steps := steps + 1;
        }
        var verdict := LabelRow(xs, window, i);
        assert RowLabels(xs, window, i + 1)[..i - 1] == RowLabels(xs, window, i);
        labels := labels[verdict := Get(labels, verdict) + 1];
      }
    }
    p := Profile(|xs|, |values|, steps, labels);
  }

  lemma {:induction false} BaseInPrefix(xs: seq<Sample>, m: nat, hi: nat, cutoff: int)
    requires hi <= m <= |xs|
    ensures BaseIn(xs[..m], 0, hi, cutoff) == BaseIn(xs, 0, hi, cutoff)
  {
    if hi > 0 {
      BaseInPrefix(xs, m, hi - 1, cutoff);
    }
  }
}

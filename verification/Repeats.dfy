/** Why two legs in a row can go the same way. */
module Repeats {
  import opened Ticks
  import opened Zigzag

  /** Where the extremes of the machine have been collected from. */
  function Since(z: State): nat {
    if z.swings == [] then 0 else z.swings[|z.swings| - 1].at
  }

  /** `e` is the first furthest tick since the last declaration, and if it could end a swing, nothing
      after it has retraced the threshold yet. */
  ghost predicate Pending(s: Series, th: real, up: bool, z: State, e: nat, n: nat) {
    && z.pivot < |s| && Extreme(s, up, e, Since(z), n)
    && (Along(up, s[e].p) - Along(up, s[z.pivot].p) >= th && s[e].t > s[z.pivot].t ==> Holds(s, up, e, th, e, n))
  }

  /** A swing has just been declared by tick `n`, and the counter-swing has begun. */
  ghost predicate Declared(s: Series, th: real, z: State, z': State, n: nat) {
    && |z'.swings| == |z.swings| + 1 && z'.swings[..|z.swings|] == z.swings
    && var w := z'.swings[|z.swings|];
       && InRange(w, |s|) && w.a == z.pivot && w.b == z'.pivot && w.at == n && z'.hi == n && z'.lo == n
       && Running(s, th, !Up(s, w), w.b, n, n + 1)
  }

  /** One tick, whatever was withheld before it. */
  lemma PendingStep(s: Series, th: real, z: State, n: nat)
    requires th > 0.0 && 1 <= n < |s| && z.pivot <= z.hi < n && z.pivot <= z.lo < n
    requires Pending(s, th, true, z, z.hi, n) && Pending(s, th, false, z, z.lo, n)
    ensures var z' := Step(s, th, z, n);
            && Pending(s, th, true, z', z'.hi, n + 1) && Pending(s, th, false, z', z'.lo, n + 1)
            && (z'.swings != z.swings ==> Declared(s, th, z, z', n))
            && (z'.swings == z.swings ==> z'.pivot == z.pivot)
  {
    hide Running, Declared, Pending, Holds;
    var z' := Step(s, th, z, n);
    if Ends(s, th, true, z, z.hi, n) {
      Turns(s, th, true, z, z.hi, n, z');
      StartsPending(s, th, z', n);
    } else if Ends(s, th, false, z, z.lo, n) {
      Turns(s, th, false, z, z.lo, n, z');
      StartsPending(s, th, z', n);
    } else {
      StaysPending(s, th, true, z, z.hi, n, z');
      StaysPending(s, th, false, z, z.lo, n, z');
    }
  }

  /** The machine ends a swing at `e` on tick `n`. */
  predicate Ends(s: Series, th: real, up: bool, z: State, e: nat, n: nat)
    requires z.pivot < |s| && e < |s| && n < |s|
  {
    Ready(s, th, up, z.pivot, e, n) && s[e].t > s[z.pivot].t
  }

  lemma StaysPending(s: Series, th: real, up: bool, z: State, e: nat, n: nat, z': State)
    requires th > 0.0 && n < |s| && Pending(s, th, up, z, e, n) && !Ends(s, th, up, z, e, n)
    requires z'.pivot == z.pivot && z'.swings == z.swings
    ensures Pending(s, th, up, z', if Along(up, s[n].p) > Along(up, s[e].p) then n else e, n + 1)
  {
  }

  lemma StartsPending(s: Series, th: real, z': State, n: nat)
    requires th > 0.0 && n < |s| && z'.pivot < |s| && z'.hi == z'.lo == n
    requires z'.swings != [] && z'.swings[|z'.swings| - 1].at == n
    ensures Pending(s, th, true, z', n, n + 1) && Pending(s, th, false, z', n, n + 1)
  {
  }

  lemma Turns(s: Series, th: real, up: bool, z: State, e: nat, n: nat, z': State)
    requires th > 0.0 && 1 <= n < |s| && z.pivot <= e < n && Pending(s, th, up, z, e, n)
    requires Ends(s, th, up, z, e, n) && z' == State(e, n, n, z.swings + [Swing(z.pivot, e, n)])
    ensures Declared(s, th, z, z', n)
  {
  }

  /** Some tick in `from + 1..to + 1` would have declared a leg but for the timestamp guard. */
  ghost predicate WithheldIn(s: Series, th: real, from: nat, to: nat) {
    exists k {:trigger Run(s, th, k)} :: from < k <= to && k < |s| && Blocked(s, th, Run(s, th, k), k)
  }

  /** The next leg will run against the latest one, or something has been withheld since. */
  ghost predicate Countering(s: Series, th: real, z: State, n: nat) {
    z.swings != [] ==>
      var w := z.swings[|z.swings| - 1];
      && InRange(w, |s|) && w.at < n <= |s| && z.pivot == w.b
      && (Running(s, th, !Up(s, w), z.pivot, if Up(s, w) then z.lo else z.hi, n) || WithheldIn(s, th, w.at, n - 1))
  }

  /** Two legs in a row go opposite ways, or a leg was withheld between their declarations. */
  ghost predicate Excused(s: Series, th: real, w: Swing, v: Swing) {
    InRange(w, |s|) && InRange(v, |s|) && (Up(s, w) != Up(s, v) || WithheldIn(s, th, w.at, v.at))
  }

  ghost predicate AllExcused(s: Series, th: real, ws: seq<Swing>) {
    forall i, j :: 0 <= i < j < |ws| && j == i + 1 ==> Excused(s, th, ws[i], ws[j])
  }

  lemma CounteringStays(s: Series, th: real, n: nat)
    requires th > 0.0 && 1 <= n < |s| && Countering(s, th, Run(s, th, n), n)
    requires var z := Run(s, th, n); Pending(s, th, true, z, z.hi, n) && Pending(s, th, false, z, z.lo, n)
    requires var z, z' := Run(s, th, n), Run(s, th, n + 1);
             && z'.swings == z.swings && z'.pivot == z.pivot && z' == Step(s, th, z, n)
    ensures Countering(s, th, Run(s, th, n + 1), n + 1)
  {
    hide Run, Step, Blocked, Floor, NoCounterMove, Holds;
    var z := Run(s, th, n);
    if z.swings != [] {
      var w := z.swings[|z.swings| - 1];
      var up := !Up(s, w);
      var e := if up then z.hi else z.lo;
      if Running(s, th, up, z.pivot, e, n) && !Blocked(s, th, z, n) {
        StepOnRunning(s, th, z, n, up, e);
        Extend(s, th, up, z.pivot, e, n);
      }
    }
  }

  lemma NextIsExcused(s: Series, th: real, n: nat)
    requires th > 0.0 && 1 <= n < |s| && Countering(s, th, Run(s, th, n), n) && Run(s, th, n).swings != []
    requires var z := Run(s, th, n); Pending(s, th, true, z, z.hi, n) && Pending(s, th, false, z, z.lo, n)
    requires Run(s, th, n + 1) == Step(s, th, Run(s, th, n), n) && Declared(s, th, Run(s, th, n), Run(s, th, n + 1), n)
    ensures var ws := Run(s, th, n + 1).swings; Excused(s, th, ws[|ws| - 2], ws[|ws| - 1])
  {
    hide Run, Step, Blocked, Floor, NoCounterMove, Holds;
    var z := Run(s, th, n);
    var w := z.swings[|z.swings| - 1];
    var up := !Up(s, w);
    var e := if up then z.hi else z.lo;
    if Running(s, th, up, z.pivot, e, n) {
      StepOnRunning(s, th, z, n, up, e);
    }
  }

  lemma {:induction false} RepeatsAreExcused(s: Series, th: real, n: nat)
    requires th > 0.0 && 1 <= n <= |s|
    ensures var z := Run(s, th, n);
            && Pending(s, th, true, z, z.hi, n) && Pending(s, th, false, z, z.lo, n)
            && Countering(s, th, z, n) && AllExcused(s, th, z.swings)
  {
    hide Step, Pending, Countering, Declared, Excused, Bounded;
    if n == 1 {
      FirstPending(s, th);
    } else {
      RepeatsAreExcused(s, th, n - 1);
      var z, z' := Run(s, th, n - 1), Run(s, th, n);
      PendingStep(s, th, z, n - 1);
      if z'.swings == z.swings {
        CounteringStays(s, th, n - 1);
      } else {
        DeclaredCounters(s, th, z, z', n - 1);
        if z.swings != [] {
          NextIsExcused(s, th, n - 1);
        }
      }
    }
  }

  lemma DeclaredCounters(s: Series, th: real, z: State, z': State, n: nat)
    requires Declared(s, th, z, z', n)
    ensures Countering(s, th, z', n + 1) && |z'.swings| == |z.swings| + 1 && z'.swings[..|z.swings|] == z.swings
  {
  }

  lemma FirstPending(s: Series, th: real)
    requires th > 0.0 && 1 <= |s|
    ensures var z := Run(s, th, 1);
            && Pending(s, th, true, z, z.hi, 1) && Pending(s, th, false, z, z.lo, 1)
            && Countering(s, th, z, 1) && z.swings == []
  {
  }

  // ----- exactly when two legs in a row go the same way -----

  /** `c` is the first furthest tick, against the direction of `w`, of those from the tick that
      confirmed `w` up to tick `m`. */
  ghost predicate CounterExtreme(s: Series, w: Swing, c: nat, m: nat)
    requires InRange(w, |s|)
  {
    Extreme(s, !Up(s, w), c, w.at, m + 1)
  }

  /** The counter-extreme between two legs is stamped no later than the end of the first. */
  ghost predicate Stale(s: Series, w: Swing, v: Swing)
    requires InRange(w, |s|)
  {
    exists c: nat :: CounterExtreme(s, w, c, v.b) && s[c].t <= s[w.b].t
  }

  /** Tick `m` has taken the threshold back from the counter-extreme `c`. */
  ghost predicate TakenBack(s: Series, th: real, w: Swing, c: nat, m: nat)
    requires InRange(w, |s|)
  {
    c < |s| && m < |s| && Along(!Up(s, w), s[c].p) - Along(!Up(s, w), s[m].p) >= th
  }

  /** Since the last declaration, whatever counter-extreme was taken back was stale. */
  ghost predicate Watched(s: Series, th: real, z: State, n: nat) {
    z.swings != [] ==>
      var w := z.swings[|z.swings| - 1];
      && InRange(w, |s|) && w.at < n <= |s| && z.pivot == w.b
      && Along(Up(s, w), s[w.b].p) - Along(Up(s, w), s[w.at].p) >= th
      && forall c: nat, m: nat :: w.at < m < n && CounterExtreme(s, w, c, m) && TakenBack(s, th, w, c, m) ==>
           s[c].t <= s[w.b].t
  }

  ghost predicate ExactPair(s: Series, w: Swing, v: Swing) {
    InRange(w, |s|) && InRange(v, |s|) && (Up(s, w) == Up(s, v) <==> Stale(s, w, v))
  }

  ghost predicate ExactPairs(s: Series, ws: seq<Swing>) {
    forall i, j :: 0 <= i < j < |ws| && j == i + 1 ==> ExactPair(s, ws[i], ws[j])
  }

  lemma ExtremeIsUnique(s: Series, up: bool, c: nat, d: nat, lo: nat, hi: nat)
    requires Extreme(s, up, c, lo, hi) && Extreme(s, up, d, lo, hi)
    ensures c == d
  {
    assert Along(up, s[c].p) == Along(up, s[d].p);
  }

  lemma {:induction false} ExtremeExists(s: Series, up: bool, lo: nat, hi: nat) returns (c: nat)
    requires lo < hi <= |s|
    ensures Extreme(s, up, c, lo, hi)
  {
    if hi == lo + 1 {
      c := lo;
    } else {
      c := ExtremeExists(s, up, lo, hi - 1);
      if Along(up, s[hi - 1].p) > Along(up, s[c].p) {
        c := hi - 1;
      }
    }
  }

  /** A tick that declares nothing, although it takes the counter-extreme back, finds it stale. */
  lemma WatchedStays(s: Series, th: real, z: State, n: nat)
    requires th > 0.0 && 1 <= n < |s| && z.pivot <= z.hi < n && z.pivot <= z.lo < n && Watched(s, th, z, n)
    requires Pending(s, th, true, z, z.hi, n) && Pending(s, th, false, z, z.lo, n)
    requires !Ends(s, th, true, z, z.hi, n) && !Ends(s, th, false, z, z.lo, n)
    ensures Watched(s, th, Step(s, th, z, n), n + 1)
  {
    hide Extreme, Holds, Stale;
    var z' := Step(s, th, z, n);
    if z.swings != [] {
      var w := z.swings[|z.swings| - 1];
      var up := !Up(s, w);
      var e := if up then z.hi else z.lo;
      forall c: nat, m: nat | w.at < m < n + 1 && CounterExtreme(s, w, c, m) && TakenBack(s, th, w, c, m)
        ensures s[c].t <= s[w.b].t
      {
        if m == n {
          StaleNow(s, th, up, w, z, e, c, n);
        }
      }
    }
  }

  lemma StaleNow(s: Series, th: real, up: bool, w: Swing, z: State, e: nat, c: nat, n: nat)
    requires th > 0.0 && n < |s| && Pending(s, th, up, z, e, n) && !Ends(s, th, up, z, e, n)
    requires z.swings != [] && w == z.swings[|z.swings| - 1] && InRange(w, |s|) && w.at < n && z.pivot == w.b
    requires up == !Up(s, w)
    requires Along(!up, s[w.b].p) - Along(!up, s[w.at].p) >= th
    requires CounterExtreme(s, w, c, n) && TakenBack(s, th, w, c, n)
    ensures s[c].t <= s[w.b].t
  {
    assert c != n;
    ExtremeIsUnique(s, up, c, e, w.at, n);
  }

  /** A declared leg goes the same way exactly if its counter-extreme is stale. */
  lemma DeclaredPairIsExact(s: Series, th: real, up: bool, z: State, e: nat, n: nat)
    requires th > 0.0 && n < |s| && z.pivot < e < n && Watched(s, th, z, n) && Pending(s, th, up, z, e, n)
    requires Ends(s, th, up, z, e, n) && z.swings != []
    ensures ExactPair(s, z.swings[|z.swings| - 1], Swing(z.pivot, e, n))
  {
    hide Holds;
    var w, v := z.swings[|z.swings| - 1], Swing(z.pivot, e, n);
    if Up(s, w) == up {
      var c := ExtremeExists(s, !up, w.at, e + 1);
      assert CounterExtreme(s, w, c, e) && TakenBack(s, th, w, c, e);
    } else {
      forall c: nat | CounterExtreme(s, w, c, v.b)
        ensures s[c].t > s[w.b].t
      {
        ExtremeIsUnique(s, up, c, e, w.at, e + 1);
      }
    }
  }

  lemma ExactStep(s: Series, th: real, z: State, n: nat)
    requires th > 0.0 && 1 <= n < |s| && z.pivot <= z.hi < n && z.pivot <= z.lo < n
    requires Pending(s, th, true, z, z.hi, n) && Pending(s, th, false, z, z.lo, n)
    requires Watched(s, th, z, n) && ExactPairs(s, z.swings)
    ensures Watched(s, th, Step(s, th, z, n), n + 1) && ExactPairs(s, Step(s, th, z, n).swings)
  {
    hide Pending, Watched, ExactPair, Extreme, Holds, Stale;
    if Ends(s, th, true, z, z.hi, n) {
      AfterDeclaration(s, th, true, z, z.hi, n, Step(s, th, z, n));
    } else if Ends(s, th, false, z, z.lo, n) {
      AfterDeclaration(s, th, false, z, z.lo, n, Step(s, th, z, n));
    } else {
      WatchedStays(s, th, z, n);
    }
  }

  lemma AfterDeclaration(s: Series, th: real, up: bool, z: State, e: nat, n: nat, z': State)
    requires th > 0.0 && 1 <= n < |s| && z.pivot <= e < n && Pending(s, th, up, z, e, n) && Watched(s, th, z, n)
    requires Ends(s, th, up, z, e, n) && ExactPairs(s, z.swings)
    requires z' == State(e, n, n, z.swings + [Swing(z.pivot, e, n)])
    ensures Watched(s, th, z', n + 1) && ExactPairs(s, z'.swings)
  {
    hide Watched, Pending, ExactPair;
    if z.swings != [] {
      DeclaredPairIsExact(s, th, up, z, e, n);
    }
    StartsWatched(s, th, up, z, e, n, z');
  }

  lemma StartsWatched(s: Series, th: real, up: bool, z: State, e: nat, n: nat, z': State)
    requires th > 0.0 && 1 <= n < |s| && z.pivot <= e < n && Ends(s, th, up, z, e, n)
    requires z' == State(e, n, n, z.swings + [Swing(z.pivot, e, n)])
    ensures Watched(s, th, z', n + 1)
  {
  }

  lemma {:induction false} PairsAreExact(s: Series, th: real, n: nat)
    requires th > 0.0 && 1 <= n <= |s|
    ensures Watched(s, th, Run(s, th, n), n) && ExactPairs(s, Run(s, th, n).swings)
  {
    hide Step, Pending, Countering, Watched, ExactPair, Bounded, AllExcused;
    if n == 1 {
      NothingWatched(s, th);
    } else {
      PairsAreExact(s, th, n - 1);
      RepeatsAreExcused(s, th, n - 1);
      ExactStep(s, th, Run(s, th, n - 1), n - 1);
    }
  }

  lemma NothingWatched(s: Series, th: real)
    requires 1 <= |s|
    ensures Watched(s, th, Run(s, th, 1), 1) && Run(s, th, 1).swings == []
  {
  }

  /** On any ticks, sorted or not: two legs in a row go the same way exactly when the counter-extreme
      between them, the first furthest tick against the first leg from its confirmation to the end of
      the second, is stamped no later than the end of the first. */
  lemma SameWayIff(s: Series, th: real, i: nat)
    requires th > 0.0 && i + 1 < |Swings(s, th)|
    ensures var ws := Swings(s, th);
            && InRange(ws[i], |s|) && InRange(ws[i + 1], |s|)
            && (Up(s, ws[i]) == Up(s, ws[i + 1]) <==> Stale(s, ws[i], ws[i + 1]))
  {
    hide Run, Watched, Stale;
    PairsAreExact(s, th, |s|);
    assert ExactPair(s, Swings(s, th)[i], Swings(s, th)[i + 1]);
  }

  ghost predicate Opposite(s: Series, w: Swing, v: Swing) {
    InRange(w, |s|) && InRange(v, |s|) && Up(s, w) != Up(s, v)
  }

  /** Every leg goes the other way from the one before. */
  ghost predicate Alternating(s: Series, ws: seq<Swing>) {
    forall i, j :: 0 <= i < j < |ws| && j == i + 1 ==> Opposite(s, ws[i], ws[j])
  }

  ghost predicate InTime(s: Series, w: Swing, v: Swing) {
    InRange(w, |s|) && !Stale(s, w, v)
  }

  /** No counter-extreme between two legs in a row is stale. */
  ghost predicate AllInTime(s: Series, ws: seq<Swing>) {
    forall i, j :: 0 <= i < j < |ws| && j == i + 1 ==> InTime(s, ws[i], ws[j])
  }

  /** The legs alternate exactly when no counter-extreme between two of them is stale. */
  lemma AlternatingIff(s: Series, th: real)
    requires th > 0.0
    ensures Alternating(s, Swings(s, th)) <==> AllInTime(s, Swings(s, th))
  {
    hide Run, Opposite, InTime;
    var ws := Swings(s, th);
    forall i, j | 0 <= i < j < |ws| && j == i + 1
      ensures Opposite(s, ws[i], ws[j]) <==> InTime(s, ws[i], ws[j])
    {
      SameWayIff(s, th, i);
      OppositeIffInTime(s, ws[i], ws[j]);
    }
  }

  lemma OppositeIffInTime(s: Series, w: Swing, v: Swing)
    requires ExactPair(s, w, v)
    ensures Opposite(s, w, v) <==> InTime(s, w, v)
  {
    hide Stale;
  }

  /** On any ticks, sorted or not: two legs in a row go the same way only if the timestamp guard
      withheld a leg between their declarations. */
  lemma SameWayNeedsWithheld(s: Series, th: real, i: nat)
    requires th > 0.0 && i + 1 < |Swings(s, th)|
    ensures var ws := Swings(s, th);
            && InRange(ws[i], |s|) && InRange(ws[i + 1], |s|)
            && (Up(s, ws[i]) == Up(s, ws[i + 1]) ==> WithheldIn(s, th, ws[i].at, ws[i + 1].at))
  {
    hide Run, Pending, Countering, WithheldIn;
    RepeatsAreExcused(s, th, |s|);
    assert Excused(s, th, Swings(s, th)[i], Swings(s, th)[i + 1]);
  }
}

/** Zigzag swings: the online pivot/high/low machine of `legs`, and the record `_leg` builds. */
module Zigzag {
  import opened Ticks

  /** A confirmed swing, by index: from `a` to `b`, declared when tick `at` had retraced enough. */
  datatype Swing = Swing(a: nat, b: nat, at: nat)

  /** The machine after some prefix: where the running swing starts, and the first highest and
      first lowest tick since the last declaration. */
  datatype State = State(pivot: nat, hi: nat, lo: nat, swings: seq<Swing>)

  /** One tick of the machine. */
  function Step(s: Series, th: real, z: State, i: nat): State
    requires z.pivot <= z.hi < i < |s| && z.pivot <= z.lo < i
  {
    var hi := if s[i].p > s[z.hi].p then i else z.hi;
    var lo := if s[i].p < s[z.lo].p then i else z.lo;
    if s[hi].p - s[i].p >= th && s[hi].p - s[z.pivot].p >= th && s[hi].t > s[z.pivot].t then
      State(hi, i, i, z.swings + [Swing(z.pivot, hi, i)])
    else if s[i].p - s[lo].p >= th && s[z.pivot].p - s[lo].p >= th && s[lo].t > s[z.pivot].t then
      State(lo, i, i, z.swings + [Swing(z.pivot, lo, i)])
    else
      State(z.pivot, hi, lo, z.swings)
  }

  ghost predicate Bounded(ws: seq<Swing>, n: nat) {
    forall i :: 0 <= i < |ws| ==> ws[i].a < ws[i].b <= ws[i].at < n
  }

  /** The machine after the first `n` ticks. */
  function Run(s: Series, th: real, n: nat): (z: State)
    requires 1 <= n <= |s|
    ensures z.pivot <= z.hi < n && z.pivot <= z.lo < n
    ensures Bounded(z.swings, n)
  {
    if n == 1 then State(0, 0, 0, []) else Step(s, th, Run(s, th, n - 1), n - 1)
  }

  /** The swings of a whole series. */
  function Swings(s: Series, th: real): (ws: seq<Swing>)
    ensures Bounded(ws, |s|)
  {
    if |s| < 2 then [] else Run(s, th, |s|).swings
  }

  // ----- what a swing is -----

  /** A price measured along the direction of a move: larger is further. */
  function Along(up: bool, p: real): real {
    if up then p else -p
  }

  predicate InRange(w: Swing, n: nat) {
    w.a < w.b < w.at < n
  }

  predicate Up(s: Series, w: Swing)
    requires InRange(w, |s|)
  {
    s[w.b].p > s[w.a].p
  }

  /** `e` is the first furthest tick of `lo..hi`. */
  ghost predicate Extreme(s: Series, up: bool, e: nat, lo: nat, hi: nat) {
    && lo <= e < hi <= |s|
    && (forall k :: lo <= k < hi ==> Along(up, s[k].p) <= Along(up, s[e].p))
    && (forall k :: lo <= k < e ==> Along(up, s[k].p) < Along(up, s[e].p))
  }

  /** Nothing in `lo..hi` falls back more than `d` behind tick `x`. */
  ghost predicate Holds(s: Series, up: bool, x: nat, d: real, lo: nat, hi: nat) {
    x < |s| && hi <= |s| && forall k :: lo <= k < hi ==> Along(up, s[x].p) - Along(up, s[k].p) < d
  }

  /** Nothing in `lo..hi` is behind tick `x` at all. */
  ghost predicate Floor(s: Series, up: bool, x: nat, lo: nat, hi: nat) {
    x < |s| && hi <= |s| && forall k :: lo <= k < hi ==> Along(up, s[x].p) <= Along(up, s[k].p)
  }

  /** No move against the direction reaches `th` anywhere in `lo..hi`. */
  ghost predicate NoCounterMove(s: Series, th: real, up: bool, lo: nat, hi: nat) {
    hi <= |s| && forall j, k :: lo <= j <= k < hi ==> Along(up, s[j].p) - Along(up, s[k].p) < th
  }

  /** The swing covers the threshold, ends at the furthest tick seen before `at`, and `at` is the
      first tick after its end to retrace the threshold. */
  ghost predicate Confirmed(s: Series, th: real, w: Swing) {
    && InRange(w, |s|)
    && var up := Up(s, w);
       && Along(up, s[w.b].p) - Along(up, s[w.a].p) >= th
       && Along(up, s[w.b].p) - Along(up, s[w.at].p) >= th
       && Extreme(s, up, w.b, w.a, w.at)
       && Holds(s, up, w.b, th, w.b, w.at)
  }

  /** Its start is the other extreme, and it contains no counter-move of the threshold's size. */
  ghost predicate Clean(s: Series, th: real, w: Swing) {
    InRange(w, |s|) && Floor(s, Up(s, w), w.a, w.a, w.at) && NoCounterMove(s, th, Up(s, w), w.a, w.at)
  }

  /** `v` starts where `w` ended, runs the other way, and ends no earlier than the tick that
      confirmed `w`. */
  ghost predicate Follows(s: Series, w: Swing, v: Swing) {
    InRange(w, |s|) && InRange(v, |s|) && w.b == v.a && Up(s, w) != Up(s, v) && w.at <= v.b
  }

  ghost predicate Chained(s: Series, ws: seq<Swing>) {
    forall i, j :: 0 <= i < j < |ws| && j == i + 1 ==> Follows(s, ws[i], ws[j])
  }

  /** Tick `j` had moved the threshold away from the first tick and tick `k` retraced as much. */
  ghost predicate Turned(s: Series, th: real, up: bool, j: nat, k: nat) {
    && j <= k < |s|
    && Along(up, s[j].p) - Along(up, s[0].p) >= th
    && Along(up, s[j].p) - Along(up, s[k].p) >= th
  }

  /** No swing from the first tick could have been declared before `n`. */
  ghost predicate Undeclared(s: Series, th: real, n: nat) {
    forall up: bool, j: nat, k: nat :: k < n ==> !Turned(s, th, up, j, k)
  }

  /** The zigzag of the first `n` ticks, without reference to any machine: chained alternating
      confirmed swings; the first starts at the first tick and is declared as early as one can be;
      every other runs between the exact extremes of everything inside it; and whatever follows
      the last declaration has not turned yet. */
  ghost predicate IsZigzag(s: Series, th: real, n: nat, ws: seq<Swing>) {
    && n <= |s|
    && Chained(s, ws)
    && (forall i :: 0 <= i < |ws| ==> Confirmed(s, th, ws[i]) && ws[i].at < n)
    && (forall i :: 1 <= i < |ws| ==> Clean(s, th, ws[i]))
    && (if ws == [] then Undeclared(s, th, n)
        else
          && ws[0].a == 0 && Undeclared(s, th, ws[0].at)
          && NoCounterMove(s, th, !Up(s, ws[|ws| - 1]), ws[|ws| - 1].b, n))
  }

  // ----- the clock guard -----

  /** A swing from the pivot to `e` could be declared at tick `i` as far as prices go. */
  predicate Ready(s: Series, th: real, up: bool, pivot: nat, e: nat, i: nat)
    requires pivot < |s| && e < |s| && i < |s|
  {
    Along(up, s[e].p) - Along(up, s[i].p) >= th && Along(up, s[e].p) - Along(up, s[pivot].p) >= th
  }

  /** The machine withholds a declaration only because the extreme's timestamp is not later than
      the pivot's. */
  predicate Blocked(s: Series, th: real, z: State, i: nat)
    requires z.pivot <= z.hi < i < |s| && z.pivot <= z.lo < i
  {
    || (Ready(s, th, true, z.pivot, z.hi, i) && s[z.hi].t <= s[z.pivot].t)
    || (Ready(s, th, false, z.pivot, z.lo, i) && s[z.lo].t <= s[z.pivot].t)
  }

  /** Two ticks of one instant never differ by as much as the threshold. Strictly increasing
      timestamps are the case with no two ticks of one instant at all. */
  ghost predicate Quiet(s: Series, th: real) {
    forall i, j :: 0 <= i < j < |s| && s[i].t == s[j].t ==> Abs(s[i].p - s[j].p) < th
  }

  /** In quiet time-sorted ticks the clock guard never withholds anything. */
  lemma QuietIsUnblocked(s: Series, th: real, z: State, i: nat)
    requires th > 0.0 && Sorted(s) && Quiet(s, th)
    requires z.pivot <= z.hi < i < |s| && z.pivot <= z.lo < i
    ensures !Blocked(s, th, z, i)
  {
  }

  // ----- the invariant of the machine -----

  /** After a declaration: the running swing from `pivot` has reached `e` and is unconfirmed. */
  ghost predicate Running(s: Series, th: real, up: bool, pivot: nat, e: nat, n: nat) {
    && pivot < e < n <= |s|
    && Along(up, s[e].p) - Along(up, s[pivot].p) >= th
    && Extreme(s, up, e, pivot, n)
    && Floor(s, up, pivot, pivot, n)
    && NoCounterMove(s, th, up, pivot, n)
  }

  /** What the machine remembers after `n` ticks. */
  ghost predicate Tail(s: Series, th: real, n: nat, z: State) {
    if z.swings == [] then
      z.pivot == 0 && Extreme(s, true, z.hi, 0, n) && Extreme(s, false, z.lo, 0, n)
    else
      var w := z.swings[|z.swings| - 1];
      && InRange(w, n) && n <= |s| && z.pivot == w.b && w.at <= z.hi < n && w.at <= z.lo < n
      && Running(s, th, !Up(s, w), z.pivot, if Up(s, w) then z.lo else z.hi, n)
  }

  // ----- one step -----

  /** A furthest tick that gets retraced ends a confirmed swing, and the next one starts there. */
  lemma Declare(s: Series, th: real, up: bool, a: nat, e: nat, n: nat)
    requires th > 0.0 && a < e < n < |s|
    requires Along(up, s[e].p) - Along(up, s[a].p) >= th
    requires Along(up, s[e].p) - Along(up, s[n].p) >= th
    requires Extreme(s, up, e, a, n) && Holds(s, up, e, th, e, n)
    ensures Up(s, Swing(a, e, n)) == up && Confirmed(s, th, Swing(a, e, n))
    ensures Running(s, th, !up, e, n, n + 1)
  {
  }

  /** A tick that does not retrace the threshold leaves the running swing running. */
  lemma Extend(s: Series, th: real, up: bool, pivot: nat, e: nat, n: nat)
    requires th > 0.0 && n < |s| && Running(s, th, up, pivot, e, n)
    requires Along(up, s[e].p) - Along(up, s[n].p) < th
    ensures Running(s, th, up, pivot, if Along(up, s[n].p) > Along(up, s[e].p) then n else e, n + 1)
  {
  }

  /** A running swing that retraces the threshold is declared, and the next one runs the other way. */
  lemma DeclareNext(s: Series, th: real, w: Swing, e: nat, n: nat)
    requires th > 0.0 && InRange(w, n) && w.at <= e && n < |s|
    requires Running(s, th, !Up(s, w), w.b, e, n)
    requires Along(!Up(s, w), s[e].p) - Along(!Up(s, w), s[n].p) >= th
    ensures Confirmed(s, th, Swing(w.b, e, n)) && Clean(s, th, Swing(w.b, e, n)) && Follows(s, w, Swing(w.b, e, n))
    ensures Running(s, th, Up(s, w), e, n, n + 1)
  {
    Declare(s, th, !Up(s, w), w.b, e, n);
  }

  /** While a swing runs the machine declares exactly when the running extreme is retraced, unless
      the clock withholds it: the branch for the other direction stays silent. */
  lemma StepOnRunning(s: Series, th: real, z: State, n: nat, up: bool, e: nat)
    requires th > 0.0 && n < |s|
    requires z.pivot < z.hi < n && z.pivot < z.lo < n && e == (if up then z.hi else z.lo)
    requires Running(s, th, up, z.pivot, e, n)
    ensures Step(s, th, z, n) ==
              if Ready(s, th, up, z.pivot, e, n) && !Blocked(s, th, z, n) then
                State(e, n, n, z.swings + [Swing(z.pivot, e, n)])
              else
                State(z.pivot, if s[n].p > s[z.hi].p then n else z.hi, if s[n].p < s[z.lo].p then n else z.lo, z.swings)
    ensures Blocked(s, th, z, n) ==> Ready(s, th, up, z.pivot, e, n)
  {
    hide NoCounterMove;
  }

  /** Replace what is known about the ticks after the last declaration. */
  lemma Advance(s: Series, th: real, n: nat, m: nat, ws: seq<Swing>, vs: seq<Swing>)
    requires ws != [] && IsZigzag(s, th, n, ws) && n <= m <= |s|
    requires vs == ws || (|vs| == |ws| + 1 && vs[..|ws|] == ws && Confirmed(s, th, vs[|ws|]) && vs[|ws|].at < m
                          && Clean(s, th, vs[|ws|]) && Follows(s, ws[|ws| - 1], vs[|ws|]))
    requires NoCounterMove(s, th, !Up(s, vs[|vs| - 1]), vs[|vs| - 1].b, m)
    ensures IsZigzag(s, th, m, vs)
  {
    hide Confirmed, Clean, Follows, NoCounterMove, Undeclared;
  }

  lemma StepRunning(s: Series, th: real, z: State, n: nat)
    requires th > 0.0 && 1 <= n < |s|
    requires z.swings != [] && Tail(s, th, n, z) && IsZigzag(s, th, n, z.swings)
    ensures !Blocked(s, th, z, n) ==> Tail(s, th, n + 1, Step(s, th, z, n))
    ensures !Blocked(s, th, z, n) <==> IsZigzag(s, th, n + 1, Step(s, th, z, n).swings)
  {
    hide Step, Blocked, NoCounterMove, Extreme, Floor, IsZigzag, Confirmed, Clean, Follows;
    var w := z.swings[|z.swings| - 1];
    var up := !Up(s, w);
    var e := if up then z.hi else z.lo;
    var ws := Step(s, th, z, n).swings;
    StepOnRunning(s, th, z, n, up, e);
    if Blocked(s, th, z, n) {
      Withheld(s, th, n, z.swings, e);
    } else {
      if Ready(s, th, up, z.pivot, e, n) {
        RunningHolds(s, th, up, z.pivot, e, n);
        DeclareNext(s, th, w, e, n);
        Declare(s, th, up, z.pivot, e, n);
      } else {
        Extend(s, th, up, z.pivot, e, n);
      }
      Advance(s, th, n, n + 1, z.swings, ws);
    }
  }

  /** A declaration that is withheld leaves a turn undeclared. */
  lemma Withheld(s: Series, th: real, n: nat, ws: seq<Swing>, e: nat)
    requires n < |s| && ws != [] && IsZigzag(s, th, n, ws)
    requires ws[|ws| - 1].b <= e <= n
    requires Along(!Up(s, ws[|ws| - 1]), s[e].p) - Along(!Up(s, ws[|ws| - 1]), s[n].p) >= th
    ensures !IsZigzag(s, th, n + 1, ws)
  {
    hide Confirmed, Clean, Chained, Undeclared;
  }

  lemma RunningHolds(s: Series, th: real, up: bool, pivot: nat, e: nat, n: nat)
    requires Running(s, th, up, pivot, e, n)
    ensures Holds(s, up, e, th, e, n)
  {
  }

  /** Before the first declaration, the direction that is ready is the one the machine declares,
      unless the clock withholds it. */
  lemma StepOpening(s: Series, th: real, z: State, n: nat, up: bool, e: nat)
    requires th > 0.0 && 1 <= n < |s|
    requires z.swings == [] && Tail(s, th, n, z) && Undeclared(s, th, n) && e == (if up then z.hi else z.lo)
    requires Ready(s, th, up, 0, e, n)
    ensures if Blocked(s, th, z, n) then Step(s, th, z, n).swings == []
            else Step(s, th, z, n) == State(e, n, n, [Swing(0, e, n)])
    ensures e > 0 && Holds(s, up, e, th, e, n)
  {
    forall k | e <= k < n
      ensures Along(up, s[e].p) - Along(up, s[k].p) < th
    {
      assert !Turned(s, th, up, e, k);
    }
    assert Along(up, s[n].p) <= Along(up, s[e].p);
    assert !Turned(s, th, true, z.hi, z.lo);
    assert !Turned(s, th, false, z.lo, z.hi);
  }

  lemma StillOpening(s: Series, th: real, z: State, n: nat)
    requires th > 0.0 && 1 <= n < |s|
    requires z.swings == [] && Tail(s, th, n, z) && Undeclared(s, th, n)
    requires !Ready(s, th, true, 0, z.hi, n) && !Ready(s, th, false, 0, z.lo, n)
    ensures Step(s, th, z, n).swings == [] && Tail(s, th, n + 1, Step(s, th, z, n))
    ensures Undeclared(s, th, n + 1)
  {
    forall up: bool, j: nat, k: nat | k < n + 1
      ensures !Turned(s, th, up, j, k)
    {
      if k < n {
        assert !Turned(s, th, up, j, k);
      }
    }
  }

  lemma StepFirst(s: Series, th: real, z: State, n: nat)
    requires th > 0.0 && 1 <= n < |s|
    requires z.swings == [] && Tail(s, th, n, z) && IsZigzag(s, th, n, z.swings)
    ensures !Blocked(s, th, z, n) ==> Tail(s, th, n + 1, Step(s, th, z, n))
    ensures !Blocked(s, th, z, n) <==> IsZigzag(s, th, n + 1, Step(s, th, z, n).swings)
  {
    hide Undeclared, NoCounterMove, Step, Holds;
    var hi := Ready(s, th, true, 0, z.hi, n);
    if hi || Ready(s, th, false, 0, z.lo, n) {
      var e := if hi then z.hi else z.lo;
      StepOpening(s, th, z, n, hi, e);
      if Blocked(s, th, z, n) {
        TurnedIsDeclared(s, th, hi, e, n);
      } else {
        Declare(s, th, hi, 0, e, n);
      }
    } else {
      StillOpening(s, th, z, n);
    }
  }

  lemma TurnedIsDeclared(s: Series, th: real, up: bool, e: nat, n: nat)
    requires e <= n < |s| && Ready(s, th, up, 0, e, n)
    ensures !Undeclared(s, th, n + 1)
  {
    assert Turned(s, th, up, e, n);
  }

  // ----- the theorems -----

  /** The clock withholds nothing among the first `n` ticks. */
  ghost predicate Unblocked(s: Series, th: real, n: nat)
    requires n <= |s|
  {
    forall i :: 1 <= i < n ==> !Blocked(s, th, Run(s, th, i), i)
  }

  /** At every moment up to `n` the swings declared so far are the zigzag so far. */
  ghost predicate AlwaysZigzag(s: Series, th: real, n: nat)
    requires n <= |s|
  {
    forall i :: 1 <= i <= n ==> IsZigzag(s, th, i, Run(s, th, i).swings)
  }

  lemma OneMore(s: Series, th: real, n: nat)
    requires 1 <= n < |s|
    ensures Unblocked(s, th, n + 1) <==> Unblocked(s, th, n) && !Blocked(s, th, Run(s, th, n), n)
    ensures AlwaysZigzag(s, th, n + 1) <==> AlwaysZigzag(s, th, n) && IsZigzag(s, th, n + 1, Run(s, th, n + 1).swings)
  {
    hide Blocked, IsZigzag, Run;
    assert Unblocked(s, th, n) && !Blocked(s, th, Run(s, th, n), n) ==> Unblocked(s, th, n + 1);
  }

  lemma Start(s: Series, th: real)
    requires th > 0.0 && 1 <= |s|
    ensures IsZigzag(s, th, 1, []) && Tail(s, th, 1, Run(s, th, 1))
    ensures Unblocked(s, th, 1) && AlwaysZigzag(s, th, 1)
  {
    assert IsZigzag(s, th, 1, []);
  }

  /** Dropping the swing that tick `n` declared leaves the zigzag of the ticks before it. */
  lemma ZigzagWithoutLast(s: Series, th: real, n: nat, ws: seq<Swing>, vs: seq<Swing>)
    requires th > 0.0 && 1 <= n < |s| && IsZigzag(s, th, n + 1, ws) && Bounded(vs, n)
    requires vs == ws || (ws != [] && vs == ws[..|ws| - 1] && ws[|ws| - 1].at == n)
    ensures IsZigzag(s, th, n, vs)
  {
    hide Confirmed, Extreme, Holds, Floor, Turned, Undeclared, Along;
    if ws == [] {
      UndeclaredBefore(s, th, n);
    } else {
      var w := ws[|ws| - 1];
      WaitsInRange(s, th, w);
      if vs == ws {
        CalmBefore(s, th, !Up(s, w), w.b, n);
      } else if vs != [] {
        assert Follows(s, vs[|vs| - 1], w) && Clean(s, th, w);
      }
    }
  }

  lemma WaitsInRange(s: Series, th: real, w: Swing)
    requires Confirmed(s, th, w)
    ensures InRange(w, |s|)
  {
  }

  lemma UndeclaredBefore(s: Series, th: real, n: nat)
    requires Undeclared(s, th, n + 1)
    ensures Undeclared(s, th, n)
  {
  }

  lemma CalmBefore(s: Series, th: real, up: bool, lo: nat, n: nat)
    requires NoCounterMove(s, th, up, lo, n + 1)
    ensures NoCounterMove(s, th, up, lo, n)
  {
  }

  /** A tick that does not declare keeps the swings; one that does adds a swing confirmed there. */
  lemma StepAdds(s: Series, th: real, z: State, i: nat)
    requires z.pivot <= z.hi < i < |s| && z.pivot <= z.lo < i
    ensures var ws := Step(s, th, z, i).swings;
            ws == z.swings || (ws != [] && z.swings == ws[..|ws| - 1] && ws[|ws| - 1].at == i)
  {
  }

  /** The machine's swings after `n` ticks are the zigzag of those ticks exactly when its clock guard
      has never withheld a declaration the prices called for; and then they always were. */
  lemma {:induction false} ZigzagIffUnblocked(s: Series, th: real, n: nat)
    requires th > 0.0 && 1 <= n <= |s|
    ensures IsZigzag(s, th, n, Run(s, th, n).swings) <==> Unblocked(s, th, n)
    ensures AlwaysZigzag(s, th, n) <==> Unblocked(s, th, n)
    ensures Unblocked(s, th, n) ==> Tail(s, th, n, Run(s, th, n))
  {
    hide IsZigzag, Step, Blocked, Tail, Unblocked, AlwaysZigzag, Bounded;
    if n == 1 {
      Start(s, th);
    } else {
      ZigzagIffUnblocked(s, th, n - 1);
      OneMore(s, th, n - 1);
      StepAdds(s, th, Run(s, th, n - 1), n - 1);
      if IsZigzag(s, th, n, Run(s, th, n).swings) {
        ZigzagWithoutLast(s, th, n - 1, Run(s, th, n).swings, Run(s, th, n - 1).swings);
      }
      var z := Run(s, th, n - 1);
      if Unblocked(s, th, n - 1) {
        if z.swings == [] {
          StepFirst(s, th, z, n - 1);
        } else {
          StepRunning(s, th, z, n - 1);
        }
      }
    }
  }

  /** On time-sorted quiet ticks, in particular on strictly increasing timestamps, it never does. */
  lemma QuietMachineIsZigzag(s: Series, th: real, n: nat)
    requires th > 0.0 && Sorted(s) && Quiet(s, th) && 1 <= n <= |s|
    ensures IsZigzag(s, th, n, Run(s, th, n).swings)
  {
    hide IsZigzag, Step, Blocked, Sorted, Quiet, Tail;
    forall i | 1 <= i < n
      ensures !Blocked(s, th, Run(s, th, i), i)
    {
      QuietIsUnblocked(s, th, Run(s, th, i), i);
    }
    ZigzagIffUnblocked(s, th, n);
  }

  lemma NextIsUnique(s: Series, th: real, w: Swing, v: Swing)
    requires Confirmed(s, th, w) && Confirmed(s, th, v) && Clean(s, th, w) && Clean(s, th, v)
    requires w.a == v.a && Up(s, w) == Up(s, v)
    ensures w == v
  {
  }

  lemma FirstIsUnique(s: Series, th: real, w: Swing, v: Swing)
    requires th > 0.0 && Confirmed(s, th, w) && Confirmed(s, th, v)
    requires w.a == v.a == 0 && Undeclared(s, th, w.at) && Undeclared(s, th, v.at)
    ensures w == v
  {
    assert Turned(s, th, Up(s, w), w.b, w.at) && Turned(s, th, Up(s, v), v.b, v.at);
    assert !Turned(s, th, Up(s, w), w.b, v.b) && !Turned(s, th, Up(s, v), v.b, w.b);
  }

  /** A confirmed swing after `w` is a counter-move to it. */
  lemma FollowerCounters(s: Series, th: real, w: Swing, v: Swing, n: nat)
    requires Follows(s, w, v) && Confirmed(s, th, v) && v.at < n
    ensures !NoCounterMove(s, th, !Up(s, w), w.b, n)
  {
  }

  /** The next swing of one zigzag is also the next swing of any other. */
  lemma NextSwing(s: Series, th: real, n: nat, ws: seq<Swing>, vs: seq<Swing>, k: nat)
    requires th > 0.0 && IsZigzag(s, th, n, ws) && IsZigzag(s, th, n, vs)
    requires 0 < k < |ws| && k <= |vs| && ws[k - 1] == vs[k - 1]
    ensures k < |vs| && ws[k] == vs[k]
  {
    hide Undeclared, Confirmed, Clean, NoCounterMove;
    assert Follows(s, ws[k - 1], ws[k]);
    if k == |vs| {
      FollowerCounters(s, th, ws[k - 1], ws[k], n);
    } else {
      assert Follows(s, vs[k - 1], vs[k]);
      NextIsUnique(s, th, ws[k], vs[k]);
    }
  }

  lemma FirstSwing(s: Series, th: real, n: nat, ws: seq<Swing>, vs: seq<Swing>)
    requires th > 0.0 && IsZigzag(s, th, n, ws) && IsZigzag(s, th, n, vs) && ws != []
    ensures vs != [] && ws[0] == vs[0]
  {
    hide Clean, NoCounterMove, Floor, Extreme, Holds, Chained;
    assert Turned(s, th, Up(s, ws[0]), ws[0].b, ws[0].at);
    if vs != [] {
      FirstIsUnique(s, th, ws[0], vs[0]);
    }
  }

  lemma {:induction false} Agree(s: Series, th: real, n: nat, ws: seq<Swing>, vs: seq<Swing>, k: nat)
    requires th > 0.0 && IsZigzag(s, th, n, ws) && IsZigzag(s, th, n, vs) && k < |ws|
    ensures k < |vs| && ws[k] == vs[k]
  {
    hide IsZigzag;
    if k == 0 {
      FirstSwing(s, th, n, ws, vs);
    } else {
      Agree(s, th, n, ws, vs, k - 1);
      NextSwing(s, th, n, ws, vs, k);
    }
  }

  /** A series has at most one zigzag: the definition leaves the machine no choice. */
  lemma ZigzagIsUnique(s: Series, th: real, n: nat, ws: seq<Swing>, vs: seq<Swing>)
    requires th > 0.0 && IsZigzag(s, th, n, ws) && IsZigzag(s, th, n, vs)
    ensures ws == vs
  {
    hide IsZigzag;
    forall k: nat | k < |ws| ensures k < |vs| && ws[k] == vs[k] {
      Agree(s, th, n, ws, vs, k);
    }
    if |ws| < |vs| {
      Agree(s, th, n, vs, ws, |ws|);
    } else if |vs| < |ws| {
      Agree(s, th, n, ws, vs, |vs|);
    }
  }
}

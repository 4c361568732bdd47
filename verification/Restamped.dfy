/** The zigzag is a matter of prices alone: every series has one, and the machine reports it exactly
    when each of its legs runs forward in time. */
module Restamped {
  import opened Ticks
  import opened Zigzag

  /** The same prices, each a second after the one before. */
  function Restamp(s: Series): (r: Series)
    ensures |r| == |s| && forall i :: 0 <= i < |s| ==> r[i] == Tick(i, s[i].p)
  {
    seq(|s|, i requires 0 <= i < |s| => Tick(i, s[i].p))
  }

  ghost predicate SamePrices(s: Series, r: Series) {
    |s| == |r| && forall i :: 0 <= i < |s| ==> s[i].p == r[i].p
  }

  lemma SameSwing(s: Series, r: Series, th: real, w: Swing)
    requires SamePrices(s, r) && Confirmed(s, th, w)
    ensures Confirmed(r, th, w) && Up(r, w) == Up(s, w)
  {
  }

  lemma SameClean(s: Series, r: Series, th: real, w: Swing)
    requires SamePrices(s, r) && Clean(s, th, w)
    ensures Clean(r, th, w)
  {
  }

  lemma SameCalm(s: Series, r: Series, th: real, up: bool, lo: nat, hi: nat)
    requires SamePrices(s, r) && NoCounterMove(s, th, up, lo, hi)
    ensures NoCounterMove(r, th, up, lo, hi)
  {
  }

  lemma SameUndeclared(s: Series, r: Series, th: real, n: nat)
    requires SamePrices(s, r) && Undeclared(s, th, n)
    ensures Undeclared(r, th, n)
  {
    forall up: bool, j: nat, k: nat | k < n
      ensures !Turned(r, th, up, j, k)
    {
      assert !Turned(s, th, up, j, k);
    }
  }

  /** Timestamps play no part in what the zigzag is. */
  lemma SameZigzag(s: Series, r: Series, th: real, n: nat, ws: seq<Swing>)
    requires SamePrices(s, r) && IsZigzag(s, th, n, ws)
    ensures IsZigzag(r, th, n, ws)
  {
    hide Confirmed, Clean, NoCounterMove, Undeclared, Up;
    forall i | 0 <= i < |ws|
      ensures Confirmed(r, th, ws[i]) && (i >= 1 ==> Clean(r, th, ws[i]))
    {
      SameSwing(s, r, th, ws[i]);
      if i >= 1 {
        SameClean(s, r, th, ws[i]);
      }
    }
    forall i, j | 0 <= i < j < |ws| && j == i + 1
      ensures Follows(r, ws[i], ws[j])
    {
      assert Follows(s, ws[i], ws[j]);
      SameSwing(s, r, th, ws[i]);
      SameSwing(s, r, th, ws[j]);
    }
    if ws == [] {
      SameUndeclared(s, r, th, n);
    } else {
      var w := ws[|ws| - 1];
      SameSwing(s, r, th, w);
      SameUndeclared(s, r, th, ws[0].at);
      SameCalm(s, r, th, !Up(s, w), w.b, n);
    }
  }

  /** The zigzag of the first `n` ticks. */
  function ZigzagOf(s: Series, th: real, n: nat): seq<Swing>
    requires 1 <= n <= |s|
  {
    Run(Restamp(s), th, n).swings
  }

  /** Every series has a zigzag, whatever its timestamps. */
  lemma ZigzagExists(s: Series, th: real, n: nat)
    requires th > 0.0 && 1 <= n <= |s|
    ensures IsZigzag(s, th, n, ZigzagOf(s, th, n))
  {
    hide IsZigzag, Run;
    RestampIsQuiet(s, th);
    QuietMachineIsZigzag(Restamp(s), th, n);
    SameZigzag(Restamp(s), s, th, n, ZigzagOf(s, th, n));
  }

  lemma RestampIsQuiet(s: Series, th: real)
    ensures Sorted(Restamp(s)) && Quiet(Restamp(s), th) && SamePrices(Restamp(s), s)
  {
  }

  // ----- when the machine reports it -----

  /** Every leg ends later than it starts. */
  ghost predicate Timely(s: Series, ws: seq<Swing>) {
    forall i :: 0 <= i < |ws| ==> ws[i].a < |s| && ws[i].b < |s| && s[ws[i].a].t < s[ws[i].b].t
  }

  /** What a tick does to the zigzag: the swings of the ticks before it, and perhaps one more. */
  lemma ZigzagGrows(s: Series, th: real, n: nat)
    requires th > 0.0 && 1 <= n < |s|
    ensures var vs, ws := ZigzagOf(s, th, n), ZigzagOf(s, th, n + 1);
            ws == vs || (ws != [] && vs == ws[..|ws| - 1])
  {
    StepAdds(Restamp(s), th, Run(Restamp(s), th, n), n);
  }

  /** A tick at which nothing is withheld does the same whatever the stamps. */
  lemma StepAgrees(s: Series, th: real, z: State, n: nat)
    requires th > 0.0 && n < |s| && z.pivot <= z.hi < n && z.pivot <= z.lo < n && !Blocked(s, th, z, n)
    ensures Step(Restamp(s), th, z, n) == Step(s, th, z, n)
  {
  }

  lemma {:induction false} RunsAgree(s: Series, th: real, n: nat)
    requires th > 0.0 && 1 <= n <= |s| && Unblocked(s, th, n)
    ensures Run(Restamp(s), th, n) == Run(s, th, n)
  {
    hide Step, Blocked, Bounded, Restamp;
    if n > 1 {
      RunsAgree(s, th, n - 1);
      StepAgrees(s, th, Run(s, th, n - 1), n - 1);
    }
  }

  /** A withholding tick adds nothing: no other branch steps in. */
  lemma NothingAdded(s: Series, th: real, n: nat)
    requires th > 0.0 && 1 <= n < |s| && Unblocked(s, th, n) && Blocked(s, th, Run(s, th, n), n)
    ensures Step(s, th, Run(s, th, n), n).swings == Run(s, th, n).swings
  {
    hide Run, Step, Bounded, Undeclared, Extreme, Floor, NoCounterMove, Unblocked;
    ZigzagIffUnblocked(s, th, n);
    var z := Run(s, th, n);
    if z.swings == [] {
      var up := Ready(s, th, true, 0, z.hi, n);
      StepOpening(s, th, z, n, up, if up then z.hi else z.lo);
    } else {
      var up := !Up(s, z.swings[|z.swings| - 1]);
      StepOnRunning(s, th, z, n, up, if up then z.hi else z.lo);
    }
  }

  /** Where the stamps withhold a leg, the same prices in order declare it. */
  lemma RestampDeclares(s: Series, th: real, z: State, n: nat)
    requires th > 0.0 && n < |s| && z.pivot <= z.hi < n && z.pivot <= z.lo < n
    requires Blocked(s, th, z, n) && Step(s, th, z, n).swings == z.swings
    ensures var ws := Step(Restamp(s), th, z, n).swings;
            && |ws| == |z.swings| + 1
            && var w := ws[|z.swings|]; w.a < |s| && w.b < |s| && s[w.b].t <= s[w.a].t
  {
  }

  /** So the zigzag gains a leg that does not run forward in time. */
  lemma WithheldIsUntimely(s: Series, th: real, n: nat)
    requires th > 0.0 && 1 <= n < |s| && Unblocked(s, th, n) && Blocked(s, th, Run(s, th, n), n)
    ensures !Timely(s, ZigzagOf(s, th, n + 1))
  {
    hide Step, Blocked, Bounded, Restamp, Unblocked;
    RunsAgree(s, th, n);
    NothingAdded(s, th, n);
    RestampDeclares(s, th, Run(s, th, n), n);
  }

  /** Whatever the machine reports runs forward in time. */
  lemma {:induction false} ReportedIsTimely(s: Series, th: real, n: nat)
    requires th > 0.0 && 1 <= n <= |s|
    ensures Timely(s, Run(s, th, n).swings)
  {
    if n > 1 {
      ReportedIsTimely(s, th, n - 1);
    }
  }

  lemma {:induction false} UnblockedIffTimely(s: Series, th: real, n: nat)
    requires th > 0.0 && 1 <= n <= |s|
    ensures Unblocked(s, th, n) <==> Timely(s, ZigzagOf(s, th, n))
  {
    hide Run, Step, Blocked, Unblocked, Restamp, ZigzagOf;
    if n == 1 {
      FirstIsTimely(s, th);
    } else {
      UnblockedIffTimely(s, th, n - 1);
      OneMore(s, th, n - 1);
      ZigzagGrows(s, th, n - 1);
      if Unblocked(s, th, n) {
        AgreedIsTimely(s, th, n);
      } else if Unblocked(s, th, n - 1) {
        WithheldIsUntimely(s, th, n - 1);
      }
    }
  }

  lemma FirstIsTimely(s: Series, th: real)
    requires th > 0.0 && 1 <= |s|
    ensures Unblocked(s, th, 1) && Timely(s, ZigzagOf(s, th, 1))
  {
  }

  lemma AgreedIsTimely(s: Series, th: real, n: nat)
    requires th > 0.0 && 1 <= n <= |s| && Unblocked(s, th, n)
    ensures Timely(s, ZigzagOf(s, th, n))
  {
    hide Run, Unblocked;
    RunsAgree(s, th, n);
    ReportedIsTimely(s, th, n);
  }

  /** The legs reported for a prefix are its zigzag exactly when every leg of that zigzag ends later
      than it starts; and exactly then the guard has withheld nothing. */
  lemma ReportsIffTimely(s: Series, th: real, n: nat, ws: seq<Swing>)
    requires th > 0.0 && 1 <= n <= |s| && IsZigzag(s, th, n, ws)
    ensures Run(s, th, n).swings == ws <==> Timely(s, ws)
    ensures Unblocked(s, th, n) <==> Timely(s, ws)
  {
    hide Run, IsZigzag, Timely, ZigzagOf, Unblocked;
    ZigzagExists(s, th, n);
    ZigzagIsUnique(s, th, n, ws, ZigzagOf(s, th, n));
    UnblockedIffTimely(s, th, n);
    ZigzagIffUnblocked(s, th, n);
    if IsZigzag(s, th, n, Run(s, th, n).swings) {
      ZigzagIsUnique(s, th, n, ws, Run(s, th, n).swings);
    }
  }
}

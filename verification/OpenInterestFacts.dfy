/** When the live buildup rule and its reconstruction agree. */
module OpenInterestFacts {
  import opened Ticks
  import opened OpenInterest

  /** Ticks without open interest leave no trace in the live rule. */
  lemma {:induction false} OnlyOiCounts(window: int, rows: seq<Sample>)
    ensures Feed(window, rows) == Feed(window, WithOi(rows))
  {
    if rows != [] {
      var init, x := rows[..|rows| - 1], rows[|rows| - 1];
      OnlyOiCounts(window, init);
      if x.oi > 0.0 {
        assert (WithOi(init) + [x])[..|WithOi(init)|] == WithOi(init);
      }
    }
  }

  /** The oldest sample still in the deque when sample `n` is judged. */
  function Oldest(n: nat): (k: nat)
    ensures k == 1 || k <= n
  {
    if n <= CAPACITY then 1 else n - CAPACITY + 1
  }

  /** The sample the live rule really compares sample `n` with. */
  function LiveBaseIndex(xs: seq<Sample>, window: int, n: nat): (k: nat)
    requires 1 <= n < |xs|
    ensures k <= n
  {
    if window > 0 then BaseIn(xs, Oldest(n), n, xs[n].t - window) else n - 1
  }

  /** All samples but the first, cut to the deque's capacity. */
  function Kept(xs: seq<Sample>, n: nat): seq<Sample>
    requires 1 <= n <= |xs|
  {
    xs[if n - 1 <= CAPACITY then 1 else n - CAPACITY..n]
  }

  lemma PushKept(xs: seq<Sample>, n: nat)
    requires 1 <= n < |xs|
    ensures Push(Kept(xs, n), xs[n]) == Kept(xs, n + 1)
  {
    assert Kept(xs, n) + [xs[n]] == xs[if n - 1 <= CAPACITY then 1 else n - CAPACITY..n + 1];
  }

  /** After samples `0..n` the memory is the last sample and, with a window, the deque of all samples
      but the first, cut to its capacity. */
  lemma {:induction false} MemoryIs(window: int, xs: seq<Sample>, n: nat)
    requires Positive(xs) && 1 <= n <= |xs|
    ensures var m := Feed(window, xs[..n]);
            && m.lastOi == Some(xs[n - 1].oi) && m.lastPrice == Some(xs[n - 1].price)
            && m.history == if window > 0 then Kept(xs, n) else []
  {
    hide Push, Classify, ChangePct, LiveBase, Kept;
    assert xs[..n][..n - 1] == xs[..n - 1];
    if n == 1 {
      FirstSampleKept(xs);
    } else {
      MemoryIs(window, xs, n - 1);
      PushKept(xs, n - 1);
    }
  }

  lemma FirstSampleKept(xs: seq<Sample>)
    requires xs != []
    ensures Kept(xs, 1) == []
  {
  }

  lemma {:induction false} BaseInShift(xs: seq<Sample>, lo: nat, hi: nat, cutoff: int)
    requires lo <= hi <= |xs|
    ensures forall m :: hi <= m <= |xs| ==> lo + BaseIn(xs[lo..m], 0, hi - lo, cutoff) == BaseIn(xs, lo, hi, cutoff)
  {
    if lo < hi {
      BaseInShift(xs, lo, hi - 1, cutoff);
    }
  }

  /** The live label of a sample is its label against that base. */
  lemma LiveLabelIs(window: int, xs: seq<Sample>, n: nat)
    requires Positive(xs) && 1 <= n < |xs|
    ensures LiveLabel(window, xs, n) == LabelAgainst(xs[n], xs[LiveBaseIndex(xs, window, n)])
  {
    hide Classify, ChangePct, Feed, Push, Kept, BaseIn;
    MemoryIs(window, xs, n);
    if window > 0 {
      PushKept(xs, n);
      BaseInKept(window, xs, n);
    }
  }

  lemma BaseInKept(window: int, xs: seq<Sample>, n: nat)
    requires window > 0 && 1 <= n < |xs|
    ensures var h := Kept(xs, n + 1);
            h != [] && h[BaseIn(h, 0, |h|, xs[n].t - window)] == xs[LiveBaseIndex(xs, window, n)]
  {
    var lo, cutoff := Oldest(n), xs[n].t - window;
    BaseInShift(xs, lo, n + 1, cutoff);
    assert Kept(xs, n + 1) == xs[lo..n + 1];
    assert BaseIn(xs, lo, n + 1, cutoff) == BaseIn(xs, lo, n, cutoff);
  }

  /** Moving the start of the search changes its answer exactly when nothing after the new start is
      old enough. */
  lemma {:induction false} BaseInFrom(xs: seq<Sample>, a: nat, b: nat, hi: nat, cutoff: int)
    requires a < b <= hi <= |xs|
    ensures BaseIn(xs, a, hi, cutoff) == BaseIn(xs, b, hi, cutoff) <==> exists k :: b <= k < hi && xs[k].t <= cutoff
  {
    if b < hi {
      BaseInFrom(xs, a, b, hi - 1, cutoff);
    }
  }

  /** With no window the live rule and the reconstruction agree on every sample from the second on. */
  lemma NoWindowAgrees(window: int, xs: seq<Sample>, n: nat)
    requires window <= 0 && Positive(xs) && 1 <= n < |xs|
    ensures LiveLabel(window, xs, n) == RowLabel(xs, window, n)
  {
    LiveLabelIs(window, xs, n);
  }

  /** The labels the live rule emits over raw ticks, for each tick with open interest but the first. */
  function Emitted(window: int, rows: seq<Sample>): seq<Label> {
    if rows == [] then []
    else
      var m, x := Feed(window, rows[..|rows| - 1]), rows[|rows| - 1];
      Emitted(window, rows[..|rows| - 1]) + if x.oi > 0.0 && m.lastOi.Some? then [Update(m, window, x).1] else []
  }

  lemma NothingFed(window: int)
    ensures Feed(window, []).lastOi.None?
  {
  }

  /** They are the live labels of the samples with open interest, whatever ticks lie between. */
  lemma {:induction false} EmittedAre(window: int, rows: seq<Sample>)
    ensures var xs, ls := WithOi(rows), Emitted(window, rows);
            && |ls| == (if xs == [] then 0 else |xs| - 1)
            && forall i :: 1 <= i < |xs| ==> ls[i - 1] == LiveLabel(window, xs, i)
  {
    hide Update, LiveBase, Feed, Kept;
    NothingFed(window);
    if rows != [] {
      var init, x := rows[..|rows| - 1], rows[|rows| - 1];
      EmittedAre(window, init);
      if x.oi > 0.0 {
        var before, xs := WithOi(init), WithOi(rows);
        OnlyOiCounts(window, init);
        assert xs[..|before|] == before;
        if before != [] {
          MemoryIs(window, before, |before|);
          assert before[..|before|] == before;
        }
        forall i | 1 <= i < |before|
          ensures LiveLabel(window, xs, i) == LiveLabel(window, before, i)
        {
          assert xs[..i] == before[..i];
        }
      }
    }
  }

  /** With no window, the counts of a session's profile are the counts of what the live rule emitted
      over the raw ticks. */
  lemma ProfileCountsLiveLabels(p: Profile, rows: seq<Sample>, window: int)
    requires window <= 0 && IsProfile(p, rows, window)
    ensures forall l :: Get(p.labels, l) == CountOf(Emitted(window, rows), l)
  {
    hide LiveLabel, RowLabel, CountOf, Get;
    var xs, ls := WithOi(rows), Emitted(window, rows);
    EmittedAre(window, rows);
    var rs := RowLabels(xs, window, |xs|);
    forall k | 0 <= k < |ls|
      ensures ls[k] == rs[k]
    {
      NoWindowAgrees(window, xs, k + 1);
      assert ls[k] == ls[k + 1 - 1] && rs[k] == rs[k + 1 - 1];
    }
    assert ls == rs;
  }

  lemma {:induction false} CountedIsIn(ls: seq<Label>, l: Label)
    ensures CountOf(ls, l) > 0 <==> l in ls
  {
    if ls != [] {
      CountedIsIn(ls[..|ls| - 1], l);
    }
  }

  /** Not all labels are the same. */
  ghost predicate Varies(ls: seq<Label>) {
    exists i, j :: 0 <= i < j < |ls| && ls[i] != ls[j]
  }

  /** A profile discriminates exactly when the live rule, run without a window over the session,
      emitted two different labels. */
  lemma DiscriminatesIff(p: Profile, rows: seq<Sample>, window: int)
    requires window <= 0 && IsProfile(p, rows, window)
    ensures Discriminates(p) <==> Varies(Emitted(window, rows))
  {
    hide CountOf, IsProfile, Counted, Varies;
    ProfileCountsLiveLabels(p, rows, window);
    var ls, counted := Emitted(window, rows), Counted(p);
    forall l
      ensures l in counted <==> l in ls
    {
      CountedIsIn(ls, l);
      CountedMeans(p, l);
    }
    TwoMembers(ls, counted);
  }

  lemma TwoMembers(ls: seq<Label>, members: set<Label>)
    requires forall l :: l in members <==> l in ls
    ensures |members| > 1 <==> Varies(ls)
  {
    if |members| > 1 {
      var k :| k in members;
      assert |members - {k}| == |members| - 1;
      var l :| l in members - {k};
      var i, j := IndexOf(ls, k), IndexOf(ls, l);
      assert if i < j then ls[i] != ls[j] else ls[j] != ls[i];
    } else if Varies(ls) {
      var i, j :| 0 <= i < j < |ls| && ls[i] != ls[j];
      assert {ls[i], ls[j]} <= members;
      SubsetSize({ls[i], ls[j]}, members);
    }
  }

  function IndexOf(ls: seq<Label>, l: Label): (i: nat)
    requires l in ls
    ensures i < |ls| && ls[i] == l
  {
    if ls[0] == l then 0 else 1 + IndexOf(ls[1..], l)
  }

  lemma CountedMeans(p: Profile, l: Label)
    ensures l in Counted(p) <==> Get(p.labels, l) > 0
  {
  }

  lemma SubsetSize<T>(a: set<T>, b: set<T>)
    requires a <= b
    ensures |a| <= |b|
  {
    assert b == a + (b - a);
  }

  /** With a window, the live rule and the reconstruction over all samples but the first compare
      with the same sample exactly when nothing has been dropped from the deque, or something still
      in it is old enough. */
  lemma WindowAgreesIff(window: int, xs: seq<Sample>, n: nat)
    requires window > 0 && 2 <= n < |xs|
    ensures LiveBaseIndex(xs, window, n) == 1 + BaseIndex(xs[1..], window, n - 1)
       <==> n <= CAPACITY || exists k :: Oldest(n) <= k < n && xs[k].t <= xs[n].t - window
  {
    var cutoff := xs[n].t - window;
    BaseInShift(xs, 1, n, cutoff);
    assert xs[1..|xs|] == xs[1..];
    if Oldest(n) > 1 {
      BaseInFrom(xs, 1, Oldest(n), n, cutoff);
    }
  }

  /** So for every run of up to 4000 stored samples the labels agree from the third sample on. */
  lemma WindowAgrees(window: int, xs: seq<Sample>, n: nat)
    requires window > 0 && Positive(xs) && 2 <= n < |xs|
    requires n <= CAPACITY || exists k :: Oldest(n) <= k < n && xs[k].t <= xs[n].t - window
    ensures LiveLabel(window, xs, n) == RowLabel(xs[1..], window, n - 1)
  {
    LiveLabelIs(window, xs, n);
    WindowAgreesIff(window, xs, n);
  }

  /** Over a whole session with at most 4000 stored samples, what the live rule emits from its third
      sample on is the reconstruction over all samples but the first. */
  lemma WindowRunAgrees(window: int, rows: seq<Sample>)
    requires window > 0 && 2 <= |WithOi(rows)| <= CAPACITY + 1
    ensures var xs := WithOi(rows);
            Emitted(window, rows) != []
            && Emitted(window, rows)[1..] == RowLabels(xs[1..], window, |xs| - 1)
  {
    hide LiveLabel, RowLabel, Emitted;
    var xs, ls := WithOi(rows), Emitted(window, rows);
    var rs := RowLabels(xs[1..], window, |xs| - 1);
    EmittedAre(window, rows);
    forall k | 0 <= k < |rs|
      ensures ls[1..][k] == rs[k]
    {
      WindowAgrees(window, xs, k + 2);
      assert ls[1..][k] == ls[k + 2 - 1] && rs[k] == rs[k + 1 - 1];
    }
  }

  /** Against the reconstruction over the whole recording, first sample included, the live rule uses
      the same base exactly when a sample it stored is a window old. */
  lemma WholeRecordingAgreesIff(window: int, xs: seq<Sample>, n: nat)
    requires window > 0 && 1 <= n < |xs|
    ensures LiveBaseIndex(xs, window, n) == BaseIndex(xs, window, n)
       <==> exists k :: Oldest(n) <= k < n && xs[k].t <= xs[n].t - window
  {
    BaseInFrom(xs, 0, Oldest(n), n, xs[n].t - window);
  }

  /** Before that the labels can differ: the second sample is compared with itself live, and with
      the first sample in the reconstruction. */
  lemma FirstSampleIsForgotten() returns (xs: seq<Sample>)
    ensures Positive(xs) && |xs| == 2 && xs[0].t <= xs[1].t
    ensures LiveLabel(300 * MICROS, xs, 1) == Neutral
    ensures RowLabel(xs, 300 * MICROS, 1) == LongBuildup
  {
    xs := [Sample(0, 100.0, 10.0), Sample(MICROS, 102.0, 11.0)];
    LiveLabelIs(300 * MICROS, xs, 1);
    assert LiveBaseIndex(xs, 300 * MICROS, 1) == 1;
    assert BaseIndex(xs, 300 * MICROS, 1) == 0;
    assert ChangePct(102.0, 100.0) == 2.0;
  }

  // ----- the labels, the base and the counts, said outright -----

  /** A buildup is a rise of more than one percent of the base's open interest, a covering or unwinding a
      fall of more than one percent; the price, against the base's, tells the two apart. */
  predicate LabelFits(x: Sample, base: Sample, l: Label) {
    var rose, fell, up := 100.0 * x.oi > 101.0 * base.oi, 100.0 * x.oi < 99.0 * base.oi, x.price > base.price;
    match l
    case LongBuildup => rose && up
    case ShortBuildup => rose && !up
    case ShortCovering => fell && up
    case LongUnwinding => fell && !up
    case Neutral => !rose && !fell
  }

  lemma LabelMeans(x: Sample, base: Sample, l: Label)
    requires base.oi > 0.0
    ensures LabelAgainst(x, base) == l <==> LabelFits(x, base, l)
    ensures ChangePct(x.oi, base.oi) * base.oi == 100.0 * (x.oi - base.oi)
  {
    hide ChangePct;
    PercentOf(x.oi, base.oi);
    var pct := ChangePct(x.oi, base.oi);
    Threshold(pct, base.oi, 1.0);
    Threshold(pct, base.oi, -1.0);
  }

  lemma PercentOf(oi: real, base: real)
    requires base > 0.0
    ensures ChangePct(oi, base) * base == 100.0 * (oi - base)
  {
    assert (oi - base) / base * base == oi - base;
    assert ChangePct(oi, base) * base == (oi - base) / base * base * 100.0;
  }

  lemma Threshold(pct: real, base: real, level: real)
    requires base > 0.0
    ensures (pct > level <==> pct * base > level * base) && (pct < level <==> pct * base < level * base)
  {
    var d := pct - level;
    assert d * base == pct * base - level * base;
    if d > 0.0 {
      assert d * base > 0.0;
    } else if d < 0.0 {
      assert (-d) * base > 0.0;
    }
  }

  /** The base is the latest sample at or before the cutoff, and the oldest one if there is none. */
  lemma {:induction false} BaseIs(xs: seq<Sample>, lo: nat, hi: nat, cutoff: int, k: nat)
    requires lo < hi <= |xs|
    ensures k == BaseIn(xs, lo, hi, cutoff) <==>
            || (lo <= k < hi && xs[k].t <= cutoff && forall j :: k < j < hi ==> cutoff < xs[j].t)
            || (k == lo && forall j :: lo <= j < hi ==> cutoff < xs[j].t)
  {
    if xs[hi - 1].t > cutoff && hi - 1 > lo {
      BaseIs(xs, lo, hi - 1, cutoff, k);
    }
  }

  /** Sample `k` is the one that sample `n` is compared with, searching from sample `lo` on. */
  ghost predicate IsBase(xs: seq<Sample>, window: int, lo: nat, n: nat, k: nat)
    requires k < n < |xs|
  {
    if window <= 0 then k == n - 1
    else
      || (lo <= k && xs[n].t - xs[k].t >= window && forall j :: k < j < n ==> xs[n].t - xs[j].t < window)
      || (k == lo && forall j :: lo <= j < n ==> xs[n].t - xs[j].t < window)
  }

  /** A recorded row is judged against the row before it, or the latest one a window older, or the first. */
  lemma RowLabelMeans(xs: seq<Sample>, window: int, n: nat) returns (k: nat)
    requires Positive(xs) && 1 <= n < |xs|
    ensures k < n && IsBase(xs, window, 0, n, k) && LabelFits(xs[n], xs[k], RowLabel(xs, window, n))
  {
    hide BaseIn, LabelAgainst, LabelFits;
    k := BaseIndex(xs, window, n);
    if window > 0 {
      BaseIs(xs, 0, n, xs[n].t - window, k);
    }
    LabelMeans(xs[n], xs[k], RowLabel(xs, window, n));
  }

  /** The live rule searches the last 4000 samples only, itself among them, and never the very first. With a
      window, the second sample finds no other than itself, which is neutral. */
  lemma LiveLabelMeans(xs: seq<Sample>, window: int, n: nat) returns (k: nat)
    requires Positive(xs) && 1 <= n < |xs|
    ensures window > 0 && n == 1 ==> LiveLabel(window, xs, n) == Neutral
    ensures window <= 0 || n > 1 ==>
              && k < n && IsBase(xs, window, if n <= 4000 then 1 else n - 3999, n, k)
              && LabelFits(xs[n], xs[k], LiveLabel(window, xs, n))
  {
    hide BaseIn, LabelAgainst, LabelFits, LiveLabel;
    k := LiveBaseIndex(xs, window, n);
    LiveLabelIs(window, xs, n);
    if window > 0 && n == 1 {
      OnlyItself(xs, window);
      LabelMeans(xs[1], xs[1], Neutral);
      SelfIsNeutral(xs[1]);
    } else {
      if window > 0 {
        BaseIs(xs, Oldest(n), n, xs[n].t - window, k);
      }
      LabelMeans(xs[n], xs[k], LiveLabel(window, xs, n));
    }
  }

  lemma OnlyItself(xs: seq<Sample>, window: int)
    requires window > 0 && 1 < |xs|
    ensures LiveBaseIndex(xs, window, 1) == 1
  {
  }

  lemma SelfIsNeutral(x: Sample)
    requires x.oi > 0.0
    ensures LabelFits(x, x, Neutral)
  {
  }

  /** What else is remembered after a sample: the open interest before it, and its change in percent against
      the same base. */
  lemma MemoryMeans(window: int, xs: seq<Sample>, n: nat)
    requires Positive(xs) && 1 <= n < |xs|
    ensures var m := Feed(window, xs[..n + 1]);
            var base := xs[LiveBaseIndex(xs, window, n)].oi;
            m.prevOi == Some(xs[n - 1].oi) && m.changePct * base == 100.0 * (xs[n].oi - base)
    ensures Feed(window, xs[..1]) == Memory(Some(xs[0].oi), Some(xs[0].oi), Some(xs[0].price), 0.0, [])
  {
    hide Classify, ChangePct, Push, Kept, BaseIn;
    assert xs[..n + 1][..n] == xs[..n] && xs[..1][..0] == [];
    MemoryIs(window, xs, n);
    if window > 0 {
      PushKept(xs, n);
      BaseInKept(window, xs, n);
    }
    PercentOf(xs[n].oi, xs[LiveBaseIndex(xs, window, n)].oi);
  }

  // The counts of a profile: the samples with open interest in their order, how often it changed, and how
  // often a label was given.

  lemma WithOiOne(x: Sample)
    ensures WithOi([x]) == (if x.oi > 0.0 then [x] else []) && WithOi([]) == []
  {
    assert [x][..0] == [];
  }

  lemma {:induction false} WithOiAppend(a: seq<Sample>, b: seq<Sample>)
    ensures WithOi(a + b) == WithOi(a) + WithOi(b)
  {
    hide Positive;
    if b == [] {
      assert a + b == a;
    } else {
      var init, x := b[..|b| - 1], b[|b| - 1];
      WithOiAppend(a, init);
      assert (a + b)[..|a + b| - 1] == a + init && (a + b)[|a + b| - 1] == x;
    }
  }

  /** Open interest changes from row `i` to the next. */
  predicate Changes(xs: seq<Sample>, i: nat) {
    i + 1 < |xs| && xs[i].oi != xs[i + 1].oi
  }

  lemma {:induction false} StepsIs(xs: seq<Sample>, n: nat)
    requires n <= |xs|
    ensures Steps(xs, n) == |set i: nat | i < n - 1 && Changes(xs, i)|
  {
    var steps := set i: nat | i < n - 1 && Changes(xs, i);
    if n <= 1 {
      assert steps == {};
    } else {
      StepsIs(xs, n - 1);
      var before := set i: nat | i < n - 2 && Changes(xs, i);
      assert steps == before + if Changes(xs, n - 2) then {n - 2} else {};
    }
  }

  /** Where a label occurs. */
  ghost function Spots(ls: seq<Label>, l: Label): set<int> {
    set i | 0 <= i < |ls| && ls[i] == l
  }

  lemma SpotsMore(ls: seq<Label>, l: Label)
    requires ls != []
    ensures var n := |ls| - 1;
            n !in Spots(ls[..n], l) && Spots(ls, l) == if ls[n] == l then Spots(ls[..n], l) + {n} else Spots(ls[..n], l)
  {
  }

  lemma {:induction false} CountOfIs(ls: seq<Label>, l: Label)
    ensures CountOf(ls, l) == |Spots(ls, l)|
  {
    if ls == [] {
      assert Spots(ls, l) == {};
    } else {
      hide Spots;
      CountOfIs(ls[..|ls| - 1], l);
      SpotsMore(ls, l);
    }
  }
}

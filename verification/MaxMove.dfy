/** Rolling-window extremes: the two monotonic deques of `max_move`. */
module MaxMove {
  import opened Ticks

  /** The pair of instants a move was measured between. */
  datatype Span = Span(from: int, to: int)

  datatype Move = Move(up: real, upAt: Option<Span>, down: real, downAt: Option<Span>)

  /** How far the price went in the named direction between two ticks. */
  function Gain(rising: bool, from: real, to: real): real {
    if rising then to - from else from - to
  }

  /** `a` and `b` lie in one window of length `w`. */
  ghost predicate InWindow(s: Series, w: int, a: int, b: int) {
    0 <= a <= b < |s| && s[b].t - s[a].t <= w
  }

  /** No two ticks of one window ending before `n` gained more than `v`. */
  ghost predicate Bounds(s: Series, w: int, rising: bool, n: int, v: real) {
    forall a, b :: InWindow(s, w, a, b) && b < n ==> Gain(rising, s[a].p, s[b].p) <= v
  }

  /** `a`, `b` gained exactly `v`; no window ending earlier gained as much, and no later start did by
      the same end. */
  ghost predicate FirstWitness(s: Series, w: int, rising: bool, v: real, at: Span, a: int, b: int) {
    && InWindow(s, w, a, b)
    && Gain(rising, s[a].p, s[b].p) == v
    && at == Span(s[a].t, s[b].t)
    && (forall c, d :: InWindow(s, w, c, d) && d < b ==> Gain(rising, s[c].p, s[d].p) < v)
    && (forall c :: a < c && InWindow(s, w, c, b) ==> Gain(rising, s[c].p, s[b].p) < v)
  }

  /** The quadratic definition: `v` is the largest gain over all pairs inside one window that end
      before `n`, or zero, and `at` names the latest start of the earliest end that reach it. */
  ghost predicate Largest(s: Series, w: int, rising: bool, n: int, v: real, at: Option<Span>) {
    && 0.0 <= v
    && Bounds(s, w, rising, n, v)
    && (at.None? <==> v == 0.0)
    && (at.Some? ==> exists a, b :: FirstWitness(s, w, rising, v, at.value, a, b) && b < n)
  }

  /** Starting from tick `f` gains at least as much, at any instant, as starting in `lo..hi`, and more
      than starting after `f`. */
  ghost predicate BestStart(s: Series, rising: bool, f: nat, lo: int, hi: int) {
    && f < hi && 0 <= lo && hi <= |s|
    && (forall x :: lo <= x < hi ==> 0.0 <= Gain(rising, s[f].p, s[x].p))
    && (forall x :: f < x < hi ==> 0.0 < Gain(rising, s[f].p, s[x].p))
  }

  /** The first index entry `u` answers for: everything after the entry before it. */
  ghost function From(q: seq<nat>, lo: nat, u: nat): nat
    requires u <= |q|
  {
    if u == 0 then lo else q[u - 1] + 1
  }

  /** `q` holds the candidate starts of the window `lo..hi`, oldest first. */
  ghost predicate Deque(s: Series, rising: bool, q: seq<nat>, lo: nat, hi: nat) {
    && lo < hi <= |s|
    && q != []
    && q[|q| - 1] == hi - 1
    && (forall u :: 0 <= u < |q| ==> lo <= q[u] < hi)
    && (forall u, v :: 0 <= u < v < |q| ==> q[u] < q[v])
    && (forall u {:trigger From(q, lo, u)} :: 0 <= u < |q| ==> BestStart(s, rising, q[u], From(q, lo, u), hi))
  }

  /** A tick is the best start of its own window. */
  lemma Alone(s: Series, rising: bool, i: nat)
    requires i < |s|
    ensures BestStart(s, rising, i, i, i + 1)
  {
  }

  /** A new tick at least as good as the best start of `lo..i` is the best start of `lo..i + 1`. */
  lemma TakesOver(s: Series, rising: bool, f: nat, lo: nat, i: nat)
    requires i < |s| && BestStart(s, rising, f, lo, i)
    requires Gain(rising, s[i].p, s[f].p) >= 0.0
    ensures BestStart(s, rising, i, lo, i + 1)
  {
  }

  /** A best start stays one when the new tick is worse than something it answers for. */
  lemma Survives(s: Series, rising: bool, f: nat, lo: nat, top: nat, i: nat)
    requires lo <= top < i < |s| && BestStart(s, rising, f, lo, i)
    requires Gain(rising, s[i].p, s[top].p) < 0.0
    ensures BestStart(s, rising, f, lo, i + 1)
  {
  }

  /** The best start of a window is the best start of a shorter one. */
  lemma Shrinks(s: Series, rising: bool, f: nat, lo: nat, hi: nat)
    requires BestStart(s, rising, f, lo, hi)
    ensures BestStart(s, rising, f, lo + 1, hi)
  {
  }

  /** Drop the entries tick `i` makes useless, then append it. */
  method Push(s: Series, rising: bool, q: seq<nat>, lo: nat, i: nat) returns (r: seq<nat>)
    requires lo <= i < |s|
    requires if lo == i then q == [] else Deque(s, rising, q, lo, i)
    ensures Deque(s, rising, r, lo, i + 1)
  {
    hide BestStart;
    var k := |q|;
    Alone(s, rising, i);
    while k > 0 && Gain(rising, s[i].p, s[q[k - 1]].p) >= 0.0
      invariant 0 <= k <= |q| && From(q, lo, k) <= i
      invariant BestStart(s, rising, i, From(q, lo, k), i + 1)
    {
      k := k - 1;
      TakesOver(s, rising, q[k], From(q, lo, k), i);
    }
    r := q[..k] + [i];
    forall u {:trigger From(r, lo, u)} | 0 <= u < |r|
      ensures BestStart(s, rising, r[u], From(r, lo, u), i + 1)
    {
      assert From(r, lo, u) == From(q, lo, u);
      if u < k {
        Survives(s, rising, q[u], From(q, lo, u), q[k - 1], i);
      }
    }
  }

  /** Drop the front once the window's left edge has passed it. */
  method Expire(s: Series, rising: bool, q: seq<nat>, lo: nat, i: nat) returns (r: seq<nat>)
    requires lo < i < |s|
    requires Deque(s, rising, q, lo, i + 1)
    ensures Deque(s, rising, r, lo + 1, i + 1)
  {
    hide BestStart;
    if q[0] < lo + 1 {
      r := q[1..];
      forall u {:trigger From(r, lo + 1, u)} | 0 <= u < |r|
        ensures BestStart(s, rising, r[u], From(r, lo + 1, u), i + 1)
      {
        assert From(r, lo + 1, u) == From(q, lo, u + 1);
      }
    } else {
      r := q;
      assert From(q, lo, 0) == lo;
      Shrinks(s, rising, q[0], lo, i + 1);
      forall u {:trigger From(r, lo + 1, u)} | 0 <= u < |r|
        ensures BestStart(s, rising, r[u], From(r, lo + 1, u), i + 1)
      {
        assert From(q, lo, u) == (if u == 0 then lo else From(r, lo + 1, u));
      }
    }
  }

  /** Everything before `lo` is too old for a window ending at `i`. */
  ghost predicate Expired(s: Series, w: int, lo: nat, i: nat) {
    lo <= i < |s| && forall x :: 0 <= x < lo ==> s[i].t - s[x].t > w
  }

  /** Move the left edge up to the first tick still inside the window ending at `i`. */
  method Advance(s: Series, w: int, mins: seq<nat>, maxs: seq<nat>, lo: nat, i: nat)
    returns (j: nat, mins': seq<nat>, maxs': seq<nat>)
    requires 0 <= w && i < |s|
    requires Deque(s, true, mins, lo, i + 1) && Deque(s, false, maxs, lo, i + 1)
    ensures Deque(s, true, mins', j, i + 1) && Deque(s, false, maxs', j, i + 1)
    ensures s[i].t - s[j].t <= w
    ensures Sorted(s) && (i > 0 && lo > 0 ==> Expired(s, w, lo, i - 1)) ==> Expired(s, w, j, i)
  {
    j, mins', maxs' := lo, mins, maxs;
    while s[i].t - s[j].t > w
      invariant lo <= j <= i
      invariant Deque(s, true, mins', j, i + 1) && Deque(s, false, maxs', j, i + 1)
      invariant forall x :: lo <= x < j ==> s[i].t - s[x].t > w
      decreases i - j
    {
      mins' := Expire(s, true, mins', j, i);
      maxs' := Expire(s, false, maxs', j, i);
      j := j + 1;
    }
  }

  /** The front pair either improves the best so far or leaves it. */
  lemma Improve(s: Series, w: int, rising: bool, i: nat, q: seq<nat>, lo: nat,
                v: real, at: Option<Span>, v': real, at': Option<Span>)
    requires Largest(s, w, rising, i, v, at)
    requires Expired(s, w, lo, i) && Deque(s, rising, q, lo, i + 1)
    requires s[i].t - s[lo].t <= w && s[lo].t <= s[q[0]].t
    requires var g := Gain(rising, s[q[0]].p, s[i].p);
             if g > v then v' == g && at' == Some(Span(s[q[0]].t, s[i].t)) else v' == v && at' == at
    ensures Largest(s, w, rising, i + 1, v', at')
  {
    var f := q[0];
    var g := Gain(rising, s[f].p, s[i].p);
    assert BestStart(s, rising, f, From(q, lo, 0), i + 1);
    assert InWindow(s, w, f, i);
    forall a, b | InWindow(s, w, a, b) && b < i + 1
      ensures Gain(rising, s[a].p, s[b].p) <= v'
    {
      if b == i {
        assert Gain(rising, s[a].p, s[i].p) <= g;
      }
    }
    if g > v {
      forall c | f < c && InWindow(s, w, c, i)
        ensures Gain(rising, s[c].p, s[i].p) < g
      {
        assert 0.0 < Gain(rising, s[f].p, s[c].p);
      }
      assert FirstWitness(s, w, rising, v', at'.value, f, i);
    }
  }

  /** The deque form returns what the quadratic definition asks for, on time-sorted input. On any
      input it runs to the end: neither deque is empty when its front is read. */
  method Compute(series: Series, seconds: int) returns (r: Move)
    requires 0 <= seconds
    ensures Sorted(series) ==> Largest(series, seconds * MICROS, true, |series|, r.up, r.upAt)
    ensures Sorted(series) ==> Largest(series, seconds * MICROS, false, |series|, r.down, r.downAt)
  {
    hide BestStart, FirstWitness;
    var w := seconds * MICROS;
    var bestUp, bestDn := 0.0, 0.0;
    var atUp: Option<Span>, atDn: Option<Span> := None, None;
    var mins: seq<nat>, maxs: seq<nat> := [], [];
    var j: nat := 0;
    for i := 0 to |series|
      invariant i == 0 ==> j == 0 && mins == [] && maxs == []
      invariant i > 0 ==> Deque(series, true, mins, j, i) && Deque(series, false, maxs, j, i)
      invariant i > 0 && Sorted(series) ==> Expired(series, w, j, i - 1)
      invariant Sorted(series) ==> Largest(series, w, true, i, bestUp, atUp)
      invariant Sorted(series) ==> Largest(series, w, false, i, bestDn, atDn)
    {
      var t, p := series[i].t, series[i].p;
      mins := Push(series, true, mins, j, i);
      maxs := Push(series, false, maxs, j, i);
      j, mins, maxs := Advance(series, w, mins, maxs, j, i);
      ghost var up0, upAt0, dn0, dnAt0 := bestUp, atUp, bestDn, atDn;
      var up := p - series[mins[0]].p;
      var dn := series[maxs[0]].p - p;
      if up > bestUp {
        bestUp, atUp := up, Some(Span(series[mins[0]].t, t));
      }
      if dn > bestDn {
        bestDn, atDn := dn, Some(Span(series[maxs[0]].t, t));
      }
      if Sorted(series) {
        Improve(series, w, true, i, mins, j, up0, upAt0, bestUp, atUp);
        Improve(series, w, false, i, maxs, j, dn0, dnAt0, bestDn, atDn);
      }
    }
    r := Move(bestUp, atUp, bestDn, atDn);
  }

  /** A wider window never shows a smaller move. */
  lemma WiderIsLarger(s: Series, w1: int, w2: int, rising: bool,
                      v1: real, at1: Option<Span>, v2: real, at2: Option<Span>)
    requires w1 <= w2
    requires Largest(s, w1, rising, |s|, v1, at1) && Largest(s, w2, rising, |s|, v2, at2)
    ensures v1 <= v2
  {
    if at1.Some? {
      var a, b :| FirstWitness(s, w1, rising, v1, at1.value, a, b) && b < |s|;
      assert InWindow(s, w2, a, b);
    }
  }

  /** No window shows more than the distance between the session's extremes. */
  lemma BoundedByRange(s: Series, w: int, rising: bool, v: real, at: Option<Span>, lo: real, hi: real)
    requires Largest(s, w, rising, |s|, v, at)
    requires lo <= hi && forall i :: 0 <= i < |s| ==> lo <= s[i].p <= hi
    ensures v <= hi - lo
  {
    if at.Some? {
      var a, b :| FirstWitness(s, w, rising, v, at.value, a, b) && b < |s|;
    }
  }

  /** The largest move and the pair reported for it are unique. */
  lemma LargestIsUnique(s: Series, w: int, rising: bool, v1: real, at1: Option<Span>, v2: real, at2: Option<Span>)
    requires Largest(s, w, rising, |s|, v1, at1) && Largest(s, w, rising, |s|, v2, at2)
    ensures v1 == v2 && at1 == at2
  {
    WiderIsLarger(s, w, w, rising, v1, at1, v2, at2);
    WiderIsLarger(s, w, w, rising, v2, at2, v1, at1);
    if at1.Some? {
      var a, b :| FirstWitness(s, w, rising, v1, at1.value, a, b) && b < |s|;
      var c, d :| FirstWitness(s, w, rising, v2, at2.value, c, d) && d < |s|;
      assert b == d && a == c;
    }
  }
}

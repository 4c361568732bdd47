/** Spacing of the calls to one endpoint, and what the spacing says of any window of time. */
module RateLimit {
  import opened Ticks
  import opened RealFacts

  datatype Endpoint =
    | Login | GenerateTokens | GetProfile | GetRms | PlaceOrder | ModifyOrder | CancelOrder | GetOrderBook
    | GetLtpData | GetPosition | GetTradeBook | Quote | OptionGreek | GetCandleData | Unlimited(name: string)

  /** Calls a second. */
  function Limit(e: Endpoint): (r: Option<int>)
    ensures r.Some? ==> r.value >= 1
  {
    match e
    case Unlimited(_) => None
    case PlaceOrder => Some(9)
    case ModifyOrder => Some(9)
    case CancelOrder => Some(9)
    case GetLtpData => Some(10)
    case Quote => Some(10)
    case GetProfile => Some(3)
    case GetCandleData => Some(3)
    case GetRms => Some(2)
    case _ => Some(1)
  }

  /** One recorded call. */
  datatype Stamp = Stamp(endpoint: Endpoint, at: real)

  function TimesOf(calls: seq<Stamp>, e: Endpoint): seq<real> {
    if calls == [] then []
    else
      var c := calls[|calls| - 1];
      TimesOf(calls[..|calls| - 1], e) + if c.endpoint == e then [c.at] else []
  }

  /** Consecutive times are at least one part in `limit` of a second apart. */
  ghost predicate Spaced(ts: seq<real>, limit: int) {
    forall i :: 0 < i < |ts| ==> Apart(ts, i, limit)
  }

  ghost predicate Apart(ts: seq<real>, i: nat, limit: int)
    requires 0 < i < |ts|
  {
    Times(ts[i] - ts[i - 1], limit as real) >= 1.0
  }

  /** How many of the times lie in the half-open interval from `a` to `b`. */
  function Within(ts: seq<real>, a: real, b: real): nat {
    if ts == [] then 0
    else Within(ts[..|ts| - 1], a, b) + if a <= ts[|ts| - 1] < b then 1 else 0
  }

  function Ceil(x: real): int {
    if x.Floor as real == x then x.Floor else x.Floor + 1
  }

  lemma TimesOfMore(calls: seq<Stamp>, c: Stamp, e: Endpoint)
    ensures TimesOf(calls + [c], e) == if c.endpoint == e then TimesOf(calls, e) + [c.at] else TimesOf(calls, e)
  {
    assert (calls + [c])[..|calls|] == calls;
  }

  lemma SpacedMore(ts: seq<real>, t: real, limit: int)
    requires Spaced(ts, limit) && (ts != [] ==> Times(t - ts[|ts| - 1], limit as real) >= 1.0)
    ensures Spaced(ts + [t], limit)
  {
    hide Times;
    var us := ts + [t];
    forall i | 0 < i < |us|
      ensures Apart(us, i, limit)
    {
      if i < |ts| {
        assert Apart(ts, i, limit) && ts[i] == us[i] && ts[i - 1] == us[i - 1];
      }
    }
  }

  lemma TimesLaws(x: real, y: real, k: real)
    ensures Times(x + y, k) == Times(x, k) + Times(y, k)
    ensures k > 0.0 && x < y ==> Times(x, k) < Times(y, k)
    ensures k > 0.0 && x >= 0.0 ==> Times(x, k) >= 0.0
    ensures k > 0.0 && Times(x, k) >= 1.0 ==> x > 0.0
  {
    if k > 0.0 && x < y {
      ProductPositive(y - x, k);
      assert Times(y, k) == Times(y - x, k) + Times(x, k);
    }
    if k > 0.0 && x > 0.0 {
      ProductPositive(x, k);
    }
    if k > 0.0 && x < 0.0 {
      ProductPositive(-x, k);
      assert Times(x, k) == -Times(-x, k);
    }
  }

  lemma {:induction false} SpacedRises(ts: seq<real>, limit: int, i: nat)
    requires Spaced(ts, limit) && limit >= 1 && i < |ts|
    ensures ts[i] <= ts[|ts| - 1]
    decreases |ts| - i
  {
    hide Times;
    if i < |ts| - 1 {
      assert Apart(ts, i + 1, limit);
      TimesLaws(ts[i + 1] - ts[i], 0.0, limit as real);
      SpacedRises(ts, limit, i + 1);
    }
  }

  /** None of the times is late enough, if the last one is not. */
  lemma {:induction false} NoneWithin(ts: seq<real>, a: real, b: real)
    requires forall i :: 0 <= i < |ts| ==> ts[i] < a
    ensures Within(ts, a, b) == 0
  {
    if ts != [] {
      NoneWithin(ts[..|ts| - 1], a, b);
    }
  }

  /** The calls in a window reach back from the latest of them in steps of at least one interval. */
  lemma {:induction false} WindowReach(ts: seq<real>, limit: int, a: real, b: real) returns (latest: real)
    requires Spaced(ts, limit) && limit >= 1 && Within(ts, a, b) > 0
    ensures a <= latest < b && latest <= ts[|ts| - 1]
    ensures Within(ts, a, b) as real - 1.0 <= Times(latest - a, limit as real)
  {
    hide Times;
    var n := |ts| - 1;
    var rest := ts[..n];
    var k := limit as real;
    SpacedPrefix(ts, limit);
    if !(a <= ts[n] < b) {
      latest := WindowReach(rest, limit, a, b);
      SpacedRises(ts, limit, n - 1);
    } else {
      latest := ts[n];
      if Within(rest, a, b) > 0 {
        var before := WindowReach(rest, limit, a, b);
        assert Apart(ts, n, limit);
        TimesLaws(ts[n] - ts[n - 1], ts[n - 1] - before, k);
        TimesLaws(ts[n - 1] - before, 0.0, k);
        TimesLaws(before - a, ts[n] - before, k);
        assert (ts[n] - ts[n - 1]) + (ts[n - 1] - before) == ts[n] - before;
        assert (before - a) + (ts[n] - before) == latest - a;
      } else {
        TimesLaws(latest - a, 0.0, k);
      }
    }
  }

  lemma SpacedPrefix(ts: seq<real>, limit: int)
    requires Spaced(ts, limit) && ts != []
    ensures Spaced(ts[..|ts| - 1], limit)
  {
    hide Times;
    var rest := ts[..|ts| - 1];
    forall i | 0 < i < |rest|
      ensures Apart(rest, i, limit)
    {
      assert Apart(ts, i, limit) && ts[i] == rest[i] && ts[i - 1] == rest[i - 1];
    }
  }

  /** Any half-open interval of length L holds at most the ceiling of L times the limit many calls. */
  lemma WindowBound(ts: seq<real>, limit: int, a: real, b: real)
    requires Spaced(ts, limit) && limit >= 1 && a <= b
    ensures Within(ts, a, b) <= Ceil(Times(b - a, limit as real))
  {
    hide Times, Spaced, Within;
    TimesLaws(b - a, 0.0, limit as real);
    if Within(ts, a, b) > 0 {
      var latest := WindowReach(ts, limit, a, b);
      TimesLaws(latest - a, b - a, limit as real);
    }
  }

  /** In particular no second holds more calls than the limit. */
  lemma SecondBound(ts: seq<real>, limit: int, a: real)
    requires Spaced(ts, limit) && limit >= 1
    ensures Within(ts, a, a + 1.0) <= limit
  {
    hide Spaced, Within;
    WindowBound(ts, limit, a, a + 1.0);
    assert Times(a + 1.0 - a, limit as real) == limit as real;
  }

  // ----- the table and the counts, said outright -----

  /** The limits: nine orders of each kind a second, ten prices or quotes, three profiles or candle requests,
      two margin requests, and one of anything else that is listed. */
  lemma LimitTable(e: Endpoint)
    ensures Limit(e).None? <==> e.Unlimited?
    ensures Limit(e) == Some(9) <==> e == PlaceOrder || e == ModifyOrder || e == CancelOrder
    ensures Limit(e) == Some(10) <==> e == GetLtpData || e == Quote
    ensures Limit(e) == Some(3) <==> e == GetProfile || e == GetCandleData
    ensures Limit(e) == Some(2) <==> e == GetRms
    ensures Limit(e).Some? && Limit(e).value !in {2, 3, 9, 10} ==> Limit(e) == Some(1)
  {
  }

  /** The ceiling is the least integer that is not below. */
  lemma CeilIsLeast(x: real, n: int)
    ensures Ceil(x) <= n <==> x <= n as real
  {
  }

  /** The recorded calls of an endpoint in a half-open interval. */
  ghost function CallsIn(calls: seq<Stamp>, e: Endpoint, a: real, b: real): set<int> {
    set i | 0 <= i < |calls| && calls[i].endpoint == e && a <= calls[i].at < b
  }

  lemma CallsInMore(calls: seq<Stamp>, e: Endpoint, a: real, b: real)
    requires calls != []
    ensures var n := |calls| - 1;
            var before, c := CallsIn(calls[..n], e, a, b), calls[n];
            n !in before && CallsIn(calls, e, a, b) == if c.endpoint == e && a <= c.at < b then before + {n} else before
  {
  }

  /** The times counted in an interval are those of the calls in it. */
  lemma {:induction false} WithinCountsCalls(calls: seq<Stamp>, e: Endpoint, a: real, b: real)
    ensures Within(TimesOf(calls, e), a, b) == |CallsIn(calls, e, a, b)|
  {
    hide CallsIn, TimesOf, Within;
    if calls == [] {
      NoCalls(e, a, b);
    } else {
      var init, c := calls[..|calls| - 1], calls[|calls| - 1];
      assert calls == init + [c];
      WithinCountsCalls(init, e, a, b);
      CallsInMore(calls, e, a, b);
      TimesOfMore(init, c, e);
      WithinMore(TimesOf(init, e), c.at, a, b);
    }
  }

  lemma NoCalls(e: Endpoint, a: real, b: real)
    ensures Within(TimesOf([], e), a, b) == 0 && CallsIn([], e, a, b) == {}
  {
  }

  lemma WithinMore(ts: seq<real>, t: real, a: real, b: real)
    ensures Within(ts + [t], a, b) == Within(ts, a, b) + if a <= t < b then 1 else 0
  {
    assert (ts + [t])[..|ts|] == ts;
  }
}

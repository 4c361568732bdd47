/** The client's price requests: paced per endpoint, retried with growing waits, and cut off by a
    breaker after repeated network errors. */
module MarketDataRest {
  import opened Ticks
  import opened RealFacts
  import opened RateLimit

  // ----- the breaker -----

  /** Errors before the breaker trips, and how long it stays open, in seconds. */
  const THRESHOLD: nat := 5
  const COOLDOWN: real := 60.0

  datatype Breaker = Breaker(errors: nat, openUntil: real)

  /** What one price request amounts to for the breaker; a network error is seen at an instant. */
  datatype Event = Success | NetworkError(at: real) | Neither

  predicate Trips(b: Breaker, ev: Event) {
    ev.NetworkError? && b.errors + 1 == THRESHOLD
  }

  function Absorb(b: Breaker, ev: Event): Breaker {
    match ev
    case Success => b.(errors := 0)
    case NetworkError(at) => Breaker(b.errors + 1, if Trips(b, ev) then at + COOLDOWN else b.openUntil)
    case Neither => b
  }

  function Play(b: Breaker, evs: seq<Event>): Breaker {
    if evs == [] then b else Absorb(Play(b, evs[..|evs| - 1]), evs[|evs| - 1])
  }

  function TripCount(b: Breaker, evs: seq<Event>): nat {
    if evs == [] then 0
    else TripCount(b, evs[..|evs| - 1]) + if Trips(Play(b, evs[..|evs| - 1]), evs[|evs| - 1]) then 1 else 0
  }

  function Successes(evs: seq<Event>): nat {
    if evs == [] then 0 else Successes(evs[..|evs| - 1]) + if evs[|evs| - 1].Success? then 1 else 0
  }

  function NetworkErrors(evs: seq<Event>): nat {
    if evs == [] then 0 else NetworkErrors(evs[..|evs| - 1]) + if evs[|evs| - 1].NetworkError? then 1 else 0
  }

  /** The network errors of each stretch between successes; the first stretch carries `carried` over
      from before the run. */
  function Stretches(carried: nat, evs: seq<Event>): (ns: seq<nat>)
    ensures ns != [] && |ns| == Successes(evs) + 1
  {
    if evs == [] then [carried]
    else
      var ns := Stretches(carried, evs[..|evs| - 1]);
      match evs[|evs| - 1]
      case Success => ns + [0]
      case NetworkError(_) => ns[|ns| - 1 := ns[|ns| - 1] + 1]
      case Neither => ns
  }

  /** How many stretches reach the threshold. */
  function Outages(ns: seq<nat>): nat {
    if ns == [] then 0 else Outages(ns[..|ns| - 1]) + if ns[|ns| - 1] >= THRESHOLD then 1 else 0
  }

  /** Over any run, the breaker trips once in each stretch between successes that reaches the
      threshold, however many more errors the stretch holds; one that had reached it before the run
      does not trip again. */
  lemma {:induction false} TripsOncePerStretch(b: Breaker, evs: seq<Event>)
    ensures var ns := Stretches(b.errors, evs);
            && Play(b, evs).errors == ns[|ns| - 1]
            && TripCount(b, evs) + (if b.errors >= THRESHOLD then 1 else 0) == Outages(ns)
  {
    if evs == [] {
      assert [b.errors][..0] == [];
    } else {
      TripsOncePerStretch(b, evs[..|evs| - 1]);
      var ns := Stretches(b.errors, evs[..|evs| - 1]);
      assert (ns + [0])[..|ns|] == ns;
      assert ns[|ns| - 1 := ns[|ns| - 1] + 1][..|ns| - 1] == ns[..|ns| - 1];
    }
  }

  /** As long as no request succeeds, the breaker trips exactly if the errors pass from below the
      threshold to it, and then exactly once. */
  lemma {:induction false} TripsWithoutSuccess(b: Breaker, evs: seq<Event>)
    requires Successes(evs) == 0
    ensures Play(b, evs).errors == b.errors + NetworkErrors(evs)
    ensures TripCount(b, evs) == if b.errors < THRESHOLD <= b.errors + NetworkErrors(evs) then 1 else 0
  {
    if evs != [] {
      TripsWithoutSuccess(b, evs[..|evs| - 1]);
    }
  }

  /** The breaker is open until one cooldown after its latest trip, and where it was if there is none. */
  lemma {:induction false} OpenUntilLatestTrip(b: Breaker, evs: seq<Event>)
    ensures TripCount(b, evs) == 0 ==> Play(b, evs).openUntil == b.openUntil
    ensures TripCount(b, evs) > 0 ==>
              exists k :: 0 <= k < |evs| && Trips(Play(b, evs[..k]), evs[k])
                          && Play(b, evs).openUntil == evs[k].at + COOLDOWN
                          && TripCount(b, evs) == TripCount(b, evs[..k + 1])
  {
    hide Play, TripCount;
    if evs != [] {
      var init, ev := evs[..|evs| - 1], evs[|evs| - 1];
      OneMoreEvent(b, evs);
      OpenUntilLatestTrip(b, init);
      if Trips(Play(b, init), ev) {
        assert evs[..|evs|] == evs;
      } else if TripCount(b, init) > 0 {
        var k :| 0 <= k < |init| && Trips(Play(b, init[..k]), init[k])
                 && Play(b, init).openUntil == init[k].at + COOLDOWN
                 && TripCount(b, init) == TripCount(b, init[..k + 1]);
        assert evs[k] == init[k] && evs[..k] == init[..k] && evs[..k + 1] == init[..k + 1];
      }
    } else {
      NoEvents(b);
    }
  }

  lemma NoEvents(b: Breaker)
    ensures Play(b, []) == b && TripCount(b, []) == 0
  {
  }

  lemma OneMoreEvent(b: Breaker, evs: seq<Event>)
    requires evs != []
    ensures var init, ev := evs[..|evs| - 1], evs[|evs| - 1];
            && Play(b, evs) == Absorb(Play(b, init), ev)
            && TripCount(b, evs) == TripCount(b, init) + if Trips(Play(b, init), ev) then 1 else 0
  {
  }

  function Repeat(ev: Event, n: nat): (evs: seq<Event>)
    ensures |evs| == n && forall k :: 0 <= k < n ==> evs[k] == ev
  {
    if n == 0 then [] else Repeat(ev, n - 1) + [ev]
  }

  lemma {:induction false} RepeatedErrors(ev: Event, n: nat)
    requires ev.NetworkError?
    ensures Successes(Repeat(ev, n)) == 0 && NetworkErrors(Repeat(ev, n)) == n
  {
    if n > 0 {
      RepeatedErrors(ev, n - 1);
      assert Repeat(ev, n)[..n - 1] == Repeat(ev, n - 1);
    }
  }

  lemma {:induction false} PlayOn(b: Breaker, xs: seq<Event>, ys: seq<Event>)
    ensures Play(b, xs + ys) == Play(Play(b, xs), ys)
    ensures TripCount(b, xs + ys) == TripCount(b, xs) + TripCount(Play(b, xs), ys)
  {
    if ys == [] {
      assert xs + ys == xs;
    } else {
      PlayOn(b, xs, ys[..|ys| - 1]);
      assert (xs + ys)[..|xs + ys| - 1] == xs + ys[..|ys| - 1];
    }
  }

  /** Past the threshold, no run without a success, whatever its errors and their instants, moves the
      breaker. */
  lemma NeverRearms(b: Breaker, evs: seq<Event>)
    requires b.errors >= THRESHOLD && Successes(evs) == 0
    ensures TripCount(b, evs) == 0 && Play(b, evs).openUntil == b.openUntil
  {
    TripsWithoutSuccess(b, evs);
    OpenUntilLatestTrip(b, evs);
  }

  /** An outage that trips the breaker hides every later one: whatever follows it without a success
      between, however late, leaves it where the first trip put it. */
  lemma LaterOutageGoesUnseen(b: Breaker, first: seq<Event>, later: seq<Event>)
    requires Successes(first) == 0 && b.errors < THRESHOLD <= b.errors + NetworkErrors(first)
    requires Successes(later) == 0
    ensures TripCount(b, first + later) == TripCount(b, first) == 1
    ensures Play(b, first + later).openUntil == Play(b, first).openUntil
  {
    hide Play, TripCount, Successes, NetworkErrors;
    TripsWithoutSuccess(b, first);
    NeverRearms(Play(b, first), later);
    PlayOn(b, first, later);
  }

  /** For one such run: five errors, a cooldown long over, five more errors, and no second trip. */
  lemma SecondOutageGoesUnseen() returns (evs: seq<Event>)
    ensures var shut := Breaker(0, 0.0);
            && |evs| == 10 && (forall k :: 0 <= k < 10 ==> evs[k].NetworkError?)
            && evs[4].at + COOLDOWN < evs[5].at
            && TripCount(shut, evs) == 1 && Play(shut, evs).openUntil < evs[5].at
  {
    hide Play, TripCount;
    var shut, first, later := Breaker(0, 0.0), Repeat(NetworkError(0.0), 5), Repeat(NetworkError(1000.0), 5);
    evs := first + later;
    RepeatedErrors(NetworkError(0.0), 5);
    RepeatedErrors(NetworkError(1000.0), 5);
    LaterOutageGoesUnseen(shut, first, later);
    OpenUntilLatestTrip(shut, first);
  }

  // ----- the client -----

  /** What the API did with one request. `Denied` is its rate-limit answer, in a reply or an error. */
  datatype Reply = Price(ltp: real) | Denied | Refused | Failed

  datatype Outcome = Ltp(price: real) | NoPrice | NotLoggedIn

  /** The first reply that ends the retries; their number if all were denied. */
  function Decisive(replies: seq<Reply>): (n: nat)
    ensures n <= |replies| && (n < |replies| ==> !replies[n].Denied?)
    ensures forall i :: 0 <= i < n ==> replies[i].Denied?
  {
    if replies == [] || !replies[0].Denied? then 0 else 1 + Decisive(replies[1..])
  }

  /** What a request amounts to for the breaker, if it is made and ends at instant `at`. */
  function EventOf(replies: seq<Reply>, loggedIn: bool, at: real): Event {
    var n := Decisive(replies);
    if !loggedIn || n == |replies| then Neither
    else match replies[n]
      case Price(_) => Success
      case Failed => NetworkError(at)
      case _ => Neither
  }

  /** How many calls such a request makes, and what it returns. */
  function Attempts(replies: seq<Reply>, loggedIn: bool): nat {
    var n := Decisive(replies);
    if replies == [] then 0 else if !loggedIn then 1 else if n < |replies| then n + 1 else n
  }

  function OutcomeOf(replies: seq<Reply>, loggedIn: bool): Outcome {
    var n := Decisive(replies);
    if replies == [] then NoPrice
    else if !loggedIn then NotLoggedIn
    else if n < |replies| && replies[n].Price? then Ltp(replies[n].ltp)
    else NoPrice
  }

  datatype Request = Request(replies: seq<Reply>, loggedIn: bool)

  function Pow2(n: nat): real {
    if n == 0 then 1.0 else 2.0 * Pow2(n - 1)
  }

  /** The table holds the latest call of the endpoint, and a limited endpoint's calls are spaced. */
  ghost predicate Paced(calls: seq<Stamp>, last: map<Endpoint, real>, e: Endpoint) {
    var ts := TimesOf(calls, e);
    && (ts != [] ==> e in last && last[e] == ts[|ts| - 1])
    && (Limit(e).Some? ==> Spaced(ts, Limit(e).value))
  }

  ghost predicate AllPaced(calls: seq<Stamp>, last: map<Endpoint, real>) {
    forall e :: Paced(calls, last, e)
  }

  lemma KeepsPace(calls: seq<Stamp>, last: map<Endpoint, real>, e: Endpoint, t: real)
    requires AllPaced(calls, last)
    requires Limit(e).Some? && e in last ==> Times(t - last[e], Limit(e).value as real) >= 1.0
    ensures AllPaced(calls + [Stamp(e, t)], last[e := t])
  {
    hide Spaced, TimesOf, Times;
    var more, later := calls + [Stamp(e, t)], last[e := t];
    forall x
      ensures Paced(more, later, x)
    {
      assert Paced(calls, last, x);
      TimesOfMore(calls, Stamp(e, t), x);
      if x == e && Limit(x).Some? {
        SpacedMore(TimesOf(calls, x), t, Limit(x).value);
      }
    }
  }

  lemma IntervalIsEnough(gap: real, limit: int)
    requires limit >= 1 && gap >= 1.0 / limit as real
    ensures Times(gap, limit as real) >= 1.0
  {
    var k := limit as real;
    assert Times(gap, k) == Times(gap - 1.0 / k, k) + (1.0 / k) * k;
    TimesLaws(gap - 1.0 / k, 0.0, k);
  }

  function Total(ns: seq<nat>): nat {
    if ns == [] then 0 else Total(ns[..|ns| - 1]) + ns[|ns| - 1]
  }

  lemma NeitherKeeps(b: Breaker)
    ensures Absorb(b, Neither) == b
  {
  }

  lemma NothingMade()
    ensures Total([]) == 0
  {
  }

  lemma OneMoreMade(ns: seq<nat>)
    requires ns != []
    ensures Total(ns) == Total(ns[..|ns| - 1]) + ns[|ns| - 1]
  {
  }

  /** Request `k` of a run met the breaker as the events before it left it. */
  ghost predicate Visited(b: Breaker, q: Request, evs: seq<Event>, k: nat, now: real, r: Outcome, made: nat)
    requires k < |evs|
  {
    if now < Play(b, evs[..k]).openUntil then r == NoPrice && made == 0 && evs[k] == Neither
    else
      && r == OutcomeOf(q.replies, q.loggedIn) && made == Attempts(q.replies, q.loggedIn)
      && exists at :: now <= at && evs[k] == EventOf(q.replies, q.loggedIn, at)
  }

  lemma VisitedStays(b: Breaker, q: Request, evs: seq<Event>, ev: Event, k: nat, now: real, r: Outcome, made: nat)
    requires k < |evs| && Visited(b, q, evs, k, now, r, made)
    ensures Visited(b, q, evs + [ev], k, now, r, made)
  {
    assert (evs + [ev])[..k] == evs[..k];
  }

  /** Every request of a run met the breaker as it then was. */
  ghost predicate AllVisited(b: Breaker, requests: seq<Request>, evs: seq<Event>, nows: seq<real>,
                             outcomes: seq<Outcome>, made: seq<nat>) {
    && |evs| == |nows| == |outcomes| == |made| <= |requests|
    && forall k :: 0 <= k < |evs| ==> Visited(b, requests[k], evs, k, nows[k], outcomes[k], made[k])
  }

  lemma NoneVisited(b: Breaker, requests: seq<Request>)
    ensures AllVisited(b, requests, [], [], [], [])
  {
  }

  lemma OneMoreVisited(b: Breaker, requests: seq<Request>, evs: seq<Event>, nows: seq<real>,
                       outcomes: seq<Outcome>, made: seq<nat>, ev: Event, now: real, r: Outcome, n: nat)
    requires AllVisited(b, requests, evs, nows, outcomes, made) && |evs| < |requests|
    requires Visited(b, requests[|evs|], evs + [ev], |evs|, now, r, n)
    ensures AllVisited(b, requests, evs + [ev], nows + [now], outcomes + [r], made + [n])
  {
    hide Visited;
    forall k | 0 <= k < |evs|
      ensures Visited(b, requests[k], evs + [ev], k, nows[k], outcomes[k], made[k])
    {
      VisitedStays(b, requests[k], evs, ev, k, nows[k], outcomes[k], made[k]);
    }
  }

  lemma VisitedNow(b: Breaker, q: Request, evs: seq<Event>, ev: Event, now: real, at: real, r: Outcome, made: nat)
    requires if now < Play(b, evs).openUntil then r == NoPrice && made == 0 && ev == Neither
             else
               && r == OutcomeOf(q.replies, q.loggedIn) && made == Attempts(q.replies, q.loggedIn)
               && now <= at && ev == EventOf(q.replies, q.loggedIn, at)
    ensures Visited(b, q, evs + [ev], |evs|, now, r, made)
  {
    assert (evs + [ev])[..|evs|] == evs;
  }

  class Client {
    /** How much time passes before reading `n` of the clock, beyond what was slept. */
    const drift: nat -> real
    var readings: nat
    var clock: real
    var lastCall: map<Endpoint, real>
    var errors: nat
    var openUntil: real
    ghost var calls: seq<Stamp>

    /** Every limited endpoint's calls are spaced, and the table holds the latest of each. */
    ghost predicate Valid()
      reads this
    {
      && (forall n :: drift(n) >= 0.0)
      && (forall e :: e in lastCall ==> lastCall[e] <= clock)
      && AllPaced(calls, lastCall)
    }

    ghost function State(): Breaker
      reads this
    {
      Breaker(errors, openUntil)
    }

    constructor (drift: nat -> real, start: real)
      requires forall n :: drift(n) >= 0.0
      ensures Valid() && calls == [] && State() == Breaker(0, 0.0) && clock == start
    {
      this.drift, readings, clock := drift, 0, start;
      lastCall, errors, openUntil, calls := map[], 0, 0.0, [];
    }

    /** A reading of the clock, which never runs backwards. */
    method Now() returns (t: real)
      requires Valid()
      modifies `readings, `clock
      ensures Valid() && t == clock == old(clock) + drift(old(readings)) && readings == old(readings) + 1
    {
      clock := clock + drift(readings);
      readings := readings + 1;
      t := clock;
    }

    method Sleep(d: real)
      requires Valid() && d >= 0.0
      modifies `clock
      ensures Valid() && clock == old(clock) + d
    {
      clock := clock + d;
    }

    /** The call is recorded at the later of the clock and one interval after the endpoint's previous
        call, so nothing is slept if that interval is already over. */
    method Pace(e: Endpoint)
      requires Valid()
      modifies `readings, `clock, `lastCall, `calls
      ensures Valid() && clock >= old(clock)
      ensures calls == old(calls) + [Stamp(e, clock)] && lastCall == old(lastCall)[e := clock]
      ensures var n := old(readings);
              if Limit(e).None? then clock == old(clock) + drift(n)
              else clock == drift(n + 1)
                            + Max(old(clock) + drift(n),
                                  (if e in old(lastCall) then old(lastCall[e]) else 0.0) + 1.0 / Limit(e).value as real)
    {
      hide AllPaced, Limit, Times;
      if Limit(e).Some? {
        var last := if e in lastCall then lastCall[e] else 0.0;
        var interval := 1.0 / Limit(e).value as real;
        var now := Now();
        var elapsed := now - last;
        if elapsed < interval {
          Sleep(interval - elapsed);
        }
      }
      var t := Now();
      if Limit(e).Some? && e in lastCall {
        IntervalIsEnough(t - lastCall[e], Limit(e).value);
      }
      KeepsPace(calls, lastCall, e, t);
      lastCall := lastCall[e := t];
      calls := calls + [Stamp(e, t)];
    }

    /** Whatever sequence of endpoints is served, any half-open interval of length L holds at most the
        ceiling of L times the limit many recorded calls of a limited endpoint. */
    method Serve(endpoints: seq<Endpoint>)
      requires Valid()
      modifies `readings, `clock, `lastCall, `calls
      ensures Valid() && |calls| == |old(calls)| + |endpoints|
      ensures forall i :: 0 <= i < |endpoints| ==> calls[|old(calls)| + i].endpoint == endpoints[i]
      ensures forall e, a, b :: Limit(e).Some? && a <= b ==>
                                  |CallsIn(calls, e, a, b)| <= Ceil(Times(b - a, Limit(e).value as real))
    {
      hide CallsIn;
      for i := 0 to |endpoints|
        invariant Valid() && |calls| == |old(calls)| + i
        invariant forall k :: 0 <= k < i ==> calls[|old(calls)| + k].endpoint == endpoints[k]
      {
        Pace(endpoints[i]);
      }
      forall e, a, b | Limit(e).Some? && a <= b
        ensures |CallsIn(calls, e, a, b)| <= Ceil(Times(b - a, Limit(e).value as real))
      {
        assert Paced(calls, lastCall, e);
        WithinCountsCalls(calls, e, a, b);
        WindowBound(TimesOf(calls, e), Limit(e).value, a, b);
      }
    }

    /** One price request with its retries. While the breaker is open nothing happens. Otherwise each
        attempt up to the decisive one is paced and recorded, each denied one waits twice as long as
        the one before, and only a price or a network error changes the breaker. */
    method GetLtp(replies: seq<Reply>, loggedIn: bool) returns (r: Outcome)
      requires Valid()
      modifies `readings, `clock, `lastCall, `calls, `errors, `openUntil
      ensures Valid()
      ensures var now := old(clock) + drift(old(readings));
              if now < old(openUntil) then
                r == NoPrice && calls == old(calls) && State() == old(State()) && clock == now
              else
                && r == OutcomeOf(replies, loggedIn)
                && |calls| == |old(calls)| + Attempts(replies, loggedIn)
                && State() == Absorb(old(State()), EventOf(replies, loggedIn, clock))
                && clock >= now
                && (loggedIn ==> clock - now >= 2.0 * (Pow2(Decisive(replies)) - 1.0))
    {
      hide AllPaced, Limit, Times;
      var now := Now();
      if now < openUntil {
        return NoPrice;
      }
      for attempt := 0 to |replies|
        invariant Valid() && State() == old(State())
        invariant attempt <= Decisive(replies) && (attempt > 0 ==> loggedIn)
        invariant |calls| == |old(calls)| + attempt
        invariant clock >= now && clock - now >= 2.0 * (Pow2(attempt) - 1.0)
      {
        Pace(GetLtpData);
        if !loggedIn {
          return NotLoggedIn;
        }
        match replies[attempt]
        case Price(ltp) =>
          errors := 0;
          return Ltp(ltp);
        case Denied =>
          Pow2Positive(attempt);
          Sleep(Pow2(attempt) * 2.0);
        case Refused =>
          return NoPrice;
        case Failed =>
          errors := errors + 1;
          if errors != 1 && errors == THRESHOLD {
            var t := Now();
            openUntil := t + COOLDOWN;
          }
          return NoPrice;
      }
      return NoPrice;
    }

    /** Any number of price requests: the breaker has played the events they amount to, and a request
        that finds it open makes no call. */
    method Poll(requests: seq<Request>)
      returns (outcomes: seq<Outcome>, ghost evs: seq<Event>, ghost nows: seq<real>, ghost made: seq<nat>)
      requires Valid()
      modifies `readings, `clock, `lastCall, `calls, `errors, `openUntil
      ensures Valid() && |outcomes| == |evs| == |nows| == |made| == |requests|
      ensures State() == Play(old(State()), evs) && |calls| == |old(calls)| + Total(made)
      ensures forall k :: 0 <= k < |requests| ==> old(clock) <= nows[k] <= clock
      ensures forall j, k :: 0 <= j < k < |requests| ==> nows[j] <= nows[k]
      ensures forall k :: 0 <= k < |requests| ==>
                Visited(old(State()), requests[k], evs, k, nows[k], outcomes[k], made[k])
    {
      hide AllPaced, Play, Absorb, EventOf, Total, Visited, AllVisited, OutcomeOf, Attempts;
      outcomes, evs, nows, made := [], [], [], [];
      NoEvents(State());
      NothingMade();
      NoneVisited(State(), requests);
      for i := 0 to |requests|
        invariant Valid() && |outcomes| == |evs| == |nows| == |made| == i
        invariant State() == Play(old(State()), evs) && |calls| == |old(calls)| + Total(made)
        invariant clock >= old(clock) && forall k :: 0 <= k < i ==> old(clock) <= nows[k] <= clock
        invariant forall j, k :: 0 <= j < k < i ==> nows[j] <= nows[k]
        invariant AllVisited(old(State()), requests, evs, nows, outcomes, made)
      {
        ghost var b, n, now := State(), |calls|, clock + drift(readings);
        var r := GetLtp(requests[i].replies, requests[i].loggedIn);
        ghost var ev := if now < b.openUntil then Neither
                        else EventOf(requests[i].replies, requests[i].loggedIn, clock);
        VisitedNow(old(State()), requests[i], evs, ev, now, clock, r, |calls| - n);
        OneMoreVisited(old(State()), requests, evs, nows, outcomes, made, ev, now, r, |calls| - n);
        outcomes, evs, nows, made := outcomes + [r], evs + [ev], nows + [now], made + [|calls| - n];
        OneMoreEvent(old(State()), evs);
        NeitherKeeps(b);
        OneMoreMade(made);
      }
      ReadVisited(old(State()), requests, evs, nows, outcomes, made);
    }
  }

  lemma ReadVisited(b: Breaker, requests: seq<Request>, evs: seq<Event>, nows: seq<real>,
                    outcomes: seq<Outcome>, made: seq<nat>)
    requires AllVisited(b, requests, evs, nows, outcomes, made)
    ensures |evs| == |nows| == |outcomes| == |made| <= |requests|
    ensures forall k :: 0 <= k < |evs| ==> Visited(b, requests[k], evs, k, nows[k], outcomes[k], made[k])
  {
    hide Visited;
  }

  lemma {:induction false} Pow2Positive(n: nat)
    ensures Pow2(n) >= 1.0 && Pow2(n) >= n as real + 1.0 && Pow2(0) == 1.0 && Pow2(n + 1) == Pow2(n) + Pow2(n)
  {
    if n > 0 {
      Pow2Positive(n - 1);
    }
  }

  // ----- a request and the breaker, said outright -----

  /** An empty retry budget makes no call; without a login there is one call and no price; otherwise calls are
      made up to and including the first that is not denied, and that one decides. */
  lemma RequestMeans(replies: seq<Reply>, loggedIn: bool, at: real, n: nat)
    requires n <= |replies| && (forall i :: 0 <= i < n ==> replies[i] == Denied)
    requires n < |replies| ==> replies[n] != Denied
    ensures var r, made := OutcomeOf(replies, loggedIn), Attempts(replies, loggedIn);
            var ev := EventOf(replies, loggedIn, at);
            if replies == [] then r == NoPrice && made == 0 && ev == Neither
            else if !loggedIn then r == NotLoggedIn && made == 1 && ev == Neither
            else if n == |replies| then r == NoPrice && made == |replies| && ev == Neither
            else
              && made == n + 1
              && (replies[n] == Refused ==> r == NoPrice && ev == Neither)
              && (replies[n] == Failed ==> r == NoPrice && ev == NetworkError(at))
              && (replies[n].Price? ==> r == Ltp(replies[n].ltp) && ev == Success)
  {
    assert Decisive(replies) == n;
  }

  /** The fifth error in a row without a success opens the breaker for a minute; a success clears the count but
      not an open breaker. */
  lemma BreakerMeans(b: Breaker, at: real)
    ensures Absorb(b, NetworkError(at)).errors == b.errors + 1
    ensures b.errors == 4 ==> Absorb(b, NetworkError(at)).openUntil == at + 60.0
    ensures b.errors != 4 ==> Absorb(b, NetworkError(at)).openUntil == b.openUntil
    ensures Absorb(b, Success).errors == 0 && Absorb(b, Success).openUntil == b.openUntil
    ensures Absorb(b, Neither) == b
  {
  }
}

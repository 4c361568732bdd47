/** The safety machine of the trading loop: five modes, two latches, one position.
    The broker, the risk checks and the clock are the inputs of each iteration. */
module MainLoop {
  import opened Ticks

  datatype Mode = Idle | EntryReady | InTrade | Cooldown | KillSwitch

  /** What the broker answered to an exit order. Money is in paise. */
  datatype Exit = Confirmed(pnl: int) | Unconfirmed

  datatype KillReason = WideSpread | SpreadCooldown | HighLatencyPause | LatencyRecovery | OtherKill

  /** What the four handlers would answer; only the one for the current mode is consulted. */
  datatype Replies = Replies(signal: bool, order: Option<nat>, exitDue: bool, cooled: bool)

  /** Everything one iteration learns from outside. `stop` and `stopAgain` are the two reads of the
      operator's flag, which another thread may change in between. */
  datatype Input =
    | NoTick(exit: Exit, internet: bool)
    | Rejected(staleKill: bool, exit: Exit)
    | Valid(canClear: bool, staleActive: bool, stop: bool, kill: Option<KillReason>, stopAgain: bool,
            entriesAllowed: bool, exit: Exit, replies: Replies)

  datatype Event = Opened(order: nat) | Booked(order: nat, pnl: int)

  /** The state the loop carries. `log` lists position openings and bookings in order. */
  datatype Core = Core(mode: Mode, trade: Option<nat>, intervention: bool, sleeps: nat, backoff: nat,
                       kills: nat, dailyPnl: int, wins: nat, losses: nat, streak: nat, trades: nat, log: seq<Event>)

  /** The state of a new process. */
  const FRESH: Core := Core(Idle, None, false, 0, 5, 0, 0, 0, 0, 0, 0, [])

  // ----- one iteration -----

  function Book(c: Core, pnl: int): Core
    requires c.trade.Some?
  {
    c.(dailyPnl := c.dailyPnl + pnl,
       wins := if pnl < 0 then c.wins else c.wins + 1,
       losses := if pnl < 0 then c.losses + 1 else c.losses,
       streak := if pnl < 0 then c.streak + 1 else 0,
       trades := c.trades + 1,
       log := c.log + [Booked(c.trade.value, pnl)],
       trade := None)
  }

  function Close(c: Core, exit: Exit): Core {
    if c.trade.None? then c
    else match exit
      case Unconfirmed => c.(mode := KillSwitch, intervention := true, kills := c.kills + 1)
      case Confirmed(pnl) => Book(c, pnl).(intervention := false)
  }

  function Trip(c: Core): Core {
    if c.mode == KillSwitch then c else c.(mode := KillSwitch, kills := c.kills + 1)
  }

  /** The first iteration of an outage resets the backoff and tries to close the position. */
  function StartOutage(c: Core, exit: Exit): Core {
    var d := c.(sleeps := c.sleeps + 1);
    if d.sleeps != 1 then d
    else
      var e := Close(d.(backoff := 5), exit);
      if c.trade.Some? && exit.Confirmed? then e.(mode := Cooldown) else e
  }

  /** The sleep doubles up to a minute, and starts afresh on a sign of life or after ten retries. */
  function BackOff(c: Core, internet: bool): Core {
    var b := if c.sleeps % 3 == 0 && internet then 5 else c.backoff;
    if c.sleeps >= 10 then c.(sleeps := 0, backoff := 5) else c.(backoff := if b * 2 < 60 then b * 2 else 60)
  }

  function OnNoTick(c: Core, exit: Exit, internet: bool): Core {
    BackOff(StartOutage(c, exit), internet)
  }

  function OnKill(c: Core, reason: KillReason, exit: Exit): Core {
    var d := Close(c, exit);
    if reason == WideSpread && d.mode == KillSwitch then d.(mode := Idle) else Trip(d)
  }

  function Dispatch(c: Core, i: Input): (Core, Option<Mode>)
    requires i.Valid?
  {
    match c.mode
    case Idle =>
      if i.entriesAllowed then (c.(mode := if i.replies.signal then EntryReady else Idle), Some(Idle)) else (c, None)
    case EntryReady =>
      if i.replies.order.Some? then
        (c.(mode := InTrade, trade := i.replies.order, log := c.log + [Opened(i.replies.order.value)]),
         Some(EntryReady))
      else (c.(mode := Cooldown), Some(EntryReady))
    case InTrade =>
      if !i.replies.exitDue || c.trade.None? then (c, Some(InTrade))
      else if i.exit.Confirmed? then (Book(c, i.exit.pnl).(mode := Cooldown), Some(InTrade))
      else (c.(mode := KillSwitch, intervention := true, kills := c.kills + 1), Some(InTrade))
    case Cooldown => (c.(mode := if i.replies.cooled then Idle else Cooldown), Some(Cooldown))
    case KillSwitch => (c, None)
  }

  /** One iteration: the new state, and the handler it dispatched, if any. */
  function Step(c: Core, i: Input): (Core, Option<Mode>) {
    if i.NoTick? then (OnNoTick(c, i.exit, i.internet), None)
    else
      var d := c.(sleeps := 0);
      if i.Rejected? then (if i.staleKill then Trip(Close(d, i.exit)) else d, None)
      else if d.intervention then (d, None)
      else if !i.canClear && d.mode == KillSwitch && i.staleActive then (d, None)
      else if i.stop then (Close(d, i.exit).(mode := KillSwitch), None)
      else if i.kill.Some? then (OnKill(d, i.kill.value, i.exit), None)
      else Dispatch(if d.mode == KillSwitch && !i.stopAgain then d.(mode := Idle) else d, i)
  }

  function Run(c: Core, inputs: seq<Input>): Core {
    if inputs == [] then c else Step(Run(c, inputs[..|inputs| - 1]), inputs[|inputs| - 1]).0
  }

  /** Start-up finds positions left open by an earlier process. */
  function FindOrphans(c: Core): Core {
    c.(mode := KillSwitch, intervention := true)
  }

  // ----- what every state keeps -----

  function Openings(log: seq<Event>): seq<nat> {
    if log == [] then []
    else
      var e := log[|log| - 1];
      Openings(log[..|log| - 1]) + if e.Opened? then [e.order] else []
  }

  function Bookings(log: seq<Event>): seq<nat> {
    if log == [] then []
    else
      var e := log[|log| - 1];
      Bookings(log[..|log| - 1]) + if e.Booked? then [e.order] else []
  }

  function BookedPnl(log: seq<Event>): int {
    if log == [] then 0
    else
      var e := log[|log| - 1];
      BookedPnl(log[..|log| - 1]) + if e.Booked? then e.pnl else 0
  }

  /** The losses since the latest booking that was none. */
  function LossStreak(log: seq<Event>): nat {
    if log == [] then 0
    else
      var e, before := log[|log| - 1], LossStreak(log[..|log| - 1]);
      if e.Opened? then before else if e.pnl < 0 then before + 1 else 0
  }

  /** Every position opened so far has been booked exactly once, in order, except the open one,
      which has not been booked; the day's profit is what was there at the start plus the bookings,
      and the counters count them. */
  ghost predicate Ledger(c: Core, start: int) {
    && Openings(c.log) == (if c.trade.Some? then Bookings(c.log) + [c.trade.value] else Bookings(c.log))
    && c.dailyPnl == start + BookedPnl(c.log)
    && c.trades == c.wins + c.losses == |Bookings(c.log)| && c.streak == LossStreak(c.log)
  }

  ghost predicate Safe(c: Core) {
    && (c.trade.Some? ==> c.mode == InTrade || c.intervention)
    && (c.mode == InTrade ==> c.trade.Some? && !c.intervention && c.sleeps == 0)
    && (c.intervention ==> c.mode == KillSwitch || c.mode == Idle)
    && c.sleeps < 10
    && 5 <= c.backoff <= 60
  }

  lemma StepIsSafe(c: Core, i: Input)
    requires Safe(c)
    ensures Safe(Step(c, i).0)
  {
    if i.NoTick? {
    } else if i.Rejected? || c.intervention || i.stop {
    } else if i.kill.Some? {
    } else {
    }
  }

  /** The guards let the entry handler run, and it places an order. */
  predicate Opens(c: Core, i: Input) {
    && i.Valid? && c.mode == EntryReady && !c.intervention && !i.stop && i.kill.None?
    && i.replies.order.Some?
  }

  /** Somebody asks for the open position to be closed, and the broker confirms it: the start of an
      outage, a stale feed, the operator, a kill verdict, or the exit logic. */
  predicate Books(c: Core, i: Input) {
    && c.trade.Some? && i.exit.Confirmed?
    && match i
       case NoTick(_, _) => c.sleeps == 0
       case Rejected(staleKill, _) => staleKill
       case Valid(_, _, stop, kill, _, _, _, replies) => !c.intervention && (stop || kill.Some? || replies.exitDue)
  }

  /** What one iteration does to the position and the log, and to the day's accounts, whatever else it
      does. */
  lemma StepLogs(c: Core, i: Input)
    requires Safe(c)
    ensures !(Opens(c, i) && Books(c, i)) && (Opens(c, i) ==> c.trade.None?)
    ensures var d := Step(c, i).0;
            if Opens(c, i) then d.log == c.log + [Opened(i.replies.order.value)] && d.trade == i.replies.order
            else if Books(c, i) then d.log == c.log + [Booked(c.trade.value, i.exit.pnl)] && d.trade == None
            else d.log == c.log && d.trade == c.trade
  {
    if i.NoTick? {
    } else if i.Rejected? || c.intervention || i.stop {
    } else if i.kill.Some? {
    } else {
    }
  }

  lemma StepCounts(c: Core, i: Input)
    requires Safe(c)
    ensures var d, won := Step(c, i).0, Books(c, i) && i.exit.pnl >= 0;
            && d.dailyPnl == c.dailyPnl + (if Books(c, i) then i.exit.pnl else 0)
            && d.wins == c.wins + (if won then 1 else 0)
            && d.losses == c.losses + (if Books(c, i) && !won then 1 else 0)
            && d.trades == c.trades + (if Books(c, i) then 1 else 0)
            && d.streak == (if !Books(c, i) then c.streak else if won then 0 else c.streak + 1)
  {
    if i.NoTick? {
    } else if i.Rejected? || c.intervention || i.stop {
    } else if i.kill.Some? {
    } else {
    }
  }

  lemma LogGrows(log: seq<Event>, e: Event)
    ensures Openings(log + [e]) == if e.Opened? then Openings(log) + [e.order] else Openings(log)
    ensures Bookings(log + [e]) == if e.Booked? then Bookings(log) + [e.order] else Bookings(log)
    ensures BookedPnl(log + [e]) == BookedPnl(log) + if e.Booked? then e.pnl else 0
    ensures LossStreak(log + [e]) == if e.Opened? then LossStreak(log) else if e.pnl < 0 then LossStreak(log) + 1 else 0
  {
    assert (log + [e])[..|log|] == log;
  }

  lemma StepKeepsLedger(c: Core, i: Input, start: int)
    requires Safe(c) && Ledger(c, start)
    ensures Ledger(Step(c, i).0, start)
  {
    hide Safe, Step, Openings, Bookings, BookedPnl, LossStreak;
    StepLogs(c, i);
    StepCounts(c, i);
    if Step(c, i).0.log != c.log {
      LogGrows(c.log, Step(c, i).0.log[|c.log|]);
    }
  }

  lemma {:induction false} SafeRun(c: Core, inputs: seq<Input>)
    requires Safe(c)
    ensures Safe(Run(c, inputs))
  {
    hide Safe, Step;
    if inputs != [] {
      SafeRun(c, inputs[..|inputs| - 1]);
      StepIsSafe(Run(c, inputs[..|inputs| - 1]), inputs[|inputs| - 1]);
    }
  }

  /** Over every run: an open position is being managed or waits for a human, a managed position is
      open, and no booking is lost or repeated. */
  lemma {:induction false} RunIsSafe(c: Core, inputs: seq<Input>, start: int)
    requires Safe(c) && Ledger(c, start)
    ensures Safe(Run(c, inputs)) && Ledger(Run(c, inputs), start)
  {
    hide Safe, Ledger, Step;
    if inputs != [] {
      RunIsSafe(c, inputs[..|inputs| - 1], start);
      StepIsSafe(Run(c, inputs[..|inputs| - 1]), inputs[|inputs| - 1]);
      StepKeepsLedger(Run(c, inputs[..|inputs| - 1]), inputs[|inputs| - 1], start);
    }
  }

  lemma StartIsSafe(c: Core)
    requires Safe(c)
    ensures Safe(FindOrphans(c)) && forall start :: Ledger(c, start) ==> Ledger(FindOrphans(c), start)
    ensures c == FRESH ==> Safe(c) && Ledger(c, 0)
  {
  }

  // ----- halting -----

  /** A handler runs exactly in an iteration with a valid tick in which every guard is clear and
      there is something to run. */
  lemma DispatchIffClear(c: Core, i: Input)
    requires Safe(c)
    ensures Step(c, i).1.Some? <==>
              && i.Valid? && !c.intervention && !i.stop && i.kill.None?
              && (c.mode == KillSwitch ==> (i.canClear || !i.staleActive) && !i.stopAgain && i.entriesAllowed)
              && (c.mode == Idle ==> i.entriesAllowed)
  {
  }

  /** A position opens exactly when the entry handler runs and places an order, and never on top of
      another one. */
  lemma OpensIff(c: Core, i: Input)
    requires Safe(c)
    ensures Openings(Step(c, i).0.log) ==
            if Opens(c, i) then Openings(c.log) + [i.replies.order.value] else Openings(c.log)
    ensures Opens(c, i) ==> c.trade.None?
  {
    hide Safe, Step, Opens, Books, Openings;
    StepLogs(c, i);
    if Step(c, i).0.log != c.log {
      LogGrows(c.log, Step(c, i).0.log[|c.log|]);
    }
  }

  /** A position is booked exactly when an exit that was asked for is confirmed, for the confirmed
      amount. */
  lemma BooksIff(c: Core, i: Input)
    requires Safe(c)
    ensures var d := Step(c, i).0;
            if Books(c, i) then
              && Bookings(d.log) == Bookings(c.log) + [c.trade.value]
              && BookedPnl(d.log) == BookedPnl(c.log) + i.exit.pnl
              && d.trade == None
            else
              && Bookings(d.log) == Bookings(c.log) && BookedPnl(d.log) == BookedPnl(c.log)
              && (c.trade.Some? ==> d.trade == c.trade)
  {
    hide Safe, Step, Bookings, BookedPnl;
    StepLogs(c, i);
    if Step(c, i).0.log != c.log {
      LogGrows(c.log, Step(c, i).0.log[|c.log|]);
    }
  }

  /** Over a whole run, every booking in the log stems from an iteration of its own, which met that
      position open, asked for its exit, and had it confirmed for that amount. */
  lemma {:induction false} BookingsAreConfirmed(c: Core, inputs: seq<Input>, j: nat)
    requires Safe(c) && |c.log| <= j < |Run(c, inputs).log| && Run(c, inputs).log[j].Booked?
    ensures exists k :: 0 <= k < |inputs| && WritesBooking(Run(c, inputs[..k]), inputs[k], Run(c, inputs).log, j)
  {
    hide Safe, Step, Books, Opens;
    var init, i := inputs[..|inputs| - 1], inputs[|inputs| - 1];
    SafeRun(c, init);
    StepLogs(Run(c, init), i);
    if j < |Run(c, init).log| {
      BookingsAreConfirmed(c, init, j);
      var k :| 0 <= k < |init| && WritesBooking(Run(c, init[..k]), init[k], Run(c, init).log, j);
      assert inputs[k] == init[k] && inputs[..k] == init[..k];
    } else {
      assert WritesBooking(Run(c, inputs[..|init|]), inputs[|init|], Run(c, inputs).log, j);
    }
  }

  /** The iteration books the open position, as entry `j` of the log. */
  ghost predicate WritesBooking(c: Core, i: Input, log: seq<Event>, j: nat) {
    && Books(c, i) && |c.log| == j < |log|
    && log[j] == Booked(c.trade.value, i.exit.pnl)
  }

  /** A signal, then the same tick with entries locked down: the position opens all the same. */
  lemma LockdownDoesNotStopReadyEntry()
    ensures var i := Valid(true, false, false, None, false, true, Unconfirmed, Replies(true, Some(7), false, false));
            var j := i.(entriesAllowed := false);
            && Step(FRESH, i).0.mode == EntryReady && Step(Step(FRESH, i).0, j).0.trade == Some(7)
            && Step(FRESH, j).0.mode == Idle
  {
  }

  /** An open position that nobody else has to look at is handed to the exit logic by every valid
      tick that does not close it for another reason. */
  lemma OpenPositionIsManaged(c: Core, i: Input)
    requires Safe(c) && c.trade.Some? && !c.intervention
    requires i.Valid? && !i.stop && i.kill.None?
    ensures Step(c, i).1 == Some(InTrade)
  {
  }

  /** The operator's Stop: the position is closed through the normal exit, or left for a human. */
  lemma StopCloses(c: Core, i: Input)
    requires Safe(c) && i.Valid? && i.stop && !c.intervention
    requires c.mode == KillSwitch ==> i.canClear || !i.staleActive
    ensures var d := Step(c, i).0;
            && d.mode == KillSwitch
            && if c.trade.None? || i.exit.Confirmed? then d.trade.None? else d.trade == c.trade && d.intervention
  {
  }

  /** While every valid tick sees the operator's Stop, nothing is ever opened. */
  lemma {:induction false} NothingOpensWhileStopped(c: Core, inputs: seq<Input>)
    requires Safe(c)
    requires forall k :: 0 <= k < |inputs| && inputs[k].Valid? ==> inputs[k].stop
    ensures Openings(Run(c, inputs).log) == Openings(c.log)
  {
    hide Safe, Step, Openings;
    if inputs != [] {
      var before := inputs[..|inputs| - 1];
      NothingOpensWhileStopped(c, before);
      SafeRun(c, before);
      OpensIff(Run(c, before), inputs[|inputs| - 1]);
    }
  }

  /** A process that starts on somebody else's open position never trades: it stays halted, with
      the latch set, whatever happens. */
  lemma {:induction false} OrphanStartStaysHalted(c: Core, inputs: seq<Input>)
    requires c.trade.None?
    ensures var d := Run(FindOrphans(c), inputs);
            d.mode == KillSwitch && d.intervention && d.trade.None? && d.log == c.log && d.dailyPnl == c.dailyPnl
  {
    if inputs != [] {
      OrphanStartStaysHalted(c, inputs[..|inputs| - 1]);
    }
  }

  /** The only ways out of the halted mode. */
  lemma LeavesKillSwitchIff(c: Core, i: Input)
    requires Safe(c) && c.mode == KillSwitch
    ensures Step(c, i).0.mode != KillSwitch <==>
              || (i.NoTick? && c.sleeps == 0 && c.trade.Some? && i.exit.Confirmed?)
              || (i.Valid? && !c.intervention && (i.canClear || !i.staleActive) && !i.stop
                  && (i.kill == Some(WideSpread) || (i.kill.None? && !i.stopAgain)))
  {
  }

  /** The only way the latch clears without a human: a later exit attempt that is confirmed. */
  lemma LatchClearsIff(c: Core, i: Input)
    requires Safe(c) && c.intervention
    ensures !Step(c, i).0.intervention <==>
              && c.trade.Some? && !i.Valid? && i.exit.Confirmed?
              && (if i.NoTick? then c.sleeps == 0 else i.staleKill)
  {
  }

  /** The latch does not imply the halted mode. It is left set outside it exactly by a first "wide
      spread" verdict whose exit the broker does not confirm. */
  lemma LatchOutsideKillSwitchIff(c: Core, i: Input)
    requires Safe(c) && (c.intervention ==> c.mode == KillSwitch)
    ensures Step(c, i).0.intervention && Step(c, i).0.mode != KillSwitch <==>
              i.Valid? && !i.stop && i.kill == Some(WideSpread) && c.mode == InTrade && i.exit.Unconfirmed?
  {
  }

  lemma RunThree(c: Core, i: Input, j: Input, k: Input)
    ensures Run(c, [i, j, k]) == Step(Step(Step(c, i).0, j).0, k).0
  {
    hide Step;
    assert [i, j, k][..2] == [i, j] && [i, j][..1] == [i] && [i][..0] == [];
    assert Run(c, [i]) == Step(c, i).0;
    assert Run(c, [i, j]) == Step(Run(c, [i]), j).0;
  }

  /** Such a run exists: signal, order, wide spread, exit refused. */
  lemma LatchOutsideKillSwitchHappens() returns (inputs: seq<Input>)
    ensures var d := Run(FRESH, inputs);
            d.intervention && d.mode == Idle && d.trade.Some?
  {
    var c := FRESH;
    var r := Replies(true, Some(7), false, false);
    var i := Valid(true, false, false, None, false, true, Unconfirmed, r);
    var k := Valid(true, false, false, Some(WideSpread), false, true, Unconfirmed, r);
    inputs := [i, i, k];
    var ready, trading := Step(c, i).0, Step(Step(c, i).0, i).0;
    assert ready.mode == EntryReady && trading.mode == InTrade;
    RunThree(c, i, i, k);
  }

  // ----- the whole next state, condition by condition -----

  /** A tick arrives and no guard before the handlers turns it away. */
  predicate Clear(c: Core, i: Input) {
    && i.Valid? && !c.intervention && !i.stop && i.kill.None?
    && (c.mode == KillSwitch ==> i.canClear || !i.staleActive)
  }

  /** An exit was asked for and the broker did not confirm it. */
  predicate Refused(c: Core, i: Input) {
    && c.trade.Some? && i.exit.Unconfirmed?
    && match i
       case NoTick(_, _) => c.sleeps == 0
       case Rejected(staleKill, _) => staleKill
       case Valid(_, _, stop, kill, _, _, _, replies) => !c.intervention && (stop || kill.Some? || replies.exitDue)
  }

  /** A kill verdict is looked at: a tick got past both latches and the stale-feed guard. */
  predicate Judged(c: Core, i: Input) {
    && i.Valid? && !c.intervention && !i.stop && i.kill.Some?
    && (c.mode == KillSwitch ==> i.canClear || !i.staleActive)
  }

  /** Every kill verdict halts the loop, but for a wide spread met while halted already: that one, and
      only that one, sends it back to idle. */
  lemma KillVerdictHalts(c: Core, i: Input)
    requires Safe(c) && Judged(c, i)
    ensures Step(c, i).0.mode ==
              if i.kill == Some(WideSpread) && (c.mode == KillSwitch || Refused(c, i)) then Idle else KillSwitch
  {
  }

  /** The loop is halted after an iteration exactly if the exit was refused, the feed is stale, the
      operator stops it, a verdict halts it, or it was halted and nothing let it go. */
  lemma HaltsIff(c: Core, i: Input)
    requires Safe(c)
    ensures Step(c, i).0.mode == KillSwitch <==>
              if i.NoTick? then
                if c.sleeps == 0 && c.trade.Some? then i.exit.Unconfirmed? else c.mode == KillSwitch
              else if i.Rejected? then i.staleKill || c.mode == KillSwitch
              else if c.intervention || (c.mode == KillSwitch && !i.canClear && i.staleActive) then c.mode == KillSwitch
              else if i.stop then true
              else if i.kill.Some? then !(i.kill == Some(WideSpread) && (c.mode == KillSwitch || Refused(c, i)))
              else
                || (c.mode == KillSwitch && i.stopAgain)
                || (c.mode == InTrade && i.replies.exitDue && i.exit.Unconfirmed?)
  {
    if i.NoTick? {
    } else if i.Rejected? || c.intervention || i.stop {
    } else if i.kill.Some? {
    } else {
    }
  }

  /** It cools down exactly after a confirmed exit, after an entry that came to nothing, and until the
      cooldown handler says otherwise. */
  lemma CoolsIff(c: Core, i: Input)
    requires Safe(c)
    ensures Step(c, i).0.mode == Cooldown <==>
              if i.NoTick? then
                if c.sleeps == 0 && c.trade.Some? then i.exit.Confirmed? else c.mode == Cooldown
              else if i.Rejected? then !i.staleKill && c.mode == Cooldown
              else
                && Clear(c, i)
                && ((c.mode == InTrade && i.replies.exitDue && i.exit.Confirmed?)
                    || (c.mode == EntryReady && i.replies.order.None?)
                    || (c.mode == Cooldown && !i.replies.cooled))
  {
    if i.NoTick? {
    } else if i.Rejected? || c.intervention || i.stop {
    } else if i.kill.Some? {
    } else {
    }
  }

  /** It is ready to enter exactly after a signal in the idle mode, or out of a halt that this tick
      lifts, with entries allowed; and until the next clear tick. */
  lemma ReadyIff(c: Core, i: Input)
    requires Safe(c)
    ensures Step(c, i).0.mode == EntryReady <==>
              if i.NoTick? then c.mode == EntryReady
              else if i.Rejected? then !i.staleKill && c.mode == EntryReady
              else
                && Clear(c, i) && i.entriesAllowed && i.replies.signal
                && (c.mode == Idle || (c.mode == KillSwitch && !i.stopAgain))
  {
    if i.NoTick? {
    } else if i.Rejected? || c.intervention || i.stop {
    } else if i.kill.Some? {
    } else {
    }
  }

  /** It is in a trade exactly after an order, and until the exit logic, a guard or an outage speaks. */
  lemma TradesIff(c: Core, i: Input)
    requires Safe(c)
    ensures Step(c, i).0.mode == InTrade <==>
              if i.NoTick? then false
              else if i.Rejected? then !i.staleKill && c.mode == InTrade
              else
                && Clear(c, i)
                && ((c.mode == EntryReady && i.replies.order.Some?) || (c.mode == InTrade && !i.replies.exitDue))
  {
    if i.NoTick? {
    } else if i.Rejected? || c.intervention || i.stop {
    } else if i.kill.Some? {
    } else {
    }
  }

  /** The intervention latch is set by a refused exit, and stays until a booking. */
  lemma LatchIff(c: Core, i: Input)
    requires Safe(c)
    ensures Step(c, i).0.intervention <==> Refused(c, i) || (c.intervention && !Books(c, i))
  {
    if i.NoTick? {
    } else if i.Rejected? || c.intervention || i.stop {
    } else if i.kill.Some? {
    } else {
    }
  }

  /** A kill is counted, once, for a refused exit, and for a verdict or a stale feed that halts a loop
      which was not halted; never for the operator's stop. */
  lemma KillsCount(c: Core, i: Input)
    requires Safe(c)
    ensures var halts := c.mode != KillSwitch && ((i.Rejected? && i.staleKill) || Judged(c, i));
            Step(c, i).0.kills == c.kills + if Refused(c, i) || halts then 1 else 0
  {
    if i.NoTick? {
    } else if i.Rejected? || c.intervention || i.stop {
    } else if i.kill.Some? {
    } else {
    }
  }

  /** Retries are counted through an outage, and the count starts afresh with a tick or after ten. */
  lemma RetriesCount(c: Core, i: Input)
    ensures Step(c, i).0.sleeps == if !i.NoTick? || c.sleeps + 1 >= 10 then 0 else c.sleeps + 1
  {
  }

  /** The sleep of a retry is what was left by the one before, but five seconds at the start of an outage and, on a
      sign of life, at every third retry; the next one is twice as long, up to a minute, and the tenth retry
      starts afresh. */
  lemma BackoffIs(c: Core, exit: Exit, internet: bool)
    requires Safe(c)
    ensures var n := c.sleeps + 1;
            var slept := if n == 1 || (internet && (n == 3 || n == 6 || n == 9)) then 5 else c.backoff;
            Step(c, NoTick(exit, internet)).0.backoff ==
              if n >= 10 then 5 else if slept <= 30 then slept + slept else 60
  {
  }

  /** Through an outage without a sign of life the sleep doubles from five seconds up to a minute. */
  lemma {:induction false} OutageBacksOff(c: Core, inputs: seq<Input>)
    requires c.sleeps == 0 && 1 <= |inputs| <= 9
    requires forall k :: 0 <= k < |inputs| ==> inputs[k].NoTick? && !inputs[k].internet
    ensures var d := Run(c, inputs);
            d.sleeps == |inputs| && d.backoff == [10, 20, 40, 60, 60, 60, 60, 60, 60][|inputs| - 1]
  {
    var init := inputs[..|inputs| - 1];
    if init == [] {
      assert Run(c, init) == c;
    } else {
      OutageBacksOff(c, init);
    }
  }

  // ----- the loop body over mutable state -----

  lemma RetryBounds(c: Core, exit: Exit)
    requires Safe(c)
    ensures var d := StartOutage(c, exit);
            5 <= d.backoff <= 60 && d.sleeps == c.sleeps + 1 && d.backoff == if c.sleeps == 0 then 5 else c.backoff
  {
  }

  class TradingLoop {
    var mode: Mode
    var currentTrade: Option<nat>
    var manualIntervention: bool
    var sleeps: nat
    var backoff: nat
    var kills: nat
    var dailyPnl: int
    var wins: nat
    var losses: nat
    var consecutiveLosses: nat
    var totalTradesToday: nat
    ghost var log: seq<Event>

    ghost function View(): Core
      reads this
    {
      Core(mode, currentTrade, manualIntervention, sleeps, backoff, kills, dailyPnl, wins, losses,
           consecutiveLosses, totalTradesToday, log)
    }

    constructor ()
      ensures View() == FRESH && Safe(View()) && Ledger(View(), 0)
    {
      mode, currentTrade, manualIntervention := Idle, None, false;
      sleeps, backoff, kills, dailyPnl, wins, losses := 0, 5, 0, 0, 0, 0;
      consecutiveLosses, totalTradesToday := 0, 0;
      log := [];
    }

    method UpdatePnl(pnl: int)
      requires currentTrade.Some?
      modifies this
      ensures View() == Book(old(View()), pnl).(trade := old(currentTrade))
    {
      dailyPnl := dailyPnl + pnl;
      if pnl < 0 {
        consecutiveLosses := consecutiveLosses + 1;
        losses := losses + 1;
      } else {
        consecutiveLosses := 0;
        wins := wins + 1;
      }
      totalTradesToday := totalTradesToday + 1;
      log := log + [Booked(currentTrade.value, pnl)];
    }

    /** Close the open position and account for it exactly once; false when the broker did not
        confirm, leaving the position in place. */
    method CloseCurrentTrade(exit: Exit) returns (ok: bool)
      modifies this
      ensures View() == Close(old(View()), exit)
      ensures ok <==> currentTrade.None?
    {
      if currentTrade.None? {
        return true;
      }
      if exit.Unconfirmed? {
        mode, manualIntervention, kills := KillSwitch, true, kills + 1;
        return false;
      }
      UpdatePnl(exit.pnl);
      currentTrade := None;
      manualIntervention := false;
      ok := true;
    }

    method TripKillSwitch()
      modifies this
      ensures View() == Trip(old(View()))
    {
      if mode != KillSwitch {
        mode, kills := KillSwitch, kills + 1;
      }
    }

    /** Count the retry and, at the start of an outage, try to close the position. */
    method BeginRetry(exit: Exit)
      modifies this
      ensures View() == StartOutage(old(View()), exit)
    {
      sleeps := sleeps + 1;
      if sleeps == 1 {
        backoff := 5;
        if currentTrade.Some? {
          var ok := CloseCurrentTrade(exit);
          if ok {
            mode := Cooldown;
          }
        }
      }
    }

    /** No tick: the network breaker with its exponential backoff. */
    method NetworkDown(exit: Exit, internet: bool) returns (slept: nat)
      requires Safe(View())
      modifies this
      ensures View() == OnNoTick(old(View()), exit, internet)
      ensures 5 <= slept <= 60
      ensures slept == if old(sleeps) == 0 || ((old(sleeps) + 1) % 3 == 0 && internet) then 5 else old(backoff)
    {
      hide StartOutage;
      RetryBounds(View(), exit);
      BeginRetry(exit);
      if sleeps % 3 == 0 && internet {
        backoff := 5;
      }
      slept := backoff;
      backoff := if backoff * 2 < 60 then backoff * 2 else 60;
      if sleeps >= 10 {
        sleeps, backoff := 0, 5;
      }
    }

    method KillVerdict(reason: KillReason, exit: Exit)
      modifies this
      ensures View() == OnKill(old(View()), reason, exit)
    {
      if currentTrade.Some? {
        var _ := CloseCurrentTrade(exit);
      }
      if reason == HighLatencyPause || reason == LatencyRecovery {
        TripKillSwitch();
      } else if reason == WideSpread || reason == SpreadCooldown {
        if mode != KillSwitch {
          TripKillSwitch();
        } else if reason != SpreadCooldown {
          mode := Idle;
        }
      } else {
        TripKillSwitch();
      }
    }

    /** The handler of the current mode. */
    method RunHandler(i: Input) returns (dispatched: Option<Mode>)
      requires i.Valid? && Safe(View()) && !manualIntervention
      modifies this
      ensures (View(), dispatched) == Dispatch(old(View()), i)
    {
      dispatched := Some(mode);
      match mode {
        case Idle =>
          if i.entriesAllowed {
            mode := if i.replies.signal then EntryReady else Idle;
          } else {
            dispatched := None;
          }
        case EntryReady =>
          if i.replies.order.Some? {
            currentTrade := i.replies.order;
            log := log + [Opened(currentTrade.value)];
            mode := InTrade;
          } else {
            mode := Cooldown;
          }
        case InTrade =>
          if i.replies.exitDue {
            if i.exit.Unconfirmed? {
              mode, manualIntervention, kills := KillSwitch, true, kills + 1;
            } else {
              UpdatePnl(i.exit.pnl);
              currentTrade := None;
              mode := Cooldown;
            }
          }
        case Cooldown =>
          if i.replies.cooled {
            mode := Idle;
          }
        case KillSwitch =>
          dispatched := None;
      }
    }

    /** One pass of the loop. */
    method Iterate(i: Input) returns (dispatched: Option<Mode>)
      requires Safe(View())
      modifies this
      ensures (View(), dispatched) == Step(old(View()), i)
      ensures Safe(View())
    {
      StepIsSafe(View(), i);
      dispatched := None;
      if i.NoTick? {
        var _ := NetworkDown(i.exit, i.internet);
        return;
      }
      if sleeps > 0 {
        sleeps := 0;
      }
      if i.Rejected? {
        if i.staleKill {
          if currentTrade.Some? {
            var _ := CloseCurrentTrade(i.exit);
          }
          TripKillSwitch();
        }
        return;
      }
      if manualIntervention {
        return;
      }
      if !i.canClear && mode == KillSwitch && i.staleActive {
        return;
      }
      if i.stop {
        if currentTrade.Some? {
          var _ := CloseCurrentTrade(i.exit);
        }
        if mode != KillSwitch {
          mode := KillSwitch;
        }
        return;
      }
      if i.kill.Some? {
        KillVerdict(i.kill.value, i.exit);
        return;
      }
      if mode == KillSwitch && !i.stopAgain {
        mode := Idle;
      }
      dispatched := RunHandler(i);
    }
  }
}

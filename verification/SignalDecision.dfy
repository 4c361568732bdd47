/** The decision part of the signal generator: the stages after the setup, and the record of where
    each direction failed. */
module SignalDecision {
  import opened Ticks
  import opened Pullback

  datatype Stage = TriggerConfirmation | WeightedScore | Exhaustion | Confidence

  /** The record's "failed_at": not there yet, there and empty, or naming a stage. */
  datatype FailedAt = Unset | Nowhere | At(stage: Stage)

  /** One direction's record. `None` is a key that was never written. */
  datatype Entry = Entry(trigger: bool, weighted: Option<bool>, exhaustion: Option<bool>, confidence: Option<bool>,
                         final: Option<bool>, failedAt: FailedAt)

  /** What the engines would answer for one direction. */
  datatype Verdicts = Verdicts(weighted: int, blocked: bool, confidence: int)

  datatype Readings = Readings(rsi: real, hist: real, histPrev: real, exhaustionEnabled: bool, ceRsi: real, peRsi: real,
                               minWeighted: int, requiredConfidence: int, ce: Verdicts, pe: Verdicts)
  {
    function At(d: Direction): Verdicts {
      if d == Ce then ce else pe
    }
  }

  // ----- what the record should say -----

  predicate Exhausted(x: Readings, d: Direction) {
    || x.At(d).blocked
    || (x.exhaustionEnabled && d == Ce && x.rsi > x.ceRsi && x.hist < x.histPrev)
    || (x.exhaustionEnabled && d == Pe && x.rsi < x.peRsi && x.hist > x.histPrev)
  }

  /** The direction survives the setup and the weighted score. */
  predicate Contends(r: Rating, x: Readings, d: Direction) {
    r.At(d).signal && x.At(d).weighted >= x.minWeighted
  }

  /** The first stage at which a direction, looked at by itself, fails. */
  function FirstFailure(r: Rating, x: Readings, d: Direction): Option<Stage> {
    if !r.At(d).signal then Some(TriggerConfirmation)
    else if x.At(d).weighted < x.minWeighted then Some(WeightedScore)
    else if Exhausted(x, d) then Some(Exhaustion)
    else if x.At(d).confidence < x.requiredConfidence then Some(Confidence)
    else None
  }

  /** The record names the first failure, and holds an entry for each stage up to it and no further. */
  predicate Attributed(e: Entry, r: Rating, x: Readings, d: Direction) {
    var f := FirstFailure(r, x, d);
    && e.trigger == r.At(d).signal
    && e.final == Some(f.None?)
    && e.failedAt == (if f.None? then Nowhere else At(f.value))
    && e.weighted == (if e.trigger then Some(x.At(d).weighted >= x.minWeighted) else None)
    && e.exhaustion == (if e.weighted == Some(true) then Some(!Exhausted(x, d)) else None)
    && e.confidence == (if e.exhaustion == Some(true) then Some(f.None?) else None)
  }

  // ----- the generator -----

  /** What the closing pass does to one record. */
  function Backfill(e: Entry): Entry {
    if e.final.Some? then e
    else e.(final := Some(false),
            failedAt := if !e.trigger then At(TriggerConfirmation)
                        else if e.weighted.Some? then At(WeightedScore)
                        else At(TriggerConfirmation))
  }

  method Finalize(decision: map<Direction, Entry>) returns (filled: map<Direction, Entry>)
    requires decision.Keys == {Ce, Pe}
    ensures filled == map[Ce := Backfill(decision[Ce]), Pe := Backfill(decision[Pe])]
  {
    filled := decision;
    var directions := [Ce, Pe];
    for i := 0 to 2
      invariant filled == map[Ce := if i > 0 then Backfill(decision[Ce]) else decision[Ce],
                              Pe := if i > 1 then Backfill(decision[Pe]) else decision[Pe]]
    {
      var d := directions[i];
      var e := filled[d];
      if e.final.None? {
        filled := filled[d := e.(final := Some(false))];
        if !e.trigger {
          filled := filled[d := filled[d].(failedAt := At(TriggerConfirmation))];
        } else if e.weighted.Some? {
          filled := filled[d := filled[d].(failedAt := At(WeightedScore))];
        } else {
          filled := filled[d := filled[d].(failedAt := At(TriggerConfirmation))];
        }
      }
    }
  }

  /** The record of a direction after the weighted score and the exhaustion check. */
  function Screened(r: Rating, x: Readings, d: Direction): Entry {
    var weighted := x.At(d).weighted >= x.minWeighted;
    Entry(r.At(d).signal, if r.At(d).signal then Some(weighted) else None,
          if Contends(r, x, d) then Some(!Exhausted(x, d)) else None, None, None, Unset)
  }

  /** The checks that both directions go through before either is considered. */
  method Screen(r: Rating, x: Readings)
    returns (ceSignal: bool, ceExhausted: bool, ce: Entry, peSignal: bool, peExhausted: bool, pe: Entry)
    ensures ceSignal == Contends(r, x, Ce) && ceExhausted == (ceSignal && Exhausted(x, Ce)) && ce == Screened(r, x, Ce)
    ensures peSignal == Contends(r, x, Pe) && peExhausted == (peSignal && Exhausted(x, Pe)) && pe == Screened(r, x, Pe)
  {
    ceSignal, peSignal := r.ce.signal, r.pe.signal;
    ce := Entry(ceSignal, None, None, None, None, Unset);
    pe := Entry(peSignal, None, None, None, None, Unset);
    if ceSignal {
      var pass := x.ce.weighted >= x.minWeighted;
      ce := ce.(weighted := Some(pass));
      if !pass {
        ceSignal := false;
      }
    }
    if peSignal {
      var pass := x.pe.weighted >= x.minWeighted;
      pe := pe.(weighted := Some(pass));
      if !pass {
        peSignal := false;
      }
    }
    ceExhausted := false;
    if ceSignal {
      if x.exhaustionEnabled && x.rsi > x.ceRsi && x.hist < x.histPrev {
        ceExhausted := true;
      }
      if x.ce.blocked {
        ceExhausted := true;
      }
      ce := ce.(exhaustion := Some(!ceExhausted));
    }
    peExhausted := false;
    if peSignal {
      if x.exhaustionEnabled && x.rsi < x.peRsi && x.hist > x.histPrev {
        peExhausted := true;
      }
      if x.pe.blocked {
        peExhausted := true;
      }
      pe := pe.(exhaustion := Some(!peExhausted));
    }
  }

  /** The record of a direction once its confidence has been looked at, if it gets that far. */
  function Settled(r: Rating, x: Readings, d: Direction): Entry {
    var e, sure := Screened(r, x, d), x.At(d).confidence >= x.requiredConfidence;
    if !Contends(r, x, d) then e
    else if Exhausted(x, d) then e.(final := Some(false), failedAt := At(Exhaustion))
    else e.(confidence := Some(sure), final := Some(sure), failedAt := if sure then Nowhere else At(Confidence))
  }

  /** The direction that is looked at for good: the rising one if it contends. */
  function Leader(r: Rating, x: Readings): Direction {
    if Contends(r, x, Ce) then Ce else Pe
  }

  /** Only the leader is settled. */
  method Resolve(r: Rating, x: Readings)
    returns (chosen: Option<Direction>, confidence: int, ce: Entry, pe: Entry)
    ensures var d := Leader(r, x);
            && ce == Settled(r, x, Ce)
            && pe == (if d == Pe then Settled(r, x, Pe) else Screened(r, x, Pe))
            && chosen == (if FirstFailure(r, x, d).None? then Some(d) else None)
            && confidence == (if Settled(r, x, d).confidence.Some? then x.At(d).confidence else 0)
  {
    hide Screened;
    var ceSignal, ceExhausted, peSignal, peExhausted;
    ceSignal, ceExhausted, ce, peSignal, peExhausted, pe := Screen(r, x);
    ScreenedIsOpen(r, x, Ce);
    ScreenedIsOpen(r, x, Pe);
    chosen, confidence := None, 0;
    if ceSignal && !ceExhausted {
      confidence := x.ce.confidence;
      var pass := confidence >= x.requiredConfidence;
      ce := ce.(confidence := Some(pass), final := Some(pass), failedAt := if pass then Nowhere else At(Confidence));
      chosen := if pass then Some(Ce) else None;
    } else if ceSignal && ceExhausted {
      ce := ce.(final := Some(false), failedAt := At(Exhaustion));
    } else if peSignal && !peExhausted {
      confidence := x.pe.confidence;
      var pass := confidence >= x.requiredConfidence;
      pe := pe.(confidence := Some(pass), final := Some(pass), failedAt := if pass then Nowhere else At(Confidence));
      chosen := if pass then Some(Pe) else None;
    } else if peSignal && peExhausted {
      pe := pe.(final := Some(false), failedAt := At(Exhaustion));
    }
  }

  lemma ScreenedIsOpen(r: Rating, x: Readings, d: Direction)
    ensures Screened(r, x, d).confidence.None?
  {
  }

  /** From any rating: both directions end with a verdict, a direction is recorded as passed exactly
      when it is returned, and the rising side is always attributed to its first failure. The falling
      side is, exactly unless both directions contend; no rating of a market lets them. The last
      branch of the closing pass would record a failed trigger of a direction whose trigger held;
      that never happens. */
  method Decide(r: Rating, x: Readings)
    returns (chosen: Option<Direction>, confidence: int, decision: map<Direction, Entry>)
    ensures decision.Keys == {Ce, Pe}
    ensures decision[Ce].final.Some? && decision[Pe].final.Some?
    ensures forall d :: d in decision ==> (chosen == Some(d) <==> decision[d].final == Some(true))
    ensures Attributed(decision[Ce], r, x, Ce)
    ensures Attributed(decision[Pe], r, x, Pe) <==> !(Contends(r, x, Ce) && Contends(r, x, Pe))
    ensures forall d :: d in decision ==> decision[d].trigger == r.At(d).signal
    ensures forall d :: d in decision && decision[d].failedAt == At(TriggerConfirmation) ==> !decision[d].trigger
    ensures forall d :: d in decision && decision[d].confidence.Some? ==> confidence == x.At(d).confidence
    ensures decision[Ce].confidence.None? && decision[Pe].confidence.None? ==> confidence == 0
  {
    hide Attributed, FirstFailure, Settled, Screened, Contends, Exhausted, Backfill;
    var ce, pe;
    chosen, confidence, ce, pe := Resolve(r, x);
    decision := Finalize(map[Ce := ce, Pe := pe]);
    SettledIsRight(r, x, Ce);
    SettledIsRight(r, x, Pe);
    ScreenedIsRightIff(r, x, Pe);
  }

  /** Closing a settled record leaves the right one. */
  lemma SettledIsRight(r: Rating, x: Readings, d: Direction)
    ensures var e := Backfill(Settled(r, x, d));
            && Attributed(e, r, x, d)
            && e.trigger == r.At(d).signal
            && (e.final == Some(true) <==> FirstFailure(r, x, d).None?)
            && e.final.Some?
            && (e.failedAt == At(TriggerConfirmation) ==> !e.trigger)
            && e.confidence == Settled(r, x, d).confidence
            && (e.final == Some(true) || e.confidence.Some? ==> Contends(r, x, d))
  {
  }

  /** Closing a record that was only screened is right exactly for a direction that does not contend. */
  lemma ScreenedIsRightIff(r: Rating, x: Readings, d: Direction)
    ensures var e := Backfill(Screened(r, x, d));
            && (Attributed(e, r, x, d) <==> !Contends(r, x, d))
            && e.trigger == r.At(d).signal
            && e.final == Some(false)
            && (e.failedAt == At(TriggerConfirmation) ==> !e.trigger)
            && e.confidence.None?
  {
  }

  /** On a market, each direction's record is the one it would get by itself, and the call returns
      the direction that fails nowhere, if there is one. */
  method GenerateSignal(m: Market, cfg: Config, x: Readings)
    returns (chosen: Option<Direction>, confidence: int, decision: map<Direction, Entry>)
    ensures decision.Keys == {Ce, Pe}
    ensures var r, y := Rated(m, cfg), x.(rsi := m.rsi);
            forall d :: d in decision ==>
              && Attributed(decision[d], r, y, d)
              && (chosen == Some(d) <==> FirstFailure(r, y, d).None?)
  {
    hide Rated;
    var r := Evaluate(m, cfg);
    chosen, confidence, decision := Decide(r, x.(rsi := m.rsi));
    DirectionsExclude(m, cfg);
    assert r.At(Ce) == r.ce && r.At(Pe) == r.pe;
  }
}

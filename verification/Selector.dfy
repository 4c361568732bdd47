/** From the rating of both directions to the one candidate that may proceed. */
module Selector {
  import opened Ticks
  import opened Pullback

  datatype Candidate = Candidate(direction: Direction, passed: bool, score: int, reason: Option<Reason>,
                                 trigger: bool, confirmations: map<Factor, bool>, factors: seq<Factor>)

  /** A choice, or the refusal to break a tie. */
  datatype Choice = Chosen(candidate: Option<Candidate>) | Conflict

  function CandidateOf(r: Rating, d: Direction): Candidate {
    var s := r.At(d);
    Candidate(d, s.signal, s.score, s.reason, s.trigger, s.confirmations, s.factors)
  }

  function Candidates(r: Rating): seq<Candidate> {
    (if r.ce.trend then [CandidateOf(r, Ce)] else []) + (if r.pe.trend then [CandidateOf(r, Pe)] else [])
  }

  method AsCandidates(r: Rating) returns (candidates: seq<Candidate>)
    ensures candidates == Candidates(r)
  {
    candidates := [];
    var directions := [Ce, Pe];
    for i := 0 to 2
      invariant i == 0 ==> candidates == []
      invariant i == 1 ==> candidates == if r.ce.trend then [CandidateOf(r, Ce)] else []
      invariant i == 2 ==> candidates == Candidates(r)
    {
      if r.At(directions[i]).trend {
        candidates := candidates + [CandidateOf(r, directions[i])];
      }
    }
  }

  function Passed(cs: seq<Candidate>): seq<Candidate> {
    if cs == [] then [] else Passed(cs[..|cs| - 1]) + if cs[|cs| - 1].passed then [cs[|cs| - 1]] else []
  }

  function SelectStrategy(cs: seq<Candidate>): Choice {
    var passed := Passed(cs);
    if passed == [] then Chosen(None) else if |passed| > 1 then Conflict else Chosen(Some(passed[0]))
  }

  function SelectDirection(r: Rating): Option<Direction> {
    if r.ce.signal then Some(Ce) else if r.pe.signal then Some(Pe) else None
  }

  lemma {:induction false} HasOne(cs: seq<Candidate>, i: nat)
    requires i < |cs| && cs[i].passed
    ensures |Passed(cs)| >= 1
  {
    if i < |cs| - 1 {
      HasOne(cs[..|cs| - 1], i);
    }
  }

  lemma {:induction false} HasTwo(cs: seq<Candidate>, i: nat, j: nat)
    requires i < j < |cs| && cs[i].passed && cs[j].passed
    ensures |Passed(cs)| >= 2
  {
    if j < |cs| - 1 {
      HasTwo(cs[..|cs| - 1], i, j);
    } else {
      HasOne(cs[..|cs| - 1], i);
    }
  }

  lemma {:induction false} FindOne(cs: seq<Candidate>) returns (i: nat)
    requires |Passed(cs)| >= 1
    ensures i < |cs| && cs[i].passed && cs[i] == Passed(cs)[0]
  {
    var last := |cs| - 1;
    if |Passed(cs[..last])| >= 1 {
      i := FindOne(cs[..last]);
    } else {
      i := last;
    }
  }

  lemma {:induction false} FindTwo(cs: seq<Candidate>) returns (i: nat, j: nat)
    requires |Passed(cs)| >= 2
    ensures i < j < |cs| && cs[i].passed && cs[j].passed
  {
    var last := |cs| - 1;
    if |Passed(cs[..last])| >= 2 {
      i, j := FindTwo(cs[..last]);
    } else {
      i := FindOne(cs[..last]);
      j := last;
    }
  }

  /** For any list: the selector raises exactly when two candidates passed, and otherwise returns the
      one that did. */
  lemma SelectsTheOnlyOne(cs: seq<Candidate>)
    ensures SelectStrategy(cs) == Chosen(None) <==> forall i :: 0 <= i < |cs| ==> !cs[i].passed
    ensures SelectStrategy(cs).Conflict? <==> exists i, j :: 0 <= i < j < |cs| && cs[i].passed && cs[j].passed
    ensures forall c :: SelectStrategy(cs) == Chosen(Some(c)) ==> c in cs && c.passed
  {
    hide Passed;
    forall i | 0 <= i < |cs| && cs[i].passed
      ensures |Passed(cs)| >= 1
    {
      HasOne(cs, i);
    }
    forall i, j | 0 <= i < j < |cs| && cs[i].passed && cs[j].passed
      ensures |Passed(cs)| >= 2
    {
      HasTwo(cs, i, j);
    }
    if |Passed(cs)| >= 1 {
      var i := FindOne(cs);
    }
    if |Passed(cs)| >= 2 {
      var i, j := FindTwo(cs);
    }
  }

  /** On any rating whose signals need their trends, the two selectors disagree, by one of them
      raising, exactly when both directions signal. */
  lemma SelectorsAgreeIff(r: Rating)
    requires (r.ce.signal ==> r.ce.trend) && (r.pe.signal ==> r.pe.trend)
    ensures SelectStrategy(Candidates(r)).Conflict? <==> r.ce.signal && r.pe.signal
    ensures !(r.ce.signal && r.pe.signal) ==>
              SelectStrategy(Candidates(r)) ==
              Chosen(match SelectDirection(r) case None => None case Some(d) => Some(CandidateOf(r, d)))
  {
    hide Passed, CandidateOf;
    var ce, pe := CandidateOf(r, Ce), CandidateOf(r, Pe);
    CandidatePasses(r, Ce);
    CandidatePasses(r, Pe);
    PassedFew(ce, pe);
    assert [] + [pe] == [pe] && [ce] + [] == [ce] && [ce] + [pe] == [ce, pe];
  }

  lemma CandidatePasses(r: Rating, d: Direction)
    ensures CandidateOf(r, d).passed == if d == Ce then r.ce.signal else r.pe.signal
  {
  }

  /** A candidate carries what the rating says of its own direction, and is there when its trend held. */
  lemma CandidateCarries(r: Rating, c: Candidate)
    ensures c in Candidates(r) <==>
              var s := if c.direction == Ce then r.ce else r.pe;
              && s.trend && c.passed == s.signal && c.score == s.score && c.reason == s.reason
              && c.trigger == s.trigger && c.confirmations == s.confirmations && c.factors == s.factors
    ensures |Candidates(r)| <= 2 && (|Candidates(r)| == 2 ==> Candidates(r)[0].direction == Ce)
  {
  }

  lemma PassedFew(c: Candidate, d: Candidate)
    ensures Passed([]) == []
    ensures Passed([c]) == if c.passed then [c] else []
    ensures Passed([d]) == if d.passed then [d] else []
    ensures Passed([c, d]) == (if c.passed then [c] else []) + if d.passed then [d] else []
  {
    assert [c][..0] == [] && [d][..0] == [] && [c, d][..1] == [c];
    assert Passed([c]) == Passed([]) + if c.passed then [c] else [];
    assert Passed([d]) == Passed([]) + if d.passed then [d] else [];
  }

  /** On the rating of any market the selector never raises, and it names the direction that the
      simpler selector names. */
  lemma SelectorNeverRaises(m: Market, cfg: Config)
    ensures var r := Rated(m, cfg);
            SelectStrategy(Candidates(r)) ==
            Chosen(match SelectDirection(r) case None => None case Some(d) => Some(CandidateOf(r, d)))
  {
    hide Rated, SelectStrategy, Candidates;
    DirectionsExclude(m, cfg);
    assert Rated(m, cfg).At(Ce) == Rated(m, cfg).ce && Rated(m, cfg).At(Pe) == Rated(m, cfg).pe;
    SelectorsAgreeIff(Rated(m, cfg));
  }
}

/** The screening interview and its state machine (internal/domain/interview). */
module InterviewDomain {
  import opened Prelude
  import opened Text

  const MAX_ANSWER_LEN := 8000

  datatype Mode = ModeUnspecified | ModeText | ModeVoice

  datatype Verdict = Advance | Hold | Decline

  datatype Confidence = Low | Medium | High

  datatype State = Unspecified | Open | Asking | Scoring | Closed {
    predicate CanTransition(to: State) {
      match this
      case Open => to == Asking
      case Asking => to == Asking || to == Scoring
      case Scoring => to == Closed
      case _ => false
    }
  }

  datatype Turn = Turn(ordinal: int, question: string, answer: string, tag: string) {
    predicate Valid() { ordinal >= 1 && !Blank(question) }
  }

  datatype PendingQuestion = PendingQuestion(ordinal: int, text: string, tag: string)

  datatype CompetencyScore = CompetencyScore(competency: string, score: real, evidence: string) {
    /** Every score is in range and cites evidence. */
    predicate Valid() { !Blank(competency) && 0.0 <= score <= 5.0 && !Blank(evidence) }
  }

  datatype ReportCard = ReportCard(
    interview: nat, role: nat, candidate: nat,
    verdict: Verdict, confidence: Confidence, scores: seq<CompetencyScore>, nextStep: string)
  {
    predicate Valid() {
      scores != [] && forall i :: 0 <= i < |scores| ==> scores[i].Valid()
    }
  }

  /** An interview as the repository stores it; id 0 and time 0 are the unset ones. */
  datatype Record = Record(
    id: nat, role: nat, candidate: nat, mode: Mode, startedAt: int,
    state: State, turns: seq<Turn>, pending: Option<PendingQuestion>, report: Option<ReportCard>)
  {
    function Transitioned(to: State): Result<Record> {
      if state.CanTransition(to) then Ok(this.(state := to)) else Err(Invalid)
    }

    function Asked(text: string, tag: string): (r: Result<Record>)
      ensures r.Ok? ==> r.value.pending.Some?
    {
      if state == Asking && pending.None? && !Blank(text)
      then Ok(this.(pending := Some(PendingQuestion(|turns| + 1, text, tag))))
      else Err(Invalid)
    }

    function Answered(answer: string): Result<Record> {
      if pending.None? || |answer| > MAX_ANSWER_LEN then Err(Invalid)
      else
        var t := Turn(pending.value.ordinal, pending.value.text, answer, pending.value.tag);
        if state == Asking && t.Valid() then Ok(this.(turns := turns + [t], pending := None)) else Err(Invalid)
    }

    function Completed(card: ReportCard): (r: Result<Record>)
      ensures r.Ok? ==> r.value.report.Some?
    {
      if state == Scoring && card.Valid() then Ok(this.(report := Some(card), state := Closed)) else Err(Invalid)
    }
  }

  function Opened(id: nat, role: nat, candidate: nat, mode: Mode): Result<Record> {
    if role == 0 || candidate == 0 || mode == ModeUnspecified then Err(Invalid)
    else Ok(Record(id, role, candidate, mode, 0, Open, [], None, None))
  }

  class Interview {
    const id: nat
    const role: nat
    const candidate: nat
    const mode: Mode
    var startedAt: int
    var state: State
    var turns: seq<Turn>
    var pending: Option<PendingQuestion>
    var report: Option<ReportCard>

    function Contents(): Record reads this {
      Record(id, role, candidate, mode, startedAt, state, turns, pending, report)
    }

    /** An own copy of a stored interview. */
    constructor (r: Record)
      ensures Contents() == r
    {
      id, role, candidate, mode, startedAt := r.id, r.role, r.candidate, r.mode, r.startedAt;
      state, turns, pending, report := r.state, r.turns, r.pending, r.report;
    }

    method Transition(to: State) returns (res: Result<Record>)
      modifies this
      ensures res == old(Contents()).Transitioned(to)
      ensures Contents() == if res.Ok? then res.value else old(Contents())
      ensures var legal := {(Open, Asking), (Asking, Asking), (Asking, Scoring), (Scoring, Closed)};
              res.Ok? <==> (old(state), to) in legal
      ensures res.Ok? ==> Contents() == old(Contents()).(state := to)
    {
      if !state.CanTransition(to) {
        return Err(Invalid);
      }
      state := to;
      return Ok(Contents());
    }

    method AddTurn(t: Turn) returns (ok: bool)
      modifies this
      ensures ok <==> old(state) == Asking && t.Valid()
      ensures Contents() == if ok then old(Contents()).(turns := old(turns) + [t]) else old(Contents())
    {
      TrimSpaceEmpty(t.question);
      if state != Asking || t.ordinal < 1 || TrimSpace(t.question) == "" {
        return false;
      }
      turns := turns + [t];
      return true;
    }

    method Ask(text: string, tag: string) returns (res: Result<Record>)
      modifies this
      ensures res == old(Contents()).Asked(text, tag)
      ensures Contents() == if res.Ok? then res.value else old(Contents())
      ensures res.Ok? <==> old(state) == Asking && old(pending).None? && TrimSpace(text) != ""
      ensures res.Ok? ==> Contents() == old(Contents()).(pending := Some(PendingQuestion(|old(turns)| + 1, text, tag)))
    {
      TrimSpaceEmpty(text);
      if state != Asking || pending.Some? || TrimSpace(text) == "" {
        return Err(Invalid);
      }
      pending := Some(PendingQuestion(|turns| + 1, text, tag));
      return Ok(Contents());
    }

    method Answer(answer: string) returns (res: Result<Record>)
      modifies this
      ensures res == old(Contents()).Answered(answer)
      ensures Contents() == if res.Ok? then res.value else old(Contents())
      ensures res.Ok? <==>
                && old(state) == Asking && old(pending).Some? && |answer| <= 8000
                && old(pending).value.ordinal >= 1 && TrimSpace(old(pending).value.text) != ""
      ensures res.Ok? ==>
                var q := old(pending).value;
                Contents() == old(Contents()).(turns := old(turns) + [Turn(q.ordinal, q.text, answer, q.tag)],
                                               pending := None)
    {
      if pending.Some? {
        TrimSpaceEmpty(pending.value.text);
      }
      if pending.None? || |answer| > MAX_ANSWER_LEN {
        return Err(Invalid);
      }
      var added := AddTurn(Turn(pending.value.ordinal, pending.value.text, answer, pending.value.tag));
      if !added {
        return Err(Invalid);
      }
      pending := None;
      return Ok(Contents());
    }

    method Complete(card: ReportCard) returns (res: Result<Record>)
      modifies this
      ensures res == old(Contents()).Completed(card)
      ensures Contents() == if res.Ok? then res.value else old(Contents())
      ensures res.Ok? <==> old(state) == Scoring && card.Valid()
      ensures res.Ok? ==> Contents() == old(Contents()).(report := Some(card), state := Closed)
    {
      if state != Scoring {
        return Err(Invalid);
      }
      var valid := ValidateCard(card);
      if !valid {
        return Err(Invalid);
      }
      report := Some(card);
      state := Closed;
      return Ok(Contents());
    }
  }

  method ValidateCard(card: ReportCard) returns (ok: bool)
    ensures ok <==> card.Valid()
    ensures ok <==> card.scores != [] && forall i :: 0 <= i < |card.scores| ==>
                      && TrimSpace(card.scores[i].competency) != "" && TrimSpace(card.scores[i].evidence) != ""
                      && 0.0 <= card.scores[i].score <= 5.0
  {
    forall s: string ensures TrimSpace(s) == "" <==> Blank(s) {
      TrimSpaceEmpty(s);
    }
    hide TrimSpace, Blank;
    if |card.scores| == 0 {
      return false;
    }
    for i := 0 to |card.scores|
      invariant forall j :: 0 <= j < i ==> card.scores[j].Valid()
    {
      var s := card.scores[i];
      if TrimSpace(s.competency) == "" || s.score < 0.0 || s.score > 5.0 || TrimSpace(s.evidence) == "" {
        return false;
      }
    }
    return true;
  }
}

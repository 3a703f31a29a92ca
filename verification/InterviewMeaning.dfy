/** When a call of an interview succeeds, what it leaves and what it says (internal/app/interview/interviewer.go). */
module InterviewMeaning {
  import opened Prelude
  import opened Text
  import opened Tokens
  import opened InterviewDomain
  import opened Interviewer
  import opened InterviewRuns

  /** The card says what the assessment says: words other than the ones listed mean hold, and medium confidence. */
  predicate Says(lower: char -> char, card: ReportCard, a: Assessment) {
    var verdict, confidence := Lower(lower, TrimSpace(a.verdict)), Lower(lower, TrimSpace(a.confidence));
    && card.scores == a.scores && card.nextStep == a.nextStep
    && (card.verdict.Advance? <==> verdict == "advance")
    && (card.verdict.Decline? <==> verdict == "decline")
    && (card.confidence.Low? <==> confidence == "low")
    && (card.confidence.High? <==> confidence == "high")
  }

  /** There are scores, and each is named, between zero and five, and backed by evidence. */
  predicate Scored(scores: seq<CompetencyScore>) {
    scores != [] && forall i :: 0 <= i < |scores| ==>
      !Blank(scores[i].competency) && 0.0 <= scores[i].score <= 5.0 && !Blank(scores[i].evidence)
  }

  lemma CardSays(lower: char -> char, iv: Record, a: Assessment)
    ensures var card := CardOf(lower, iv, a);
            && card.interview == iv.id && card.role == iv.role && card.candidate == iv.candidate
            && Says(lower, card, a) && (card.Valid() <==> Scored(a.scores))
  {
    hide Lower, TrimSpace, Blank;
  }

  /** A question is open and the answer is not too long. */
  predicate Takes(iv: Record, answer: string) {
    && iv.state == Asking && iv.pending.Some? && |answer| <= 8000
    && iv.pending.value.ordinal >= 1 && !Blank(iv.pending.value.text)
  }

  /** The answer is the last one: the questions, or the time, are used up. */
  predicate Last(cfg: Config, iv: Record, now: int) {
    || |iv.turns| + 1 >= cfg.maxQuestions
    || (cfg.maxDuration > 0 && iv.startedAt != 0 && now >= iv.startedAt + cfg.maxDuration)
  }

  function TurnsWith(iv: Record, answer: string): seq<Turn>
    requires iv.pending.Some?
  {
    iv.turns + [Turn(iv.pending.value.ordinal, iv.pending.value.text, answer, iv.pending.value.tag)]
  }

  predicate HasQuestion(w: World) { w.question.Ok? && !Blank(w.question.value.text) }

  predicate HasReport(w: World) { w.report.Ok? && Scored(w.report.value.scores) }

  /** A start succeeds when role, candidate, mode, model and store are all there, and asks the first question. */
  lemma StartIs(repo: Repository, id: nat, role: nat, candidate: nat, mode: Mode, w: World)
    ensures var f := StartEffect(repo, id, role, candidate, mode, w);
            if && w.roleFound && role != 0 && candidate != 0 && mode != ModeUnspecified && w.warm
               && HasQuestion(w) && w.saved
            then
              var q := PendingQuestion(1, w.question.value.text, w.question.value.tag);
              && f.reply == Asks(q)
              && f.repo == repo[id := Record(id, role, candidate, mode, w.now, Asking, [], Some(q), None)]
            else f.reply.Fails? && f.repo == repo
  {
  }

  lemma AnsweredIs(iv: Record, answer: string)
    ensures iv.Answered(answer) ==
              if Takes(iv, answer) then Ok(iv.(turns := TurnsWith(iv, answer), pending := None)) else Err(Invalid)
  {
  }

  lemma FinishedIs(lower: char -> char, iv: Record, w: World)
    requires iv.state == Asking
    ensures var done := Finished(lower, iv, w);
            && (done.Ok? <==> HasReport(w))
            && (done.Ok? ==> done.value == iv.(state := Closed, report := done.value.report)
                             && Says(lower, done.value.report.value, w.report.value)
                             && ReportOn(iv, done.value.report.value))
  {
    if w.report.Ok? {
      CardSays(lower, iv, w.report.value);
    }
    hide Says, Scored, CardOf, ReportCard.Valid;
  }

  lemma AskedIs(iv: Record, w: World)
    requires iv.state == Asking && iv.pending.None?
    ensures AskNext(iv, w).Ok? <==> HasQuestion(w)
    ensures HasQuestion(w) ==>
              AskNext(iv, w).value ==
                iv.(pending := Some(PendingQuestion(|iv.turns| + 1, w.question.value.text, w.question.value.tag)))
  {
    hide Blank;
  }

  /** An answer that is taken is followed by the next question, or by the report when it is the last. */
  lemma AnswerIs(cfg: Config, lower: char -> char, repo: Repository, id: nat, answer: string, w: World)
    ensures var f := AnswerEffect(cfg, lower, repo, id, answer, w);
            if id in repo && Takes(repo[id], answer) && w.roleFound && w.saved
               && (if Last(cfg, repo[id], w.now) then HasReport(w) else HasQuestion(w))
            then
              var iv, turns := repo[id], TurnsWith(repo[id], answer);
              if Last(cfg, iv, w.now) then
                && f.reply.Reports? && Says(lower, f.reply.card, w.report.value) && ReportOn(iv, f.reply.card)
                && f.repo == repo[iv.id := iv.(turns := turns, pending := None,
                                               state := Closed, report := Some(f.reply.card))]
              else
                var q := PendingQuestion(|iv.turns| + 2, w.question.value.text, w.question.value.tag);
                f.reply == Asks(q) && f.repo == repo[iv.id := iv.(turns := turns, pending := Some(q))]
            else f.reply.Fails? && f.repo == repo
  {
    if id in repo {
      AnsweredIs(repo[id], answer);
      if Takes(repo[id], answer) {
        var iv := repo[id].(turns := TurnsWith(repo[id], answer), pending := None);
        FinishedIs(lower, iv, w);
        AskedIs(iv, w);
      }
    }
    hide Takes, Says, HasReport, HasQuestion, Finished, AskNext, Record.Answered, ReportCard.Valid;
  }

  /** Scoring an interview that has turns gives its report, and makes one when there is none. */
  lemma ScoreIs(lower: char -> char, repo: Repository, id: nat, w: World)
    requires id in repo ==> repo[id].state == Asking || repo[id].report.Some?
    ensures var f := ScoreEffect(lower, repo, id, w);
            if id in repo && repo[id].turns != [] && repo[id].report.Some? then
              f.reply == Reports(repo[id].report.value) && f.repo == repo
            else if id in repo && repo[id].turns != [] && w.roleFound && HasReport(w) && w.saved then
              var iv := repo[id];
              && f.reply.Reports? && Says(lower, f.reply.card, w.report.value) && ReportOn(iv, f.reply.card)
              && f.repo == repo[iv.id := iv.(state := Closed, report := Some(f.reply.card))]
            else f.reply.Fails? && f.repo == repo
  {
    if id in repo && repo[id].report.None? {
      FinishedIs(lower, repo[id], w);
    }
    hide Says, HasReport, Finished, ReportCard.Valid;
  }

  // --------------------------------------------------------------- over whole runs

  /** The card is what the model's report, in some call on the interview before the n-th, says. */
  ghost predicate Assessed(r: Run, id: nat, n: nat, card: ReportCard)
    requires IsRun(r) && n <= |r.events|
  {
    exists i :: 0 <= i < n && AssessedIn(r, id, i, card)
  }

  ghost predicate AssessedIn(r: Run, id: nat, i: nat, card: ReportCard)
    requires IsRun(r) && i < |r.events|
  {
    r.events[i].id == id && HasReport(r.events[i].w) && Says(r.lower, card, r.events[i].w.report.value)
  }

  /** A call changes the report of the interview it names, and then to what the model's report says. */
  lemma DoReports(cfg: Config, lower: char -> char, repo: Repository, e: Event, id: nat)
    requires e.id in repo ==> repo[e.id].id == e.id && (repo[e.id].state == Asking || repo[e.id].report.Some?)
    ensures var after := Do(cfg, lower, repo, e).repo;
            id in after && after[id].report.Some? ==>
              || (id in repo && repo[id].report == after[id].report)
              || (e.id == id && HasReport(e.w) && Says(lower, after[id].report.value, e.w.report.value))
  {
    match e {
      case Start(i, role, candidate, mode, w) => StartIs(repo, i, role, candidate, mode, w);
      case Answer(i, text, w) => AnswerIs(cfg, lower, repo, i, text, w);
      case Score(i, w) => ScoreIs(lower, repo, i, w);
    }
    hide Says, HasReport, HasQuestion, Takes, Last, StartEffect, AnswerEffect, ScoreEffect, ReportOn;
  }

  lemma StepReports(r: Run, id: nat, n: nat)
    requires IsRun(r) && n < |r.events| && id in r.repos[n + 1] && r.repos[n + 1][id].report.Some?
    ensures || (id in r.repos[n] && r.repos[n][id].report == r.repos[n + 1][id].report)
            || AssessedIn(r, id, n, r.repos[n + 1][id].report.value)
  {
    var e := r.events[n];
    EveryRunKeeps(r, e.id, n);
    assert IsStep(r, n);
    hide IsRun, Do, Accepted, Questions, Transcript, Awaiting, HasReport, Says;
    DoReports(r.cfg, r.lower, r.repos[n], e, id);
  }

  /** Every report an interview ever carries says what the model reported in some call on that interview. */
  lemma {:induction false} ReportsAreAssessed(r: Run, id: nat, n: nat)
    requires IsRun(r) && n <= |r.events| && id in r.repos[n] && r.repos[n][id].report.Some?
    ensures Assessed(r, id, n, r.repos[n][id].report.value)
  {
    hide AssessedIn, IsStep;
    if n == 0 {
      assert false;
    } else {
      StepReports(r, id, n - 1);
      if !AssessedIn(r, id, n - 1, r.repos[n][id].report.value) {
        ReportsAreAssessed(r, id, n - 1);
      }
    }
  }
}

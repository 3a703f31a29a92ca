/** What every run of interview calls keeps (internal/app/interview/interviewer.go). */
module InterviewRuns {
  import opened Prelude
  import opened Text
  import opened InterviewDomain
  import opened Interviewer

  datatype Event =
    | Start(id: nat, role: nat, candidate: nat, mode: Mode, w: World)
    | Answer(id: nat, text: string, w: World)
    | Score(id: nat, w: World)

  function Do(cfg: Config, lower: char -> char, repo: Repository, e: Event): Effect {
    match e
    case Start(id, role, candidate, mode, w) => StartEffect(repo, id, role, candidate, mode, w)
    case Answer(id, text, w) => AnswerEffect(cfg, lower, repo, id, text, w)
    case Score(id, w) => ScoreEffect(lower, repo, id, w)
  }

  /** events[i] takes repos[i] to repos[i + 1] and returns replies[i]. */
  datatype Run = Run(cfg: Config, lower: char -> char, events: seq<Event>, repos: seq<Repository>, replies: seq<Reply>)

  ghost predicate IsRun(r: Run) {
    && r.cfg.maxQuestions > 0
    && |r.repos| == |r.events| + 1 && |r.replies| == |r.events| && r.repos[0] == map[]
    && forall i :: 0 <= i < |r.events| ==> IsStep(r, i)
  }

  ghost predicate IsStep(r: Run, i: nat)
    requires i < |r.events| == |r.replies| && |r.repos| == |r.events| + 1
  {
    && (r.events[i].Start? ==> r.events[i].id !in r.repos[i])
    && Effect(r.repos[i + 1], r.replies[i]) == Do(r.cfg, r.lower, r.repos[i], r.events[i])
  }

  /** The answers to interview id that were accepted during the first n calls. */
  ghost function Accepted(r: Run, id: nat, n: nat): seq<string>
    requires IsRun(r) && n <= |r.events|
  {
    if n == 0 then []
    else
      var e := r.events[n - 1];
      Accepted(r, id, n - 1) + if e.Answer? && e.id == id && !r.replies[n - 1].Fails? then [e.text] else []
  }

  /** The questions of interview id that were served during the first n calls. */
  ghost function Questions(r: Run, id: nat, n: nat): seq<PendingQuestion>
    requires IsRun(r) && n <= |r.events|
  {
    if n == 0 then []
    else
      Questions(r, id, n - 1)
      + if r.events[n - 1].id == id && r.replies[n - 1].Asks? then [r.replies[n - 1].question] else []
  }

  // ------------------------------------------------------------------- one record

  /** The transcript pairs each question served with the answer accepted for it, numbered from one. */
  ghost predicate Transcript(turns: seq<Turn>, answers: seq<string>, questions: seq<PendingQuestion>) {
    && |turns| == |answers| <= |questions|
    && forall i :: 0 <= i < |turns| ==>
         && turns[i] == Turn(i + 1, questions[i].text, answers[i], questions[i].tag)
         && !Blank(turns[i].question) && |turns[i].answer| <= MAX_ANSWER_LEN
  }

  /** The open question, if any, is the last one served and the next to be answered. */
  ghost predicate Awaiting(iv: Record, questions: seq<PendingQuestion>) {
    match iv.pending
    case None => |questions| == |iv.turns|
    case Some(q) =>
      && |questions| == |iv.turns| + 1 && questions[|iv.turns|] == q
      && q.ordinal == |iv.turns| + 1 && !Blank(q.text)
  }

  /** Asking below the cap with a question open, or closed with a valid report on this interview. */
  ghost predicate Settled(cfg: Config, iv: Record) {
    || (iv.state == Asking && iv.pending.Some? && iv.report.None? && |iv.turns| < cfg.maxQuestions)
    || (iv.state == Closed && 1 <= |iv.turns| <= cfg.maxQuestions && iv.report.Some? && ReportOn(iv, iv.report.value))
  }

  predicate ReportOn(iv: Record, card: ReportCard) {
    card.Valid() && card.interview == iv.id && card.role == iv.role && card.candidate == iv.candidate
  }

  ghost predicate Kept(cfg: Config, id: nat, iv: Record, answers: seq<string>, questions: seq<PendingQuestion>) {
    iv.id == id && Transcript(iv.turns, answers, questions) && Awaiting(iv, questions) && Settled(cfg, iv)
  }

  lemma StartKeeps(cfg: Config, repo: Repository, id: nat, role: nat, candidate: nat, mode: Mode, w: World)
    requires cfg.maxQuestions > 0
    ensures var f := StartEffect(repo, id, role, candidate, mode, w);
            match f.reply
            case Fails(_) => f.repo == repo
            case Reports(_) => false
            case Asks(q) => id in f.repo && f.repo == repo[id := f.repo[id]] && Kept(cfg, id, f.repo[id], [], [q])
  {
  }

  lemma TranscriptExtends(
    turns: seq<Turn>, answers: seq<string>, questions: seq<PendingQuestion>, t: Turn, answer: string,
    more: seq<PendingQuestion>)
    requires Transcript(turns, answers, questions) && |questions| == |turns| + 1
    requires var q := questions[|turns|]; t == Turn(|turns| + 1, q.text, answer, q.tag)
    requires !Blank(t.question) && |answer| <= MAX_ANSWER_LEN
    ensures Transcript(turns + [t], answers + [answer], questions + more)
  {
  }

  lemma AnsweredKeeps(
    cfg: Config, id: nat, iv: Record, answers: seq<string>, questions: seq<PendingQuestion>, answer: string)
    requires Kept(cfg, id, iv, answers, questions) && iv.Answered(answer).Ok?
    ensures var iv' := iv.Answered(answer).value;
            && iv.state == Asking && iv' == iv.(turns := iv'.turns, pending := None)
            && |iv'.turns| == |iv.turns| + 1 == |questions|
            && forall more :: Transcript(iv'.turns, answers + [answer], questions + more)
  {
    var q := iv.pending.value;
    var t := Turn(q.ordinal, q.text, answer, q.tag);
    forall more ensures Transcript(iv.turns + [t], answers + [answer], questions + more) {
      TranscriptExtends(iv.turns, answers, questions, t, answer, more);
    }
  }

  lemma AnswerKeeps(
    cfg: Config, lower: char -> char, repo: Repository, id: nat, answer: string, w: World,
    answers: seq<string>, questions: seq<PendingQuestion>)
    requires id in repo && Kept(cfg, id, repo[id], answers, questions)
    ensures var f := AnswerEffect(cfg, lower, repo, id, answer, w);
            match f.reply
            case Fails(_) => f.repo == repo
            case Asks(q) => id in f.repo && f.repo == repo[id := f.repo[id]]
                            && Kept(cfg, id, f.repo[id], answers + [answer], questions + [q])
            case Reports(c) =>
              && id in f.repo && f.repo == repo[id := f.repo[id]] && f.repo[id].report == Some(c)
              && Kept(cfg, id, f.repo[id], answers + [answer], questions)
  {
    var f := AnswerEffect(cfg, lower, repo, id, answer, w);
    if repo[id].Answered(answer).Ok? {
      AnsweredKeeps(cfg, id, repo[id], answers, questions, answer);
      hide Transcript;
      assert Transcript(repo[id].Answered(answer).value.turns, answers + [answer], questions + []);
      assert questions + [] == questions;
      if f.reply.Asks? {
        assert Transcript(f.repo[id].turns, answers + [answer], questions + [f.reply.question]);
      }
    }
  }

  lemma ScoreKeeps(
    cfg: Config, lower: char -> char, repo: Repository, id: nat, w: World, answers: seq<string>,
    questions: seq<PendingQuestion>)
    requires id in repo && Kept(cfg, id, repo[id], answers, questions)
    ensures var f := ScoreEffect(lower, repo, id, w);
            match f.reply
            case Fails(_) => f.repo == repo
            case Asks(_) => false
            case Reports(c) =>
              && id in f.repo && f.repo == repo[id := f.repo[id]] && f.repo[id].report == Some(c)
              && Kept(cfg, id, f.repo[id], answers, questions)
  {
    hide Transcript;
    var f := ScoreEffect(lower, repo, id, w);
    if repo[id].report.Some? {
      assert repo == repo[id := repo[id]];
    }
  }

  // --------------------------------------------------------------------- all runs

  /** Where interview id stands after n calls. */
  ghost predicate KeptAt(r: Run, id: nat, n: nat)
    requires IsRun(r) && n <= |r.events|
  {
    if id in r.repos[n] then Kept(r.cfg, id, r.repos[n][id], Accepted(r, id, n), Questions(r, id, n))
    else Accepted(r, id, n) == [] && Questions(r, id, n) == []
  }

  lemma HistoryNext(r: Run, id: nat, n: nat)
    requires IsRun(r) && n < |r.events|
    ensures r.events[n].id != id ==>
              Accepted(r, id, n + 1) == Accepted(r, id, n) && Questions(r, id, n + 1) == Questions(r, id, n)
    ensures r.events[n].id == id ==>
              var e, reply := r.events[n], r.replies[n];
              && Accepted(r, id, n + 1) == Accepted(r, id, n) + (if e.Answer? && !reply.Fails? then [e.text] else [])
              && Questions(r, id, n + 1) == Questions(r, id, n) + (if reply.Asks? then [reply.question] else [])
  {
  }

  /** A call writes at most the record it names, and none when it fails. */
  ghost predicate Touches(r: Run, n: nat)
    requires IsRun(r) && n < |r.events|
  {
    var id, before, after := r.events[n].id, r.repos[n], r.repos[n + 1];
    && (after == before || (id in after && after == before[id := after[id]]))
    && (r.replies[n].Fails? ==> after == before)
    && (r.replies[n].Reports? ==> id in after && after[id].report == Some(r.replies[n].card))
  }

  /** What the effect of a call may do, for the history so far. */
  ghost predicate EffectKeeps(
    r: Run, e: Event, repo: Repository, f: Effect, answers: seq<string>, questions: seq<PendingQuestion>) {
    var id, answers' := e.id, answers + (if e.Answer? && !f.reply.Fails? then [e.text] else []);
    var questions' := questions + if f.reply.Asks? then [f.reply.question] else [];
    && (f.repo == repo || (id in f.repo && f.repo == repo[id := f.repo[id]]))
    && (f.reply.Fails? ==> f.repo == repo)
    && (f.reply.Reports? ==> id in f.repo && f.repo[id].report == Some(f.reply.card))
    && (if id in f.repo then Kept(r.cfg, id, f.repo[id], answers', questions') else answers' == [] && questions' == [])
  }

  lemma DoKeeps(r: Run, e: Event, repo: Repository, answers: seq<string>, questions: seq<PendingQuestion>)
    requires r.cfg.maxQuestions > 0 && (e.Start? ==> e.id !in repo)
    requires if e.id in repo then Kept(r.cfg, e.id, repo[e.id], answers, questions)
             else answers == [] && questions == []
    ensures EffectKeeps(r, e, repo, Do(r.cfg, r.lower, repo, e), answers, questions)
  {
    hide Kept, StartEffect, AnswerEffect, ScoreEffect;
    assert answers + [] == answers && questions + [] == questions;
    match e {
      case Start(id, role, candidate, mode, w) =>
        StartKeeps(r.cfg, repo, id, role, candidate, mode, w);
        var reply := StartEffect(repo, id, role, candidate, mode, w).reply;
        assert reply.Asks? ==> questions + [reply.question] == [reply.question];
      case Answer(id, text, w) =>
        if id in repo { AnswerKeeps(r.cfg, r.lower, repo, id, text, w, answers, questions); }
        else { UnknownFails(r.cfg, r.lower, repo, id, text, w); }
      case Score(id, w) =>
        if id in repo { ScoreKeeps(r.cfg, r.lower, repo, id, w, answers, questions); }
        else { UnknownFails(r.cfg, r.lower, repo, id, "", w); }
    }
  }

  lemma CallKeeps(r: Run, n: nat)
    requires IsRun(r) && n < |r.events| && KeptAt(r, r.events[n].id, n)
    ensures Touches(r, n) && KeptAt(r, r.events[n].id, n + 1)
  {
    var e, repo := r.events[n], r.repos[n];
    var answers, questions := Accepted(r, e.id, n), Questions(r, e.id, n);
    assert IsStep(r, n);
    HistoryNext(r, e.id, n);
    hide Accepted, Questions, Kept, IsRun, Do;
    DoKeeps(r, e, repo, answers, questions);
  }

  lemma UnknownFails(cfg: Config, lower: char -> char, repo: Repository, id: nat, answer: string, w: World)
    requires id !in repo
    ensures AnswerEffect(cfg, lower, repo, id, answer, w) == ScoreEffect(lower, repo, id, w)
            == Effect(repo, Fails(NotFound))
  {
  }

  lemma StepKeeps(r: Run, id: nat, n: nat)
    requires IsRun(r) && n < |r.events| && KeptAt(r, id, n) && KeptAt(r, r.events[n].id, n)
    ensures KeptAt(r, id, n + 1)
  {
    CallKeeps(r, n);
    HistoryNext(r, id, n);
    hide Accepted, Questions, Kept, IsRun;
  }

  lemma NothingKept(r: Run, id: nat)
    requires IsRun(r)
    ensures KeptAt(r, id, 0)
  {
  }

  /**
   In every run and after every call, each stored interview's turns are exactly the answers
   accepted for it paired with the questions served for it, its open question is the last one
   served, and it carries a report exactly when it is closed.
   */
  lemma {:induction false} EveryRunKeeps(r: Run, id: nat, n: nat)
    requires IsRun(r) && n <= |r.events|
    ensures KeptAt(r, id, n)
    decreases n
  {
    hide *;
    if n == 0 {
      NothingKept(r, id);
    } else {
      EveryRunKeeps(r, id, n - 1);
      EveryRunKeeps(r, r.events[n - 1].id, n - 1);
      StepKeeps(r, id, n - 1);
    }
  }

  /** A call that fails changes no stored interview. */
  lemma FailureChangesNothing(r: Run, i: nat)
    requires IsRun(r) && i < |r.events| && r.replies[i].Fails?
    ensures r.repos[i + 1] == r.repos[i]
  {
    EveryRunKeeps(r, r.events[i].id, i);
    CallKeeps(r, i);
  }

  lemma ClosedStep(r: Run, id: nat, n: nat)
    requires IsRun(r) && n < |r.events| && id in r.repos[n]
    requires Settled(r.cfg, r.repos[n][id]) && r.repos[n][id].id == id && KeptAt(r, r.events[n].id, n)
    ensures id in r.repos[n + 1]
    ensures r.repos[n][id].state == Closed ==> r.repos[n + 1][id] == r.repos[n][id]
    ensures r.repos[n][id].turns <= r.repos[n + 1][id].turns
  {
    CallKeeps(r, n);
    assert IsStep(r, n);
    hide KeptAt, IsRun, ReportOn;
  }

  lemma KeptMeans(r: Run, id: nat, n: nat)
    requires IsRun(r) && n <= |r.events| && KeptAt(r, id, n) && id in r.repos[n]
    ensures Settled(r.cfg, r.repos[n][id]) && r.repos[n][id].id == id
    ensures r.repos[n][id].report.Some? <==> r.repos[n][id].state == Closed
  {
    hide Accepted, Questions, Transcript, Awaiting, ReportOn;
  }

  /** A stored interview stays, its transcript only grows, and once it is closed nothing about it changes. */
  lemma {:induction false} ClosedForever(r: Run, id: nat, i: nat, j: nat)
    requires IsRun(r) && i <= j <= |r.events| && id in r.repos[i]
    ensures id in r.repos[j] && r.repos[i][id].turns <= r.repos[j][id].turns
    ensures r.repos[i][id].report.Some? <==> r.repos[i][id].state == Closed
    ensures r.repos[i][id].state == Closed ==> r.repos[j][id] == r.repos[i][id]
    decreases j
  {
    hide *;
    EveryRunKeeps(r, id, i);
    KeptMeans(r, id, i);
    if i == j {
    } else {
      ClosedForever(r, id, i, j - 1);
      EveryRunKeeps(r, id, j - 1);
      KeptMeans(r, id, j - 1);
      EveryRunKeeps(r, r.events[j - 1].id, j - 1);
      ClosedStep(r, id, j - 1);
    }
  }

  lemma ReportIsStored(r: Run, i: nat)
    requires IsRun(r) && i < |r.events| && r.replies[i].Reports?
    ensures var id, card := r.events[i].id, r.replies[i].card;
            && id in r.repos[i + 1] && r.repos[i + 1][id].report == Some(card)
            && card.Valid() && card.interview == id
  {
    EveryRunKeeps(r, r.events[i].id, i);
    EveryRunKeeps(r, r.events[i].id, i + 1);
    CallKeeps(r, i);
    hide IsRun, Transcript, Awaiting, Accepted, Questions, ReportCard.Valid;
  }

  /** All the reports ever delivered on one interview are the same card, and it is valid. */
  lemma OneReport(r: Run, i: nat, j: nat)
    requires IsRun(r) && i <= j < |r.events| && r.events[i].id == r.events[j].id
    requires r.replies[i].Reports? && r.replies[j].Reports?
    ensures r.replies[i].card == r.replies[j].card && r.replies[i].card.Valid()
            && r.replies[i].card.interview == r.events[i].id
  {
    var id := r.events[i].id;
    ReportIsStored(r, i);
    ReportIsStored(r, j);
    ClosedForever(r, id, i + 1, j + 1);
  }

  /**
   At most the configured number of answers is ever accepted, and the interview is closed with
   its report by the time the last of them is.
   */
  lemma ReportByLastQuestion(r: Run, id: nat, n: nat)
    requires IsRun(r) && n <= |r.events|
    ensures |Accepted(r, id, n)| <= r.cfg.maxQuestions
    ensures |Accepted(r, id, n)| == r.cfg.maxQuestions ==>
              id in r.repos[n] && r.repos[n][id].state == Closed && r.repos[n][id].report.Some?
  {
    EveryRunKeeps(r, id, n);
    hide Accepted, Questions;
  }

  /** An accepted answer is met with the next question or with the report, and with the report exactly at a cap. */
  lemma ReportExactlyAtCap(r: Run, i: nat)
    requires IsRun(r) && i < |r.events| && r.events[i].Answer? && !r.replies[i].Fails?
    ensures var e := r.events[i];
            && e.id in r.repos[i] && r.repos[i][e.id].state == Asking
            && (r.replies[i].Reports? <==>
                  || |Accepted(r, e.id, i + 1)| == r.cfg.maxQuestions
                  || (r.cfg.maxDuration > 0 && r.repos[i][e.id].startedAt != 0
                      && e.w.now - r.repos[i][e.id].startedAt >= r.cfg.maxDuration))
  {
    var e := r.events[i];
    EveryRunKeeps(r, e.id, i);
    HistoryNext(r, e.id, i);
    ReportByLastQuestion(r, e.id, i + 1);
    assert IsStep(r, i);
    if e.id in r.repos[i] && r.repos[i][e.id].Answered(e.text).Ok? {
      AnsweredKeeps(r.cfg, e.id, r.repos[i][e.id], Accepted(r, e.id, i), Questions(r, e.id, i), e.text);
    }
    hide Accepted, Questions, IsRun, Transcript;
  }
}

/**
 The interview use-case over a repository that hands out copies
 (internal/app/interview/interviewer.go).  Each call is one step; what the model, the role
 repository, the clock and the store answer during it is an input.
 */
module Interviewer {
  import opened Prelude
  import opened Tokens
  import opened InterviewDomain

  const DEFAULT_MAX_QUESTIONS: int := 4
  const DEFAULT_MAX_DURATION: int := 600_000_000_000

  /** Zero or negative caps are replaced by the defaults. */
  datatype Config = Config(maxQuestions: int, maxDuration: int) {
    function WithDefaults(): (c: Config)
      ensures c.maxQuestions > 0 && c.maxDuration > 0
      ensures c.maxQuestions == if maxQuestions > 0 then maxQuestions else 4
      ensures c.maxDuration == if maxDuration > 0 then maxDuration else 600_000_000_000
    {
      Config(if maxQuestions <= 0 then DEFAULT_MAX_QUESTIONS else maxQuestions,
             if maxDuration <= 0 then DEFAULT_MAX_DURATION else maxDuration)
    }
  }

  datatype Question = Question(text: string, tag: string)

  datatype Assessment = Assessment(verdict: string, confidence: string, scores: seq<CompetencyScore>, nextStep: string)

  /** What the outside world answers during one call. */
  datatype World = World(
    roleFound: bool, warm: bool, now: int, saved: bool,
    question: Result<Question>, report: Result<Assessment>)

  type Repository = map<nat, Record>

  datatype Reply = Asks(question: PendingQuestion) | Reports(card: ReportCard) | Fails(error: Error)

  /** What a call leaves in the repository and returns. */
  datatype Effect = Effect(repo: Repository, reply: Reply)

  function ParseVerdict(lower: char -> char, s: string): Verdict {
    var n := Normal(lower, s);
    if n == "advance" then Advance else if n == "decline" then Decline else Hold
  }

  function ParseConfidence(lower: char -> char, s: string): Confidence {
    var n := Normal(lower, s);
    if n == "low" then Low else if n == "high" then High else Medium
  }

  function CardOf(lower: char -> char, iv: Record, a: Assessment): ReportCard {
    ReportCard(iv.id, iv.role, iv.candidate, ParseVerdict(lower, a.verdict), ParseConfidence(lower, a.confidence),
               a.scores, a.nextStep)
  }

  predicate ShouldFinish(cfg: Config, iv: Record, now: int) {
    || |iv.turns| >= cfg.maxQuestions
    || (cfg.maxDuration > 0 && iv.startedAt != 0 && now - iv.startedAt >= cfg.maxDuration)
  }

  function AskNext(iv: Record, w: World): (r: Result<Record>)
    ensures r.Ok? ==> r.value.pending.Some?
  {
    if w.question.Err? then Err(w.question.error) else iv.Asked(w.question.value.text, w.question.value.tag)
  }

  function Finished(lower: char -> char, iv: Record, w: World): (r: Result<Record>)
    ensures r.Ok? ==> r.value.report.Some?
  {
    if w.report.Err? then Err(w.report.error)
    else
      var scoring := iv.Transitioned(Scoring);
      if scoring.Err? then Err(scoring.error) else scoring.value.Completed(CardOf(lower, iv, w.report.value))
  }

  /** The one write of a call, and the reply once it succeeds. */
  function Stored(repo: Repository, iv: Record, w: World, reply: Reply): Effect {
    if w.saved then Effect(repo[iv.id := iv], reply) else Effect(repo, Fails(Internal))
  }

  function Served(repo: Repository, asked: Result<Record>, w: World): Effect
    requires asked.Ok? ==> asked.value.pending.Some?
  {
    if asked.Err? then Effect(repo, Fails(asked.error))
    else Stored(repo, asked.value, w, Asks(asked.value.pending.value))
  }

  function Delivered(repo: Repository, finished: Result<Record>, w: World): Effect
    requires finished.Ok? ==> finished.value.report.Some?
  {
    if finished.Err? then Effect(repo, Fails(finished.error))
    else Stored(repo, finished.value, w, Reports(finished.value.report.value))
  }

  function StartEffect(repo: Repository, id: nat, role: nat, candidate: nat, mode: Mode, w: World): Effect {
    var created := Opened(id, role, candidate, mode);
    if !w.roleFound then Effect(repo, Fails(NotFound))
    else if created.Err? then Effect(repo, Fails(created.error))
    else if !w.warm then Effect(repo, Fails(Internal))
    else Served(repo, AskNext(created.value.(startedAt := w.now, state := Asking), w), w)
  }

  function AnswerEffect(cfg: Config, lower: char -> char, repo: Repository, id: nat, answer: string, w: World): Effect {
    if id !in repo then Effect(repo, Fails(NotFound))
    else
      var answered := repo[id].Answered(answer);
      if answered.Err? then Effect(repo, Fails(answered.error))
      else if !w.roleFound then Effect(repo, Fails(NotFound))
      else if ShouldFinish(cfg, answered.value, w.now) then Delivered(repo, Finished(lower, answered.value, w), w)
      else Served(repo, AskNext(answered.value, w), w)
  }

  function ScoreEffect(lower: char -> char, repo: Repository, id: nat, w: World): Effect {
    if id !in repo then Effect(repo, Fails(NotFound))
    else if repo[id].turns == [] then Effect(repo, Fails(Invalid))
    else if repo[id].report.Some? then Effect(repo, Reports(repo[id].report.value))
    else if !w.roleFound then Effect(repo, Fails(NotFound))
    else Delivered(repo, Finished(lower, repo[id], w), w)
  }

  class Interviewer {
    const cfg: Config
    const lower: char -> char
    var repo: Repository

    constructor (cfg: Config, lower: char -> char)
      ensures Keyed() && repo == map[] && this.cfg == cfg.WithDefaults() && this.lower == lower
    {
      this.cfg := cfg.WithDefaults();
      this.lower := lower;
      repo := map[];
    }

    predicate Keyed() reads this { forall id :: id in repo ==> repo[id].id == id }

    /** Opens an interview under a new id and serves its first question. */
    method Start(id: nat, role: nat, candidate: nat, mode: Mode, w: World) returns (reply: Reply)
      requires Keyed()
      modifies this
      ensures Keyed() && Effect(repo, reply) == StartEffect(old(repo), id, role, candidate, mode, w)
    {
      if !w.roleFound {
        return Fails(NotFound);
      }
      var created := Opened(id, role, candidate, mode);
      if created.Err? {
        return Fails(created.error);
      }
      var iv := new Interview(created.value);
      iv.startedAt := w.now;
      var moved := iv.Transition(Asking);
      if !w.warm {
        return Fails(Internal);
      }
      var asked := AskQuestion(iv, w);
      if asked.Err? {
        return Fails(asked.error);
      }
      if !w.saved {
        return Fails(Internal);
      }
      repo := repo[iv.id := iv.Contents()];
      return Asks(iv.pending.value);
    }

    /** Records an answer; serves the next question, or the report card once a cap is reached. */
    method Answer(id: nat, answer: string, w: World) returns (reply: Reply)
      requires Keyed()
      modifies this
      ensures Keyed() && Effect(repo, reply) == AnswerEffect(cfg, lower, old(repo), id, answer, w)
    {
      if id !in repo {
        return Fails(NotFound);
      }
      var iv := new Interview(repo[id]);
      var answered := iv.Answer(answer);
      if answered.Err? {
        return Fails(answered.error);
      }
      if !w.roleFound {
        return Fails(NotFound);
      }
      if ShouldFinish(cfg, iv.Contents(), w.now) {
        var finished := Finish(iv, w);
        return if finished.Err? then Fails(finished.error) else Reports(iv.report.value);
      }
      var asked := AskQuestion(iv, w);
      if asked.Err? {
        return Fails(asked.error);
      }
      if !w.saved {
        return Fails(Internal);
      }
      repo := repo[iv.id := iv.Contents()];
      return Asks(iv.pending.value);
    }

    method ScoreAsync(id: nat, w: World) returns (reply: Reply)
      requires Keyed()
      modifies this
      ensures Keyed() && Effect(repo, reply) == ScoreEffect(lower, old(repo), id, w)
    {
      if id !in repo {
        return Fails(NotFound);
      }
      var iv := new Interview(repo[id]);
      if |iv.turns| == 0 {
        return Fails(Invalid);
      }
      if iv.report.Some? {
        return Reports(iv.report.value);
      }
      if !w.roleFound {
        return Fails(NotFound);
      }
      var finished := Finish(iv, w);
      return if finished.Err? then Fails(finished.error) else Reports(iv.report.value);
    }

    method AskQuestion(iv: Interview, w: World) returns (res: Result<Record>)
      modifies iv
      ensures res == AskNext(old(iv.Contents()), w)
      ensures res.Ok? ==> iv.Contents() == res.value
    {
      if w.question.Err? {
        return Err(w.question.error);
      }
      res := iv.Ask(w.question.value.text, w.question.value.tag);
    }

    /** Scores the transcript, closes the interview and stores it. */
    method Finish(iv: Interview, w: World) returns (res: Result<Record>)
      modifies this, iv
      ensures var done := Finished(lower, old(iv.Contents()), w);
              && (done.Err? ==> res == done && repo == old(repo))
              && (done.Ok? && !w.saved ==> res == Err(Internal) && repo == old(repo))
              && (done.Ok? && w.saved ==> res == done && repo == old(repo)[iv.id := done.value])
      ensures res.Ok? ==> iv.Contents() == res.value
    {
      if w.report.Err? {
        return Err(w.report.error);
      }
      var card := CardOf(lower, iv.Contents(), w.report.value);
      var moved := iv.Transition(Scoring);
      if moved.Err? {
        return moved;
      }
      var completed := iv.Complete(card);
      if completed.Err? {
        return completed;
      }
      if !w.saved {
        return Err(Internal);
      }
      repo := repo[iv.id := iv.Contents()];
      return completed;
    }
  }
}

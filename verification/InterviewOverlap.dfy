/**
 Interview calls that overlap (internal/app/interview/interviewer.go).  A call loads its own
 copy of the interview, works on it, and stores it; nothing keeps another call on the same
 interview from storing in between.
 */
module InterviewOverlap {
  import opened Prelude
  import opened Text
  import opened InterviewDomain
  import opened Interviewer
  import opened InterviewRuns

  /** A call between its load and its store: an answer, or a request for scoring. */
  datatype Flight = Flight(id: nat, answer: Option<string>, loaded: Record)

  datatype Shared = Shared(repo: Repository, flights: map<nat, Flight>)

  datatype Step =
    | Begin(id: nat, role: nat, candidate: nat, mode: Mode, w: World) // Start stores a new interview
    | Load(call: nat, id: nat, answer: Option<string>)
    | Store(call: nat, w: World)                                      // w: all that is answered after the load

  predicate Enabled(s: Shared, e: Step) {
    match e
    case Begin(id, _, _, _, _) => id !in s.repo
    case Load(call, id, _) => call !in s.flights && id in s.repo
    case Store(call, _) => call in s.flights
  }

  /** What the call comes to on its own copy. */
  function Worked(cfg: Config, lower: char -> char, f: Flight, w: World): Effect {
    var own := map[f.id := f.loaded];
    if f.answer.Some? then AnswerEffect(cfg, lower, own, f.id, f.answer.value, w) else ScoreEffect(lower, own, f.id, w)
  }

  function Next(cfg: Config, lower: char -> char, s: Shared, e: Step): Shared
    requires Enabled(s, e)
  {
    match e
    case Begin(id, role, candidate, mode, w) =>
      s.(repo := StartEffect(s.repo, id, role, candidate, mode, w).repo)
    case Load(call, id, answer) => s.(flights := s.flights[call := Flight(id, answer, s.repo[id])])
    case Store(call, w) =>
      var f := s.flights[call];
      var own := Worked(cfg, lower, f, w).repo;
      s.(repo := if own == map[f.id := f.loaded] then s.repo else s.repo + own, flights := s.flights - {call})
  }

  function EventOf(f: Flight, w: World): Event {
    if f.answer.Some? then Answer(f.id, f.answer.value, w) else Score(f.id, w)
  }

  // ----------------------------------------------------------- undisturbed calls

  lemma AnswerIsLocal(
    cfg: Config, lower: char -> char, repo: Repository, own: Repository, id: nat, answer: string, w: World)
    requires id in repo && own == map[id := repo[id]] && repo[id].id == id
    ensures var all, mine := AnswerEffect(cfg, lower, repo, id, answer, w), AnswerEffect(cfg, lower, own, id, answer,
            w);
            all.reply == mine.reply && all.repo == if mine.repo == own then repo else repo + mine.repo
  {
    assert repo == repo[id := repo[id]];
  }

  lemma ScoreIsLocal(lower: char -> char, repo: Repository, own: Repository, id: nat, w: World)
    requires id in repo && own == map[id := repo[id]] && repo[id].id == id
    ensures var all, mine := ScoreEffect(lower, repo, id, w), ScoreEffect(lower, own, id, w);
            all.reply == mine.reply && all.repo == if mine.repo == own then repo else repo + mine.repo
  {
    assert repo == repo[id := repo[id]];
  }

  /** A call whose interview nobody stored since its load does what it does in one step. */
  lemma UndisturbedIsAtomic(cfg: Config, lower: char -> char, s: Shared, call: nat, w: World)
    requires call in s.flights
    requires var f := s.flights[call]; f.id in s.repo && s.repo[f.id] == f.loaded && f.loaded.id == f.id
    ensures var f := s.flights[call];
            Do(cfg, lower, s.repo, EventOf(f, w))
              == Effect(Next(cfg, lower, s, Store(call, w)).repo, Worked(cfg, lower, f, w).reply)
  {
    var f := s.flights[call];
    var own := map[f.id := f.loaded];
    if f.answer.Some? {
      AnswerIsLocal(cfg, lower, s.repo, own, f.id, f.answer.value, w);
    } else {
      ScoreIsLocal(lower, s.repo, own, f.id, w);
    }
    hide AnswerEffect, ScoreEffect;
  }

  // -------------------------------------------------------------- lost reports

  /** What every stored interview is known to be, whatever calls overlapped. */
  ghost predicate Sane(cfg: Config, id: nat, iv: Record) {
    && iv.id == id && Settled(cfg, iv)
    && (iv.pending.Some? ==> iv.pending.value.ordinal >= 1 && !Blank(iv.pending.value.text))
  }

  /** The copy was loaded before the interview closed, and the call's own guards let it go on. */
  predicate MayStore(f: Flight) {
    && f.loaded.state == Asking
    && if f.answer.Some? then |f.answer.value| <= MAX_ANSWER_LEN else f.loaded.turns != []
  }

  /** The world may answer so that the call changes the record stored under its id. */
  ghost predicate MayOverwrite(cfg: Config, lower: char -> char, s: Shared, call: nat)
    requires call in s.flights && s.flights[call].id in s.repo
  {
    exists w :: Stores(cfg, lower, s, call, w)
  }

  ghost predicate Stores(cfg: Config, lower: char -> char, s: Shared, call: nat, w: World)
    requires call in s.flights && s.flights[call].id in s.repo
  {
    var id, repo := s.flights[call].id, Next(cfg, lower, s, Store(call, w)).repo;
    id in repo && repo[id] != s.repo[id]
  }

  lemma BarredCallWritesNothing(cfg: Config, lower: char -> char, f: Flight, w: World)
    requires Sane(cfg, f.id, f.loaded) && !MayStore(f)
    ensures Worked(cfg, lower, f, w).repo == map[f.id := f.loaded]
  {
    hide ReportOn;
  }

  /** Answers of the world under which a call goes through, before any time cap; the report says what is asked. */
  function Helpful(now: int, nextStep: string): World {
    World(true, true, now, true, Ok(Question("q", "")),
          Ok(Assessment("", "", [CompetencyScore("c", 0.0, "e")], nextStep)))
  }

  lemma HelpfulIsValid(lower: char -> char, iv: Record, now: int, nextStep: string)
    ensures !Blank("q")
    ensures CardOf(lower, iv, Helpful(now, nextStep).report.value).Valid()
  {
    assert !Blank("q") && !Blank("c") && !Blank("e") by {
      assert !IsSpace("q"[0]) && !IsSpace("c"[0]) && !IsSpace("e"[0]);
    }
  }

  lemma HelpedAnswerStores(cfg: Config, lower: char -> char, f: Flight, nextStep: string)
    requires Sane(cfg, f.id, f.loaded) && MayStore(f) && f.answer.Some? && cfg.maxDuration > 0
    ensures var own := Worked(cfg, lower, f, Helpful(f.loaded.startedAt, nextStep)).repo;
            && own.Keys == {f.id} && own != map[f.id := f.loaded]
            && if |f.loaded.turns| + 1 < cfg.maxQuestions then own[f.id].state == Asking && own[f.id].report.None?
               else own[f.id].report.Some? && own[f.id].report.value.nextStep == nextStep
  {
    var w, answered := Helpful(f.loaded.startedAt, nextStep), f.loaded.Answered(f.answer.value);
    HelpfulIsValid(lower, answered.value, w.now, nextStep);
    hide ReportCard.Valid, Blank;
  }

  lemma HelpedScoreStores(cfg: Config, lower: char -> char, f: Flight, nextStep: string)
    requires Sane(cfg, f.id, f.loaded) && MayStore(f) && f.answer.None?
    ensures var own := Worked(cfg, lower, f, Helpful(0, nextStep)).repo;
            && own.Keys == {f.id} && own != map[f.id := f.loaded]
            && own[f.id].report.Some? && own[f.id].report.value.nextStep == nextStep
  {
    HelpfulIsValid(lower, f.loaded, 0, nextStep);
    hide ReportCard.Valid, Blank;
  }

  /**
   Once an interview is closed, a call in flight can still change it exactly when it loaded it
   open and its guards pass.
   */
  lemma OverwritesClosedIff(cfg: Config, lower: char -> char, s: Shared, call: nat)
    requires cfg.maxDuration > 0 && call in s.flights && s.flights[call].id in s.repo
    requires var f := s.flights[call];
             && Sane(cfg, f.id, f.loaded) && Sane(cfg, f.id, s.repo[f.id]) && s.repo[f.id].state == Closed
    ensures MayOverwrite(cfg, lower, s, call) <==> MayStore(s.flights[call])
  {
    var f := s.flights[call];
    if MayStore(f) {
      var nextStep := s.repo[f.id].report.value.nextStep + "!";
      assert |nextStep| != |s.repo[f.id].report.value.nextStep|;
      var w := if f.answer.Some? then Helpful(f.loaded.startedAt, nextStep) else Helpful(0, nextStep);
      if f.answer.Some? {
        HelpedAnswerStores(cfg, lower, f, nextStep);
      } else {
        HelpedScoreStores(cfg, lower, f, nextStep);
      }
      hide Worked, Helpful;
      assert Stores(cfg, lower, s, call, w);
    } else {
      forall w ensures !Stores(cfg, lower, s, call, w) {
        BarredCallWritesNothing(cfg, lower, f, w);
      }
    }
  }

  // ------------------------------------------------------------------ whole runs

  ghost predicate IsRun(cfg: Config, lower: char -> char, ss: seq<Shared>, es: seq<Step>) {
    && cfg.maxQuestions > 0 && |ss| == |es| + 1 && ss[0] == Shared(map[], map[])
    && forall i :: 0 <= i < |es| ==> Enabled(ss[i], es[i]) && ss[i + 1] == Next(cfg, lower, ss[i], es[i])
  }

  ghost predicate AllSane(cfg: Config, s: Shared) {
    && (forall id :: id in s.repo ==> Sane(cfg, id, s.repo[id]))
    && forall call :: call in s.flights ==>
         var f := s.flights[call]; f.id in s.repo && Sane(cfg, f.id, f.loaded)
  }

  lemma WorkedIsSane(cfg: Config, lower: char -> char, f: Flight, w: World)
    requires Sane(cfg, f.id, f.loaded)
    ensures var own := Worked(cfg, lower, f, w).repo; own.Keys == {f.id} && Sane(cfg, f.id, own[f.id])
  {
    hide Blank, ReportCard.Valid;
  }

  lemma BegunIsSane(cfg: Config, repo: Repository, id: nat, role: nat, candidate: nat, mode: Mode, w: World)
    requires cfg.maxQuestions > 0 && id !in repo
    ensures var after := StartEffect(repo, id, role, candidate, mode, w).repo;
            after == repo || (id in after && after == repo[id := after[id]] && Sane(cfg, id, after[id]))
  {
    hide Blank;
  }

  /** Replacing or adding one sane record keeps all sane. */
  lemma StoredIsSane(cfg: Config, s: Shared, id: nat, iv: Record)
    requires AllSane(cfg, s) && Sane(cfg, id, iv)
    ensures AllSane(cfg, s.(repo := s.repo[id := iv]))
  {
    hide Sane;
  }

  lemma LoadIsSane(cfg: Config, s: Shared, call: nat, id: nat, answer: Option<string>)
    requires AllSane(cfg, s) && id in s.repo
    ensures AllSane(cfg, s.(flights := s.flights[call := Flight(id, answer, s.repo[id])]))
  {
    hide Sane;
  }

  lemma LandingIsSane(cfg: Config, s: Shared, call: nat)
    requires AllSane(cfg, s)
    ensures AllSane(cfg, s.(flights := s.flights - {call}))
  {
    hide Sane;
  }

  lemma StoreIsSane(cfg: Config, lower: char -> char, s: Shared, call: nat, w: World)
    requires AllSane(cfg, s) && call in s.flights
    ensures AllSane(cfg, Next(cfg, lower, s, Store(call, w)))
  {
    var f := s.flights[call];
    var own := Worked(cfg, lower, f, w).repo;
    WorkedIsSane(cfg, lower, f, w);
    hide Worked, Sane;
    assert s.repo + own == s.repo[f.id := own[f.id]];
    StoredIsSane(cfg, s, f.id, own[f.id]);
    LandingIsSane(cfg, s, call);
    LandingIsSane(cfg, s.(repo := s.repo[f.id := own[f.id]]), call);
    hide AllSane;
  }

  lemma StepSane(cfg: Config, lower: char -> char, s: Shared, e: Step)
    requires cfg.maxQuestions > 0 && AllSane(cfg, s) && Enabled(s, e)
    ensures AllSane(cfg, Next(cfg, lower, s, e))
  {
    hide AllSane, Sane, StartEffect, Worked;
    match e
    case Begin(id, role, candidate, mode, w) =>
      BegunIsSane(cfg, s.repo, id, role, candidate, mode, w);
      var after := StartEffect(s.repo, id, role, candidate, mode, w).repo;
      if after != s.repo {
        StoredIsSane(cfg, s, id, after[id]);
      }
    case Load(call, id, answer) => LoadIsSane(cfg, s, call, id, answer);
    case Store(call, w) => StoreIsSane(cfg, lower, s, call, w);
  }

  /**
   However calls overlap, every stored interview is well formed: closed with a valid report, or
   asking below the cap.
   */
  lemma {:induction false} OverlappedRunsAreSane(
    cfg: Config, lower: char -> char, ss: seq<Shared>, es: seq<Step>, n: nat)
    requires IsRun(cfg, lower, ss, es) && n < |ss|
    ensures AllSane(cfg, ss[n])
  {
    hide AllSane, Enabled, Next;
    if n == 0 {
      NothingIsSane(cfg);
    } else {
      OverlappedRunsAreSane(cfg, lower, ss, es, n - 1);
      StepSane(cfg, lower, ss[n - 1], es[n - 1]);
    }
  }

  lemma NothingIsSane(cfg: Config)
    ensures AllSane(cfg, Shared(map[], map[]))
  {
  }

  /** In every run: a closed interview can be changed by the calls in flight exactly as said above. */
  lemma RunOverwritesClosedIff(cfg: Config, lower: char -> char, ss: seq<Shared>, es: seq<Step>, n: nat, call: nat)
    requires IsRun(cfg, lower, ss, es) && cfg.maxDuration > 0 && n < |ss| && call in ss[n].flights
    requires var f := ss[n].flights[call]; f.id in ss[n].repo && ss[n].repo[f.id].state == Closed
    ensures MayOverwrite(cfg, lower, ss[n], call) <==> MayStore(ss[n].flights[call])
  {
    OverlappedRunsAreSane(cfg, lower, ss, es, n);
    hide IsRun, Sane, MayOverwrite, MayStore;
    OverwritesClosedIff(cfg, lower, ss[n], call);
  }

  // ------------------------------------------------------------- a report is lost

  /** A new interview that has asked its first question. */
  function Asked(now: int): Record {
    Record(1, 1, 1, ModeText, now, Asking, [], Some(PendingQuestion(1, "q", "")), None)
  }

  lemma BeginsAsking(repo: Repository)
    requires repo == map[]
    ensures StartEffect(repo, 1, 1, 1, ModeText, Helpful(1, "")).repo == map[1 := Asked(1)]
  {
    HelpfulIsValid((c: char) => c, Asked(1), 1, "");
    hide Blank;
  }

  /** The first answer is late, and closes the interview. */
  lemma LateAnswerCloses(cfg: Config, lower: char -> char)
    requires cfg.maxQuestions >= 2 && cfg.maxDuration > 0
    ensures var own := Worked(cfg, lower, Flight(1, Some("a"), Asked(1)), Helpful(1 + cfg.maxDuration, "")).repo;
            own.Keys == {1} && own[1].state == Closed && own[1].report.Some?
  {
    HelpfulIsValid(lower, Asked(1).(turns := [Turn(1, "q", "a", "")], pending := None), 1 + cfg.maxDuration, "");
    hide Blank, ReportCard.Valid;
  }

  function Sent(): Flight { Flight(1, Some("a"), Asked(1)) }

  /** Storing the work of a flight on the only interview there is. */
  lemma StoresOwn(cfg: Config, lower: char -> char, s: Shared, call: nat, w: World)
    requires call in s.flights && s.flights[call] == Sent() && s.repo.Keys == {1}
    requires var own := Worked(cfg, lower, Sent(), w).repo; own.Keys == {1} && own != map[1 := Asked(1)]
    ensures Next(cfg, lower, s, Store(call, w)) == Shared(Worked(cfg, lower, Sent(), w).repo, s.flights - {call})
  {
    hide Worked;
  }

  ghost predicate Leads(cfg: Config, lower: char -> char, s: Shared, e: Step, s': Shared) {
    Enabled(s, e) && s' == Next(cfg, lower, s, e)
  }

  lemma FiveSteps(cfg: Config, lower: char -> char, ss: seq<Shared>, es: seq<Step>)
    requires cfg.maxQuestions > 0 && |es| == 5 && |ss| == 6 && ss[0] == Shared(map[], map[])
    requires Leads(cfg, lower, ss[0], es[0], ss[1]) && Leads(cfg, lower, ss[1], es[1], ss[2])
    requires Leads(cfg, lower, ss[2], es[2], ss[3]) && Leads(cfg, lower, ss[3], es[3], ss[4])
    requires Leads(cfg, lower, ss[4], es[4], ss[5])
    ensures IsRun(cfg, lower, ss, es)
  {
    hide Next, Enabled;
  }

  function BothSent(): map<nat, Flight> { map[0 := Sent()][1 := Sent()] }

  lemma SendsTwice(cfg: Config, lower: char -> char)
    ensures var s1 := Shared(map[1 := Asked(1)], map[]);
            var s2 := s1.(flights := map[0 := Sent()]);
            && Leads(cfg, lower, Shared(map[], map[]), Begin(1, 1, 1, ModeText, Helpful(1, "")), s1)
            && Leads(cfg, lower, s1, Load(0, 1, Some("a")), s2)
            && Leads(cfg, lower, s2, Load(1, 1, Some("a")), s2.(flights := BothSent()))
  {
    BeginsAsking(map[]);
    hide StartEffect, Helpful;
  }

  lemma StoresBoth(cfg: Config, lower: char -> char, late: World, early: World)
    requires var own := Worked(cfg, lower, Sent(), late).repo; own.Keys == {1} && own != map[1 := Asked(1)]
    requires var own := Worked(cfg, lower, Sent(), early).repo; own.Keys == {1} && own != map[1 := Asked(1)]
    ensures var s3 := Shared(map[1 := Asked(1)], BothSent());
            var s4 := Shared(Worked(cfg, lower, Sent(), late).repo, BothSent() - {0});
            var s5 := Shared(Worked(cfg, lower, Sent(), early).repo, BothSent() - {0} - {1});
            Leads(cfg, lower, s3, Store(0, late), s4) && Leads(cfg, lower, s4, Store(1, early), s5)
  {
    StoresOwn(cfg, lower, Shared(map[1 := Asked(1)], BothSent()), 0, late);
    StoresOwn(cfg, lower, Shared(Worked(cfg, lower, Sent(), late).repo, BothSent() - {0}), 1, early);
    hide Worked, Next;
  }

  /** The same answer sent twice at the time cap: the second store reopens the interview and its report is gone. */
  lemma OverlapLosesReport(cfg: Config, lower: char -> char) returns (ss: seq<Shared>, es: seq<Step>)
    requires cfg.maxQuestions >= 2 && cfg.maxDuration > 0
    ensures IsRun(cfg, lower, ss, es) && |es| == 5
    ensures 1 in ss[4].repo && ss[4].repo[1].state == Closed && ss[4].repo[1].report.Some?
    ensures 1 in ss[5].repo && ss[5].repo[1].state == Asking && ss[5].repo[1].report.None?
  {
    hide Worked, Helpful, IsRun, Leads, Sane, MayStore, Enabled, Next;
    var late, early := Helpful(1 + cfg.maxDuration, ""), Helpful(1, "");
    LateAnswerCloses(cfg, lower);
    SentMayStore(cfg);
    HelpedAnswerStores(cfg, lower, Sent(), "");
    SendsTwice(cfg, lower);
    StoresBoth(cfg, lower, late, early);
    var s1 := Shared(map[1 := Asked(1)], map[]);
    var s4 := Shared(Worked(cfg, lower, Sent(), late).repo, BothSent() - {0});
    es := [Begin(1, 1, 1, ModeText, early), Load(0, 1, Some("a")), Load(1, 1, Some("a")),
           Store(0, late), Store(1, early)];
    ss := [Shared(map[], map[]), s1, s1.(flights := map[0 := Sent()]), s1.(flights := BothSent()), s4,
           Shared(Worked(cfg, lower, Sent(), early).repo, BothSent() - {0} - {1})];
    FiveSteps(cfg, lower, ss, es);
  }

  lemma SentMayStore(cfg: Config)
    requires cfg.maxQuestions >= 2
    ensures Sane(cfg, 1, Asked(1)) && MayStore(Sent()) && |Asked(1).turns| + 1 < cfg.maxQuestions
  {
    assert !IsSpace("q"[0]);
  }
}

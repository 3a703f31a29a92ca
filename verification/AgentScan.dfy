/**
 The candidate agent's run over the open roles: gate, assess, check the draft, apply
 (internal/app/candidateagent/runner.go).  The language model's replies and the repository's
 verdicts on each insertion are inputs.
 */
module AgentScan {
  import opened Prelude
  import opened Text
  import opened Tokens
  import opened Fit
  import opened RoleGates
  import FitProofs
  import Grounding

  datatype Assessment = Assessment(fitScore: real, apply: bool, summary: string)

  /** What the outside world answers while a role is considered. */
  datatype Reply = Reply(assessment: Result<Assessment>, create: Result<bool>)

  /** What considering a role came to. */
  datatype Outcome = Declined | Unverified(skills: seq<string>) | Ungrounded | Applied(summary: string)

  datatype View = View(newMatches: nat, submitted: nat, highlights: seq<Highlight>)

  /** A note for the candidate about the role at a position of the scan. */
  datatype Highlight = Highlight(role: nat, outcome: Outcome)

  datatype Application = Application(role: nat, summary: string)

  function Names(profile: seq<Signal>): seq<string> {
    seq(|profile|, i requires 0 <= i < |profile| => profile[i].name)
  }

  function RubricNames(r: Rubric): seq<string> {
    seq(|r|, i requires 0 <= i < |r| => r[i].name)
  }

  ghost function Verdict(lower: char -> char, minFit: real, profile: seq<Signal>, r: Role, a: Assessment): Outcome {
    var fabricated := Grounding.Fabricated(lower, a.summary, Names(profile), RubricNames(r.rubric));
    if !a.apply || a.fitScore < minFit then Declined
    else if fabricated != [] then Unverified(fabricated)
    else if Blank(a.summary) then Ungrounded
    else Applied(a.summary)
  }

  method Consider(lower: char -> char, minFit: real, profile: seq<Signal>, r: Role, reply: Reply)
    returns (res: Result<Outcome>)
    ensures reply.assessment.Err? ==> res == Err(reply.assessment.error)
    ensures reply.assessment.Ok? ==>
              var v := Verdict(lower, minFit, profile, r, reply.assessment.value);
              res == if v.Applied? && reply.create.Err? then Err(reply.create.error) else Ok(v)
  {
    if reply.assessment.Err? {
      return Err(reply.assessment.error);
    }
    var a := reply.assessment.value;
    if !a.apply || a.fitScore < minFit {
      return Ok(Declined);
    }
    var grounded, fabricated := Grounding.CheckGrounding(lower, a.summary, Names(profile), RubricNames(r.rubric));
    if !grounded {
      return Ok(Unverified(fabricated));
    }
    TrimSpaceEmpty(a.summary);
    if TrimSpace(a.summary) == "" {
      return Ok(Ungrounded);
    }
    if reply.create.Err? {
      return Err(reply.create.error);
    }
    return Ok(Applied(a.summary));
  }

  // ------------------------------------------------------------- what a run may do

  /** An application the agent may honestly send for this role. */
  ghost predicate Honest(k: Casing, c: Candidate, profile: seq<Signal>, r: Role, summary: string) {
    && Eligible(k, c, profile, r)
    && !Blank(summary)
    && forall name :: name in RubricNames(r.rubric) ==>
         !Grounding.IsFabricated(k.lower, summary, Names(profile), name)
  }

  ghost predicate MustHave(r: Rubric, name: string) {
    exists i :: 0 <= i < |r| && r[i].mustHave && r[i].name == name
  }

  /** A note the agent may leave about this role. */
  ghost predicate Explained(k: Casing, c: Candidate, profile: seq<Signal>, r: Role, o: Outcome) {
    && Eligible(k, c, profile, r)
    && (o.Applied? || o.Unverified?)
    && (o.Unverified? ==>
          && o.skills != []
          && forall name :: name in o.skills ==> name in RubricNames(r.rubric) && !MustHave(r.rubric, name))
  }

  ghost function EligibleCount(k: Casing, c: Candidate, profile: seq<Signal>, roles: seq<Role>): nat {
    if roles == [] then 0
    else EligibleCount(k, c, profile, roles[..|roles| - 1])
         + if Eligible(k, c, profile, roles[|roles| - 1]) then 1 else 0
  }

  lemma {:induction false} LevelNeedsSignal(lower: char -> char, c: seq<Signal>, key: string)
    requires CandidateLevel(lower, c, key).Some?
    ensures Grounding.GateFinds(lower, Names(c), key)
  {
    if Carries(lower, c[0].name, key) {
      assert Names(c)[0] == c[0].name;
    } else {
      LevelNeedsSignal(lower, c[1..], key);
      var name :| name in Names(c[1..]) && Carries(lower, name, key);
      assert Names(c[1..]) == Names(c)[1..];
      assert name in Names(c);
    }
  }

  /** An eligible role is never skipped over one of its must-haves, whatever the draft says. */
  lemma MustHaveNeverFabricated(k: Casing, c: Candidate, profile: seq<Signal>, r: Role, summary: string, name: string)
    requires Lowering(k.lower) && Eligible(k, c, profile, r) && MustHave(r.rubric, name)
    ensures name !in Grounding.Fabricated(k.lower, summary, Names(profile), RubricNames(r.rubric))
  {
    var i :| 0 <= i < |r.rubric| && r.rubric[i].mustHave && r.rubric[i].name == name;
    assert FitProofs.Evidenced(k.lower, profile, r.rubric[i]);
    var key := Normal(k.lower, name);
    if key == "" {
      Grounding.FabricatedIff(k.lower, summary, Names(profile), RubricNames(r.rubric), name);
    } else {
      LevelNeedsSignal(k.lower, profile, key);
      Grounding.CoveredIsNeverFabricated(k.lower, summary, Names(profile), RubricNames(r.rubric), name);
    }
  }

  /** What a verdict on an eligible role entitles the agent to. */
  lemma VerdictIsHonest(k: Casing, minFit: real, c: Candidate, profile: seq<Signal>, r: Role, a: Assessment)
    requires Lowering(k.lower) && Eligible(k, c, profile, r)
    ensures var v := Verdict(k.lower, minFit, profile, r, a);
            && (v.Applied? ==> v.summary == a.summary && Honest(k, c, profile, r, v.summary))
            && (v.Applied? || v.Unverified? ==> Explained(k, c, profile, r, v))
  {
    var names := RubricNames(r.rubric);
    var fabricated := Grounding.Fabricated(k.lower, a.summary, Names(profile), names);
    forall name
      ensures name in fabricated <==> name in names && Grounding.IsFabricated(k.lower, a.summary, Names(profile), name)
      ensures name in fabricated ==> !MustHave(r.rubric, name)
    {
      Grounding.FabricatedIff(k.lower, a.summary, Names(profile), names, name);
      if MustHave(r.rubric, name) {
        MustHaveNeverFabricated(k, c, profile, r, a.summary, name);
      }
    }
    hide Grounding.Fabricated, Grounding.IsFabricated, Eligible, MustHave, RubricNames, Blank, Lowering;
  }

  /** The positions noted or applied to follow the scan, each at most once. */
  ghost predicate Increasing(positions: seq<nat>, bound: nat) {
    && (forall i :: 0 <= i < |positions| ==> positions[i] < bound)
    && (forall i, j :: 0 <= i < j < |positions| ==> positions[i] < positions[j])
  }

  function Positions(log: seq<Application>): seq<nat> {
    seq(|log|, i requires 0 <= i < |log| => log[i].role)
  }

  function Noted(hs: seq<Highlight>): seq<nat> {
    seq(|hs|, i requires 0 <= i < |hs| => hs[i].role)
  }

  ghost predicate LogHonest(k: Casing, c: Candidate, profile: seq<Signal>, roles: seq<Role>, log: seq<Application>) {
    forall i :: 0 <= i < |log| ==>
      log[i].role < |roles| && Honest(k, c, profile, roles[log[i].role], log[i].summary)
  }

  ghost predicate NotesExplained(k: Casing, c: Candidate, profile: seq<Signal>, roles: seq<Role>, hs: seq<Highlight>) {
    forall i :: 0 <= i < |hs| ==>
      hs[i].role < |roles| && Explained(k, c, profile, roles[hs[i].role], hs[i].outcome)
  }

  /** The notes of applications are the applications sent, in order. */
  function AppliedOf(hs: seq<Highlight>): seq<Application> {
    if hs == [] then []
    else
      var h := hs[|hs| - 1];
      AppliedOf(hs[..|hs| - 1]) + if h.outcome.Applied? then [Application(h.role, h.outcome.summary)] else []
  }

  /** Where a scan stands after its first i roles. */
  ghost predicate Scanned(
    k: Casing, c: Candidate, profile: seq<Signal>, roles: seq<Role>, i: nat, v: View, log: seq<Application>)
    requires i <= |roles|
  {
    && LogHonest(k, c, profile, roles, log) && Increasing(Positions(log), i)
    && NotesExplained(k, c, profile, roles, v.highlights) && Increasing(Noted(v.highlights), i)
    && AppliedOf(v.highlights) == log
    && v.newMatches == EligibleCount(k, c, profile, roles[..i])
    && v.submitted == |log| <= v.newMatches
  }

  /** The view after the role at the scan's position came to an outcome. */
  function Viewed(v: View, i: nat, o: Outcome): View {
    View(v.newMatches + 1,
         v.submitted + if o.Applied? then 1 else 0,
         v.highlights + if o.Applied? || o.Unverified? then [Highlight(i, o)] else [])
  }

  function Logged(log: seq<Application>, i: nat, o: Outcome): seq<Application> {
    log + if o.Applied? then [Application(i, o.summary)] else []
  }

  lemma ScanStarts(k: Casing, c: Candidate, profile: seq<Signal>, roles: seq<Role>)
    ensures Scanned(k, c, profile, roles, 0, View(0, 0, []), [])
  {
  }

  lemma CountOfNext(k: Casing, c: Candidate, profile: seq<Signal>, roles: seq<Role>, i: nat)
    requires i < |roles|
    ensures EligibleCount(k, c, profile, roles[..i + 1]) ==
              EligibleCount(k, c, profile, roles[..i]) + if Eligible(k, c, profile, roles[i]) then 1 else 0
  {
    assert roles[..i + 1][..i] == roles[..i];
  }

  lemma IncreasingExtends(positions: seq<nat>, p: nat)
    requires Increasing(positions, p)
    ensures Increasing(positions, p + 1) && Increasing(positions + [p], p + 1)
  {
  }

  lemma ScanSkips(
    k: Casing, c: Candidate, profile: seq<Signal>, roles: seq<Role>, i: nat, v: View, log: seq<Application>)
    requires i < |roles| && Scanned(k, c, profile, roles, i, v, log) && !Eligible(k, c, profile, roles[i])
    ensures Scanned(k, c, profile, roles, i + 1, v, log)
  {
    CountOfNext(k, c, profile, roles, i);
    IncreasingExtends(Positions(log), i);
    IncreasingExtends(Noted(v.highlights), i);
    hide Eligible, EligibleCount, Increasing, LogHonest, NotesExplained, AppliedOf;
  }

  lemma LogExtends(
    k: Casing, c: Candidate, profile: seq<Signal>, roles: seq<Role>, i: nat, log: seq<Application>, o: Outcome)
    requires i < |roles| && LogHonest(k, c, profile, roles, log) && Increasing(Positions(log), i)
    requires o.Applied? ==> Honest(k, c, profile, roles[i], o.summary)
    ensures LogHonest(k, c, profile, roles, Logged(log, i, o)) && Increasing(Positions(Logged(log, i, o)), i + 1)
  {
    IncreasingExtends(Positions(log), i);
    assert Positions(Logged(log, i, o)) == if o.Applied? then Positions(log) + [i] else Positions(log);
    hide Increasing, Honest, Positions;
  }

  lemma NotesExtend(k: Casing, c: Candidate, profile: seq<Signal>, roles: seq<Role>, i: nat, v: View, o: Outcome)
    requires i < |roles| && NotesExplained(k, c, profile, roles, v.highlights) && Increasing(Noted(v.highlights), i)
    requires o.Applied? || o.Unverified? ==> Explained(k, c, profile, roles[i], o)
    ensures NotesExplained(k, c, profile, roles, Viewed(v, i, o).highlights)
    ensures Increasing(Noted(Viewed(v, i, o).highlights), i + 1)
  {
    IncreasingExtends(Noted(v.highlights), i);
    var hs := Viewed(v, i, o).highlights;
    assert Noted(hs) == if o.Applied? || o.Unverified? then Noted(v.highlights) + [i] else Noted(v.highlights);
    hide Increasing, Explained, Noted;
  }

  lemma AppliedOfNext(v: View, i: nat, o: Outcome)
    ensures AppliedOf(Viewed(v, i, o).highlights) == Logged(AppliedOf(v.highlights), i, o)
  {
    var hs := Viewed(v, i, o).highlights;
    if o.Applied? || o.Unverified? {
      assert hs[..|hs| - 1] == v.highlights && hs[|hs| - 1] == Highlight(i, o);
    } else {
      assert hs == v.highlights;
    }
  }

  lemma ScanConsiders(
    k: Casing, c: Candidate, profile: seq<Signal>, roles: seq<Role>, i: nat, v: View, log: seq<Application>, o: Outcome)
    requires i < |roles| && Scanned(k, c, profile, roles, i, v, log) && Eligible(k, c, profile, roles[i])
    requires o.Applied? ==> Honest(k, c, profile, roles[i], o.summary)
    requires o.Applied? || o.Unverified? ==> Explained(k, c, profile, roles[i], o)
    ensures Scanned(k, c, profile, roles, i + 1, Viewed(v, i, o), Logged(log, i, o))
  {
    CountOfNext(k, c, profile, roles, i);
    LogExtends(k, c, profile, roles, i, log, o);
    NotesExtend(k, c, profile, roles, i, v, o);
    AppliedOfNext(v, i, o);
    hide Eligible, EligibleCount, Increasing, LogHonest, NotesExplained, AppliedOf, Honest, Explained, Positions, Noted;
  }

  // --------------------------------------------------------------- what a run must do

  /** The inputs of one scan. */
  datatype Scan = Scan(
    k: Casing, minFit: real, c: Candidate, profile: seq<Signal>, roles: seq<Role>, replies: seq<Reply>)
  {
    ghost predicate Valid() { Lowering(k.lower) && |replies| == |roles| }
  }

  /** The role at position i is eligible and comes to this outcome. */
  ghost predicate ComesTo(x: Scan, i: nat, o: Outcome)
    requires x.Valid() && i < |x.roles|
  {
    && Eligible(x.k, x.c, x.profile, x.roles[i])
    && x.replies[i].assessment.Ok?
    && Verdict(x.k.lower, x.minFit, x.profile, x.roles[i], x.replies[i].assessment.value) == o
  }

  /** Nothing the world answers about role i ends the scan. */
  ghost predicate Passes(x: Scan, i: nat)
    requires x.Valid() && i < |x.roles|
  {
    Eligible(x.k, x.c, x.profile, x.roles[i]) ==>
      && x.replies[i].assessment.Ok?
      && (x.replies[i].create.Ok?
         || !Verdict(x.k.lower, x.minFit, x.profile, x.roles[i], x.replies[i].assessment.value).Applied?)
  }

  /** Of the first n roles, exactly those that come to an application are applied to. */
  ghost predicate AppliesExactly(x: Scan, n: nat, log: seq<Application>)
    requires x.Valid() && n <= |x.roles|
  {
    forall a :: a in log <==> a.role < n && ComesTo(x, a.role, Applied(a.summary))
  }

  /** Of the first n roles, exactly those applied to or skipped over unverified skills are noted, as such. */
  ghost predicate NotesExactly(x: Scan, n: nat, hs: seq<Highlight>)
    requires x.Valid() && n <= |x.roles|
  {
    forall h :: h in hs <==>
      h.role < n && (h.outcome.Applied? || h.outcome.Unverified?) && ComesTo(x, h.role, h.outcome)
  }

  lemma ExactlyStarts(x: Scan)
    requires x.Valid()
    ensures AppliesExactly(x, 0, []) && NotesExactly(x, 0, [])
  {
  }

  lemma ExactlySkips(x: Scan, i: nat, log: seq<Application>, hs: seq<Highlight>)
    requires x.Valid() && i < |x.roles| && !Eligible(x.k, x.c, x.profile, x.roles[i])
    requires AppliesExactly(x, i, log) && NotesExactly(x, i, hs)
    ensures AppliesExactly(x, i + 1, log) && NotesExactly(x, i + 1, hs)
  {
    assert forall o :: !ComesTo(x, i, o);
    hide ComesTo, Eligible;
  }

  lemma ExactlyConsiders(x: Scan, i: nat, v: View, log: seq<Application>, o: Outcome)
    requires x.Valid() && i < |x.roles| && ComesTo(x, i, o)
    requires AppliesExactly(x, i, log) && NotesExactly(x, i, v.highlights)
    ensures AppliesExactly(x, i + 1, Logged(log, i, o)) && NotesExactly(x, i + 1, Viewed(v, i, o).highlights)
  {
    assert forall o' :: ComesTo(x, i, o') <==> o' == o;
    hide ComesTo;
    forall a
      ensures a in Logged(log, i, o) <==> a.role < i + 1 && ComesTo(x, a.role, Applied(a.summary))
    {
      assert a in Logged(log, i, o) <==> a in log || (o.Applied? && a == Application(i, o.summary));
    }
    forall h
      ensures h in Viewed(v, i, o).highlights <==>
                h.role < i + 1 && (h.outcome.Applied? || h.outcome.Unverified?) && ComesTo(x, h.role, h.outcome)
    {
      assert h in Viewed(v, i, o).highlights <==>
               h in v.highlights || ((o.Applied? || o.Unverified?) && h == Highlight(i, o));
    }
  }

  /** Where the scan stands: safe and complete for the roles so far. */
  ghost predicate Standing(x: Scan, i: nat, v: View, log: seq<Application>)
    requires x.Valid() && i <= |x.roles|
  {
    && Scanned(x.k, x.c, x.profile, x.roles, i, v, log)
    && AppliesExactly(x, i, log) && NotesExactly(x, i, v.highlights)
    && forall j :: 0 <= j < i ==> Passes(x, j)
  }

  lemma StandsAtStart(x: Scan)
    requires x.Valid()
    ensures Standing(x, 0, View(0, 0, []), [])
  {
    ScanStarts(x.k, x.c, x.profile, x.roles);
    ExactlyStarts(x);
  }

  lemma StandsAfterSkip(x: Scan, i: nat, v: View, log: seq<Application>)
    requires x.Valid() && i < |x.roles| && Standing(x, i, v, log) && !Eligible(x.k, x.c, x.profile, x.roles[i])
    ensures Standing(x, i + 1, v, log)
  {
    ScanSkips(x.k, x.c, x.profile, x.roles, i, v, log);
    ExactlySkips(x, i, log, v.highlights);
    assert Passes(x, i);
    hide Scanned, AppliesExactly, NotesExactly, Passes, Eligible, Scan.Valid;
  }

  lemma StandsAfterRole(x: Scan, i: nat, v: View, log: seq<Application>, o: Outcome)
    requires x.Valid() && i < |x.roles| && Standing(x, i, v, log) && ComesTo(x, i, o)
    requires o.Applied? ==> x.replies[i].create.Ok?
    ensures Standing(x, i + 1, Viewed(v, i, o), Logged(log, i, o))
  {
    VerdictIsHonest(x.k, x.minFit, x.c, x.profile, x.roles[i], x.replies[i].assessment.value);
    ScanConsiders(x.k, x.c, x.profile, x.roles, i, v, log, o);
    ExactlyConsiders(x, i, v, log, o);
    assert Passes(x, i);
    hide Scanned, AppliesExactly, NotesExactly, Passes, Eligible, Viewed, Logged;
  }

  /**
   One scan.  Applications already sent stay sent when a later role fails; the view is
   returned only when none did.  The roles before the one that fails are decided exactly.
   */
  method ScanRoles(x: Scan) returns (res: Result<View>, log: seq<Application>, scanned: nat)
    requires x.Valid()
    ensures LogHonest(x.k, x.c, x.profile, x.roles, log) && Increasing(Positions(log), |x.roles|)
    ensures scanned <= |x.roles| && AppliesExactly(x, scanned, log) && forall j :: 0 <= j < scanned ==> Passes(x, j)
    ensures res.Ok? <==> scanned == |x.roles|
    ensures res.Err? ==>
              && !Passes(x, scanned)
              && var q := x.replies[scanned];
                 if q.assessment.Err? then res.error == q.assessment.error else q.create == Err(res.error)
    ensures res.Ok? ==>
              && Scanned(x.k, x.c, x.profile, x.roles, |x.roles|, res.value, log)
              && NotesExactly(x, |x.roles|, res.value.highlights)
  {
    hide Standing, Eligible, LogHonest, Increasing, ComesTo, Passes, Verdict, Scanned, AppliesExactly, NotesExactly,
         Lowering;
    log := [];
    var view := View(0, 0, []);
    StandsAtStart(x);
    for i := 0 to |x.roles|
      invariant Standing(x, i, view, log)
    {
      var eligible := CheckEligible(x.k, x.c, x.profile, x.roles[i]);
      if !eligible {
        StandsAfterSkip(x, i, view, log);
        continue;
      }
      var considered := Consider(x.k.lower, x.minFit, x.profile, x.roles[i], x.replies[i]);
      if considered.Err? {
        StandingMeans(x, i, view, log);
        FailsAt(x, i);
        return Err(considered.error), log, i;
      }
      ConsideredComesTo(x, i);
      StandsAfterRole(x, i, view, log, considered.value);
      view, log := Viewed(view, i, considered.value), Logged(log, i, considered.value);
    }
    StandingMeans(x, |x.roles|, view, log);
    return Ok(view), log, |x.roles|;
  }

  lemma FailsAt(x: Scan, i: nat)
    requires x.Valid() && i < |x.roles| && Eligible(x.k, x.c, x.profile, x.roles[i])
    requires x.replies[i].assessment.Err?
             || (x.replies[i].create.Err?
                 && Verdict(x.k.lower, x.minFit, x.profile, x.roles[i], x.replies[i].assessment.value).Applied?)
    ensures !Passes(x, i)
  {
    hide Eligible, Verdict;
  }

  lemma ConsideredComesTo(x: Scan, i: nat)
    requires x.Valid() && i < |x.roles| && Eligible(x.k, x.c, x.profile, x.roles[i]) && x.replies[i].assessment.Ok?
    ensures ComesTo(x, i, Verdict(x.k.lower, x.minFit, x.profile, x.roles[i], x.replies[i].assessment.value))
  {
    hide Eligible, Verdict;
  }

  lemma StandingMeans(x: Scan, i: nat, v: View, log: seq<Application>)
    requires x.Valid() && i <= |x.roles| && Standing(x, i, v, log)
    ensures LogHonest(x.k, x.c, x.profile, x.roles, log) && Increasing(Positions(log), |x.roles|)
    ensures AppliesExactly(x, i, log) && NotesExactly(x, i, v.highlights) && forall j :: 0 <= j < i ==> Passes(x, j)
    ensures Scanned(x.k, x.c, x.profile, x.roles, i, v, log)
  {
    hide LogHonest, AppliedOf, NotesExplained, Positions, Noted, EligibleCount, AppliesExactly, NotesExactly, Passes;
  }

  /** What it takes to apply, and what the application says. */
  lemma AppliedMeans(x: Scan, i: nat, summary: string)
    requires x.Valid() && i < |x.roles| && ComesTo(x, i, Applied(summary))
    ensures var a := x.replies[i].assessment.value; a.apply && a.fitScore >= x.minFit && a.summary == summary
  {
  }
}

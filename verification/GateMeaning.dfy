/** What makes a role eligible, a skill unverified and an application due, in terms of texts and numbers. */
module GateMeaning {
  import opened Prelude
  import opened Text
  import opened Tokens
  import opened Fit
  import opened FitMeaning
  import opened RoleGates
  import opened AgentScan
  import FitProofs
  import Grounding

  // ------------------------------------------------------------------- eligibility

  /** A must-have with a name is answered by a signal, and the first such signal is at level two or above. */
  ghost predicate Shown(lower: char -> char, c: seq<Signal>, rs: Competency) {
    rs.mustHave && !Blank(rs.name) ==> exists k: nat :: FirstAnswer(lower, c, rs.name, k) && c[k].level >= 2.0
  }

  lemma ShownIff(lower: char -> char, c: seq<Signal>, rs: Competency)
    ensures FitProofs.Evidenced(lower, c, rs) <==> Shown(lower, c, rs)
  {
    var level := CandidateLevel(lower, c, Normal(lower, rs.name));
    LevelFound(lower, c, rs.name);
    BlankHasNoKey(lower, rs.name);
    hide Normal, CandidateLevel, Answers, Blank;
    forall j: nat, k: nat | FirstAnswer(lower, c, rs.name, j) && FirstAnswer(lower, c, rs.name, k) ensures j == k {
    }
  }

  /** The places are both named, the role's names no remote work, and they share no word. */
  predicate PlacesClash(lower: char -> char, wanted: string, location: string) {
    && !RemoteAllowed(lower, wanted)
    && TokensOf(lower, wanted) != [] && TokensOf(lower, location) != []
    && forall t :: t in TokensOf(lower, wanted) ==> t !in TokensOf(lower, location)
  }

  /** The candidate asks for more than the role pays, in the same currency. */
  predicate AsksTooMuch(fold: char -> char, r: Role, c: Candidate) {
    && r.ceiling > 0.0 && c.salaryFloor > r.ceiling
    && !Blank(r.currency) && !Blank(c.currency)
    && Lower(fold, TrimSpace(r.currency)) == Lower(fold, TrimSpace(c.currency))
  }

  /** Some deal-breaker's words stand next to each other in the role's text. */
  ghost predicate Breaks(lower: char -> char, dealBreakers: seq<string>, text: string) {
    exists db, before, after :: db in dealBreakers && TokensOf(lower, db) != []
      && TokensOf(lower, text) == before + TokensOf(lower, db) + after
  }

  lemma BreaksIff(lower: char -> char, dealBreakers: seq<string>, text: string)
    ensures DealBroken(lower, dealBreakers, text) <==> Breaks(lower, dealBreakers, text)
  {
    hide TokensOf, Occurs;
    forall db ensures Occurs(TokensOf(lower, text), TokensOf(lower, db)) <==>
                        TokensOf(lower, db) != []
                        && exists before, after :: TokensOf(lower, text) == before + TokensOf(lower, db) + after
    {
      OccursIff(TokensOf(lower, text), TokensOf(lower, db));
    }
  }

  /** A role is eligible when place, pay and deal-breakers do not stand against it and the must-haves are shown. */
  lemma EligibleIff(k: Casing, c: Candidate, profile: seq<Signal>, r: Role)
    ensures Eligible(k, c, profile, r) <==>
              && !PlacesClash(k.lower, r.location, c.location)
              && !AsksTooMuch(k.fold, r, c)
              && !Breaks(k.lower, c.dealBreakers, RoleText(r))
              && forall i :: 0 <= i < |r.rubric| ==> Shown(k.lower, profile, r.rubric[i])
  {
    LocationConflictIs(k.lower, r.location, c.location);
    BreaksIff(k.lower, c.dealBreakers, RoleText(r));
    forall i | 0 <= i < |r.rubric|
      ensures FitProofs.Evidenced(k.lower, profile, r.rubric[i]) <==> Shown(k.lower, profile, r.rubric[i])
    {
      ShownIff(k.lower, profile, r.rubric[i]);
    }
    hide LocationConflict, DealBroken, Breaks, FitProofs.Evidenced, Shown, RoleText, TokensOf, RemoteAllowed, Blank;
  }

  // --------------------------------------------------------------------- grounding

  /** The names that are taken for one another. */
  lemma AliasesAre(t: string)
    ensures Grounding.Canon(t) ==
              if t == "k8s" then "kubernetes" else if t == "golang" then "go"
              else if t == "postgres" || t == "psql" then "postgresql"
              else if t == "js" then "javascript" else if t == "ts" then "typescript"
              else if t == "py" then "python" else if t == "nodejs" then "node.js"
              else if t == "reactjs" then "react" else t
  {
  }

  /** The summary names the competency, word for word up to aliases. */
  ghost predicate Names(lower: char -> char, summary: string, name: string) {
    var want := Grounding.CanonTokens(TokensOf(lower, name));
    want != [] && exists before, after :: Grounding.CanonTokens(TokensOf(lower, summary)) == before + want + after
  }

  /** Some competency of the profile is the named one, or has its name as a word, up to aliases. */
  ghost predicate OnProfile(lower: char -> char, profile: seq<string>, name: string) {
    var key := Grounding.Canon(Lower(lower, TrimSpace(name)));
    exists p :: p in profile && (Grounding.Canon(Lower(lower, TrimSpace(p))) == key
                                 || key in Grounding.CanonTokens(TokensOf(lower, p)))
  }

  lemma FabricatedMeans(lower: char -> char, summary: string, profile: seq<string>, name: string)
    ensures Grounding.IsFabricated(lower, summary, profile, name) <==>
              !Blank(name) && !OnProfile(lower, profile, name) && Names(lower, summary, name)
  {
    BlankHasNoKey(lower, name);
    OccursIff(Grounding.CanonTokens(TokensOf(lower, summary)), Grounding.CanonTokens(TokensOf(lower, name)));
    hide Blank, TokensOf, Occurs, Grounding.Canon, Grounding.CanonTokens, TrimSpace;
  }

  // ------------------------------------------------------------------ applications

  /** The assessment recommends applying, at a fit that is high enough. */
  predicate Recommended(x: Scan, i: nat)
    requires i < |x.replies|
  {
    var q := x.replies[i].assessment;
    q.Ok? && q.value.apply && q.value.fitScore >= x.minFit
  }

  /** The summary names a skill of the role that the profile does not have. */
  ghost predicate Overclaims(x: Scan, i: nat, name: string)
    requires x.Valid() && i < |x.roles| && x.replies[i].assessment.Ok?
  {
    && (exists j :: 0 <= j < |x.roles[i].rubric| && x.roles[i].rubric[j].name == name)
    && Grounding.IsFabricated(x.k.lower, x.replies[i].assessment.value.summary, AgentScan.Names(x.profile), name)
  }

  lemma OverclaimsIff(x: Scan, i: nat)
    requires x.Valid() && i < |x.roles| && x.replies[i].assessment.Ok?
    ensures forall name ::
              name in Grounding.Fabricated(x.k.lower, x.replies[i].assessment.value.summary, AgentScan.Names(x.profile),
                                           RubricNames(x.roles[i].rubric))
              <==> Overclaims(x, i, name)
  {
    var names := RubricNames(x.roles[i].rubric);
    forall name
      ensures name in names <==> exists j :: 0 <= j < |x.roles[i].rubric| && x.roles[i].rubric[j].name == name
    {
      assert forall j :: 0 <= j < |names| ==> names[j] == x.roles[i].rubric[j].name;
      if j :| 0 <= j < |x.roles[i].rubric| && x.roles[i].rubric[j].name == name {
        assert names[j] == name;
      }
    }
    forall name {
      Grounding.FabricatedIff(
        x.k.lower, x.replies[i].assessment.value.summary, AgentScan.Names(x.profile), names, name);
    }
    hide RubricNames, Grounding.IsFabricated, Grounding.Fabricated, Scan.Valid;
  }

  /** A role is applied to exactly when it is eligible and recommended and its nonblank summary overclaims nothing. */
  lemma AppliesIff(x: Scan, i: nat, summary: string)
    requires x.Valid() && i < |x.roles|
    ensures ComesTo(x, i, Applied(summary)) <==>
              && Eligible(x.k, x.c, x.profile, x.roles[i]) && Recommended(x, i)
              && x.replies[i].assessment.value.summary == summary && !Blank(summary)
              && forall name :: !Overclaims(x, i, name)
  {
    if x.replies[i].assessment.Ok? {
      OverclaimsIff(x, i);
      EmptyIff(Grounding.Fabricated(x.k.lower, x.replies[i].assessment.value.summary, AgentScan.Names(x.profile),
                                    RubricNames(x.roles[i].rubric)));
    }
    hide Eligible, Overclaims, Grounding.Fabricated, RubricNames, AgentScan.Names, Blank, Scan.Valid;
  }

  lemma EmptyIff(s: seq<string>)
    ensures s == [] <==> forall x :: x !in s
  {
    if s != [] {
      assert s[0] in s;
    }
  }

  /** A role is skipped over skills exactly when it is eligible and recommended and the summary overclaims those. */
  lemma UnverifiedIff(x: Scan, i: nat)
    requires x.Valid() && i < |x.roles|
    ensures (exists skills :: ComesTo(x, i, Unverified(skills))) <==>
              && Eligible(x.k, x.c, x.profile, x.roles[i]) && Recommended(x, i)
              && exists name :: Overclaims(x, i, name)
    ensures forall skills | ComesTo(x, i, Unverified(skills)) ::
              forall name :: name in skills <==> Overclaims(x, i, name)
  {
    if x.replies[i].assessment.Ok? {
      OverclaimsIff(x, i);
      var f := Grounding.Fabricated(x.k.lower, x.replies[i].assessment.value.summary, AgentScan.Names(x.profile),
                                    RubricNames(x.roles[i].rubric));
      EmptyIff(f);
      hide Eligible, Overclaims, Grounding.Fabricated, RubricNames, AgentScan.Names, Blank, Scan.Valid;
      assert Eligible(x.k, x.c, x.profile, x.roles[i]) && Recommended(x, i) && f != [] ==>
               ComesTo(x, i, Unverified(f));
    }
  }
}

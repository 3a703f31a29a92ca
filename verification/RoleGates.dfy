/**
 The gates a role must pass before it is shown to, or applied to for, a candidate
 (internal/domain/matching/filter.go, internal/domain/matching/bias.go), and the two callers
 that must agree about them: the candidate agent and the two-way matcher
 (internal/app/candidateagent/runner.go, internal/app/matching/twoway.go).
 */
module RoleGates {
  import opened Prelude
  import opened Text
  import opened Tokens
  import opened Fit
  import FitProofs

  /** How the source compares text: lower-casing for names, simple folding for currencies. */
  datatype Casing = Casing(lower: char -> char, fold: char -> char)

  datatype Role = Role(
    location: string, ceiling: real, currency: string,
    title: string, availability: string, responsibilities: seq<string>,
    rubric: Rubric)

  datatype Candidate = Candidate(location: string, salaryFloor: real, currency: string, dealBreakers: seq<string>)

  datatype Gate = GateLocation | GateSalaryFloor

  // ------------------------------------------------------------------- logistics

  const REMOTE: string := "remote"

  const PROTECTED: set<string> :=
    {"gender", "age", "ethnicity", "religion", "nationality", "marital_status", "disability"}

  function DashToSpace(s: string): (r: string)
    ensures |r| == |s| && forall i :: 0 <= i < |s| ==> r[i] == if s[i] == '-' then ' ' else s[i]
  {
    seq(|s|, i requires 0 <= i < |s| => if s[i] == '-' then ' ' else s[i])
  }

  predicate RemoteAllowed(lower: char -> char, location: string) {
    REMOTE in Tokenize(DashToSpace(Lower(lower, location)))
  }

  predicate Share(want: seq<string>, got: seq<string>) {
    exists t :: t in want && t in got
  }

  /** Both locations are known, the role is not remote, and they have no token in common. */
  predicate LocationConflict(lower: char -> char, wanted: string, location: string) {
    && !RemoteAllowed(lower, wanted)
    && TokensOf(lower, wanted) != [] && TokensOf(lower, location) != []
    && !Share(TokensOf(lower, wanted), TokensOf(lower, location))
  }

  predicate SameCurrency(fold: char -> char, a: string, b: string) {
    !Blank(a) && !Blank(b) && Lower(fold, TrimSpace(a)) == Lower(fold, TrimSpace(b))
  }

  predicate SalaryConflict(fold: char -> char, r: Role, c: Candidate) {
    0.0 < r.ceiling < c.salaryFloor && SameCurrency(fold, r.currency, c.currency)
  }

  lemma LocationConflictIs(lower: char -> char, wanted: string, location: string)
    ensures LocationConflict(lower, wanted, location) <==>
              && !RemoteAllowed(lower, wanted)
              && TokensOf(lower, wanted) != [] && TokensOf(lower, location) != []
              && forall t :: t in TokensOf(lower, wanted) ==> t !in TokensOf(lower, location)
  {
    hide TokensOf, RemoteAllowed;
  }

  method TokenSet(lower: char -> char, s: string) returns (out: set<string>)
    ensures forall t :: t in out <==> t in TokensOf(lower, s)
  {
    var toks := TokensOf(lower, s);
    out := {};
    for i := 0 to |toks|
      invariant forall t :: t in out <==> t in toks[..i]
    {
      out := out + {toks[i]};
    }
    assert toks[..|toks|] == toks;
  }

  method LocationMismatch(lower: char -> char, wanted: string, location: string) returns (mismatch: bool)
    ensures mismatch <==> LocationConflict(lower, wanted, location)
  {
    hide Tokenize, TokensOf;
    if RemoteAllowed(lower, wanted) {
      return false;
    }
    var want := TokenSet(lower, wanted);
    var got := TokenSet(lower, location);
    ghost var wantTokens, gotTokens := TokensOf(lower, wanted), TokensOf(lower, location);
    assert wantTokens != [] ==> wantTokens[0] in want;
    assert gotTokens != [] ==> gotTokens[0] in got;
    if |want| == 0 || |got| == 0 {
      return false;
    }
    assert wantTokens != [] && gotTokens != [] by {
      var w :| w in want;
      var g :| g in got;
    }
    var rest := want;
    while rest != {}
      invariant rest <= want
      invariant forall t :: t in want && t !in rest ==> t !in got
      decreases |rest|
    {
      var w :| w in rest;
      if w in got {
        return false;
      }
      rest := rest - {w};
    }
    return true;
  }

  method ScreenLogistics(k: Casing, r: Role, c: Candidate) returns (ex: seq<Gate>)
    ensures ex == (if LocationConflict(k.lower, r.location, c.location) then [GateLocation] else [])
                  + (if SalaryConflict(k.fold, r, c) then [GateSalaryFloor] else [])
    ensures GateSalaryFloor in ex <==>
              && r.ceiling > 0.0 && c.salaryFloor > 0.0 && c.salaryFloor > r.ceiling
              && TrimSpace(r.currency) != "" && TrimSpace(c.currency) != ""
              && Lower(k.fold, TrimSpace(r.currency)) == Lower(k.fold, TrimSpace(c.currency))
    ensures GateLocation in ex <==>
              && !RemoteAllowed(k.lower, r.location)
              && TokensOf(k.lower, r.location) != [] && TokensOf(k.lower, c.location) != []
              && forall t :: t in TokensOf(k.lower, r.location) ==> t !in TokensOf(k.lower, c.location)
  {
    LocationConflictIs(k.lower, r.location, c.location);
    ex := [];
    var mismatch := LocationMismatch(k.lower, r.location, c.location);
    if mismatch {
      ex := ex + [GateLocation];
    }
    TrimSpaceEmpty(r.currency);
    TrimSpaceEmpty(c.currency);
    hide LocationConflict, Blank, TrimSpace;
    var roleCur, candCur := TrimSpace(r.currency), TrimSpace(c.currency);
    var exceeds;
    if r.ceiling <= 0.0 || c.salaryFloor <= 0.0 {
      exceeds := false;
    } else if roleCur == "" || candCur == "" || Lower(k.fold, roleCur) != Lower(k.fold, candCur) {
      exceeds := false;
    } else {
      exceeds := c.salaryFloor > r.ceiling;
    }
    if exceeds {
      ex := ex + [GateSalaryFloor];
    }
  }

  /** A role with several locations is remote as soon as one of them is. */
  lemma RemoteIfAnyPartIs(lower: char -> char, a: string, c: char, b: string)
    requires Lowering(lower) && Separator(c)
    ensures RemoteAllowed(lower, a + [c] + b) <==> RemoteAllowed(lower, a) || RemoteAllowed(lower, b)
  {
    LowerOfConcat(lower, a + [c], b);
    LowerOfConcat(lower, a, [c]);
    var la, lb := Lower(lower, a), Lower(lower, b);
    assert DashToSpace(Lower(lower, a + [c] + b)) == DashToSpace(la) + [lower(c)] + DashToSpace(lb);
    TokensOfJoin(DashToSpace(la), lower(c), DashToSpace(lb));
  }

  lemma DashesSplit(a: string, b: string)
    ensures DashToSpace(a + "-" + b) == DashToSpace(a) + [' '] + DashToSpace(b)
  {
  }

  /** A single word allows remote work when it is "remote" in some letter case; a dash parts words. */
  lemma RemoteWord(lower: char -> char, w: string, a: string, b: string)
    requires Lowering(lower)
    ensures Word(w) && '-' !in Lower(lower, w) ==> (RemoteAllowed(lower, w) <==> Lower(lower, w) == "remote")
    ensures lower('-') == '-' ==>
              (RemoteAllowed(lower, a + "-" + b) <==> RemoteAllowed(lower, a) || RemoteAllowed(lower, b))
  {
    var l := Lower(lower, w);
    if Word(w) && '-' !in l {
      assert forall i :: 0 <= i < |l| ==> l[i] in l;
      assert DashToSpace(l) == l;
      TokensOfWord(l);
      assert RemoteAllowed(lower, w) <==> "remote" in [l];
    }
    if lower('-') == '-' {
      var la, lb := Lower(lower, a), Lower(lower, b);
      LowerOfConcat(lower, a + "-", b);
      LowerOfConcat(lower, a, "-");
      assert Lower(lower, "-") == "-";
      DashesSplit(la, lb);
      TokensOfJoin(DashToSpace(la), ' ', DashToSpace(lb));
    }
    hide Tokenize;
  }

  /** Naming a further place to work never turns a compatible candidate away. */
  lemma MorePlacesNeverConflict(lower: char -> char, wanted: string, a: string, c: char, b: string)
    requires Lowering(lower) && Separator(c) && TokensOf(lower, a) != []
    ensures LocationConflict(lower, wanted, a + [c] + b) <==>
              && LocationConflict(lower, wanted, a)
              && (TokensOf(lower, b) == [] || LocationConflict(lower, wanted, b))
  {
    TokensOfConcat(lower, a, c, b);
    hide Tokenize, TokensOf, Lowering, RemoteAllowed;
  }

  // ---------------------------------------------------------------- deal-breakers

  function JoinSpaced(parts: seq<string>): string {
    if parts == [] then "" else if |parts| == 1 then parts[0] else parts[0] + " " + JoinSpaced(parts[1..])
  }

  function RoleText(r: Role): string {
    r.title + " " + r.availability + " " + JoinSpaced(r.responsibilities)
  }

  function Parts(r: Role): seq<string> { [r.title, r.availability] + r.responsibilities }

  /** Some deal-breaker occurs as a whole-token phrase of the text. */
  ghost predicate DealBroken(lower: char -> char, dealBreakers: seq<string>, text: string) {
    exists db :: db in dealBreakers && Occurs(TokensOf(lower, text), TokensOf(lower, db))
  }

  method ViolatesDealBreaker(lower: char -> char, dealBreakers: seq<string>, text: string) returns (broken: bool)
    requires Lowering(lower)
    ensures broken <==> DealBroken(lower, dealBreakers, text)
  {
    hide Occurs, Lowering;
    var haystack := TokensOf(lower, text);
    for i := 0 to |dealBreakers|
      invariant forall j :: 0 <= j < i ==> !Occurs(haystack, TokensOf(lower, dealBreakers[j]))
    {
      NormalTokens(lower, dealBreakers[i]);
      var found := HasPhrase(haystack, Tokenize(Normal(lower, dealBreakers[i])));
      if found {
        assert dealBreakers[i] in dealBreakers;
        return true;
      }
    }
    return false;
  }

  function TokensOfAll(lower: char -> char, parts: seq<string>): seq<string> {
    if parts == [] then [] else TokensOf(lower, parts[0]) + TokensOfAll(lower, parts[1..])
  }

  lemma {:induction false} TokensOfSpaced(lower: char -> char, parts: seq<string>)
    requires Lowering(lower)
    ensures TokensOf(lower, JoinSpaced(parts)) == TokensOfAll(lower, parts)
  {
    if |parts| == 1 {
      assert TokensOfAll(lower, parts[1..]) == [];
    } else if parts != [] {
      TokensOfSpaced(lower, parts[1..]);
      TokensOfConcat(lower, parts[0], ' ', JoinSpaced(parts[1..]));
    }
  }

  /** The text a deal-breaker is looked for in has exactly the tokens of the role's fields, in order. */
  lemma RoleTextTokens(lower: char -> char, r: Role)
    requires Lowering(lower)
    ensures TokensOf(lower, RoleText(r)) == TokensOfAll(lower, Parts(r))
  {
    var tail := JoinSpaced(r.responsibilities);
    TokensOfSpaced(lower, r.responsibilities);
    TokensOfConcat(lower, r.title, ' ', r.availability + " " + tail);
    TokensOfConcat(lower, r.availability, ' ', tail);
    assert r.title + " " + (r.availability + " " + tail) == RoleText(r);
    assert Parts(r)[1..] == [r.availability] + r.responsibilities;
    assert Parts(r)[1..][1..] == r.responsibilities;
    hide TokensOf;
  }

  lemma OccursInLarger(before: seq<string>, within: seq<string>, after: seq<string>, phrase: seq<string>)
    requires Occurs(within, phrase)
    ensures Occurs(before + within + after, phrase)
  {
    var i :| OccursAt(within, phrase, i);
    assert (before + within + after)[|before| + i..|before| + i + |phrase|] == within[i..i + |phrase|];
    assert OccursAt(before + within + after, phrase, |before| + i);
  }

  lemma {:induction false} OccursInAll(lower: char -> char, parts: seq<string>, k: nat, phrase: seq<string>)
    requires k < |parts| && Occurs(TokensOf(lower, parts[k]), phrase)
    ensures Occurs(TokensOfAll(lower, parts), phrase)
  {
    var head, rest := TokensOf(lower, parts[0]), TokensOfAll(lower, parts[1..]);
    if k == 0 {
      OccursInLarger([], head, rest, phrase);
      assert [] + head + rest == head + rest;
    } else {
      OccursInAll(lower, parts[1..], k - 1, phrase);
      OccursInLarger(head, rest, [], phrase);
      assert head + rest + [] == head + rest;
    }
  }

  lemma {:induction false} WordInAll(lower: char -> char, parts: seq<string>, w: string)
    ensures w in TokensOfAll(lower, parts) <==> exists k :: 0 <= k < |parts| && w in TokensOf(lower, parts[k])
  {
    if parts == [] {
    } else {
      WordInAll(lower, parts[1..], w);
      var rest := parts[1..];
      assert forall k :: 1 <= k < |parts| ==> parts[k] == rest[k - 1];
      hide TokensOf;
    }
  }

  lemma OccursWord(tokens: seq<string>, w: string)
    ensures Occurs(tokens, [w]) <==> w in tokens
  {
    if w in tokens {
      var i :| 0 <= i < |tokens| && tokens[i] == w;
      assert OccursAt(tokens, [w], i);
    }
    if Occurs(tokens, [w]) {
      var i :| OccursAt(tokens, [w], i);
      assert tokens[i..i + 1][0] == w;
    }
  }

  /**
   A deal-breaker found in any field of the role excludes it, whatever its case and padding;
   a one-word deal-breaker excludes it only then.
   */
  lemma DealBreakerFound(lower: char -> char, dealBreakers: seq<string>, r: Role, db: string, k: nat)
    requires Lowering(lower) && db in dealBreakers && k < |Parts(r)|
    ensures Occurs(TokensOf(lower, Parts(r)[k]), TokensOf(lower, db)) ==> DealBroken(lower, dealBreakers, RoleText(r))
    ensures |TokensOf(lower, db)| == 1 ==>
              (DealBroken(lower, [db], RoleText(r))
               <==> exists j :: 0 <= j < |Parts(r)| && TokensOf(lower, db)[0] in TokensOf(lower, Parts(r)[j]))
  {
    RoleTextTokens(lower, r);
    var phrase := TokensOf(lower, db);
    if Occurs(TokensOf(lower, Parts(r)[k]), phrase) {
      OccursInAll(lower, Parts(r), k, phrase);
    }
    if |phrase| == 1 {
      assert phrase == [phrase[0]];
      WordInAll(lower, Parts(r), phrase[0]);
      OccursWord(TokensOf(lower, RoleText(r)), phrase[0]);
      assert db in [db];
    }
    hide Occurs, TokensOf, TokensOfAll, RoleText, Parts, Lowering;
  }

  // --------------------------------------------------------------------- verdicts

  predicate BiasSafe(lower: char -> char, rubric: Rubric) {
    forall i :: 0 <= i < |rubric| ==> Normal(lower, rubric[i].name) !in PROTECTED
  }

  /** No logistical conflict, no deal-breaker in the role, every must-have evidenced at the minimum. */
  ghost predicate Eligible(k: Casing, c: Candidate, profile: seq<Signal>, r: Role) {
    && !LocationConflict(k.lower, r.location, c.location)
    && !SalaryConflict(k.fold, r, c)
    && !DealBroken(k.lower, c.dealBreakers, RoleText(r))
    && forall i :: 0 <= i < |r.rubric| ==> FitProofs.Evidenced(k.lower, profile, r.rubric[i])
  }

  method EnsureBiasSafe(lower: char -> char, rubric: Rubric) returns (safe: bool)
    ensures safe <==> BiasSafe(lower, rubric)
    ensures safe <==> forall i :: 0 <= i < |rubric| ==>
                        Normal(lower, rubric[i].name) !in
                          {"gender", "age", "ethnicity", "religion", "nationality", "marital_status", "disability"}
  {
    hide Normal;
    for i := 0 to |rubric|
      invariant forall j :: 0 <= j < i ==> Normal(lower, rubric[j].name) !in PROTECTED
    {
      if Normal(lower, rubric[i].name) in PROTECTED {
        return false;
      }
    }
    return true;
  }

  /** The candidate agent's gate. */
  method CheckEligible(k: Casing, c: Candidate, profile: seq<Signal>, r: Role) returns (eligible: bool)
    requires Lowering(k.lower)
    ensures eligible <==> Eligible(k, c, profile, r)
  {
    hide LocationConflict, SalaryConflict, DealBroken, RoleText, FitProofs.Evidenced, Lowering;
    var ex := ScreenLogistics(k, r, c);
    if |ex| > 0 {
      return false;
    }
    var broken := ViolatesDealBreaker(k.lower, c.dealBreakers, RoleText(r));
    if broken {
      return false;
    }
    var fit := ComputeFit(k.lower, r.rubric, profile);
    FitProofs.MustHavesMetIff(k.lower, r.rubric, profile);
    return fit.mustHavesMet;
  }

  /** The two-way matcher's gate: it surfaces exactly the bias-safe roles the agent would apply to. */
  method EvaluateRoleFit(k: Casing, c: Candidate, signals: seq<Signal>, r: Role) returns (found: Option<Fit>)
    requires Lowering(k.lower)
    ensures found.Some? <==> Eligible(k, c, signals, r) && BiasSafe(k.lower, r.rubric)
    ensures found.Some? ==> found.value == FitOf(k.lower, r.rubric, signals) && found.value.mustHavesMet
  {
    hide LocationConflict, SalaryConflict, DealBroken, RoleText, FitProofs.Evidenced, BiasSafe, Lowering;
    var ex := ScreenLogistics(k, r, c);
    if |ex| > 0 {
      return None;
    }
    var broken := ViolatesDealBreaker(k.lower, c.dealBreakers, RoleText(r));
    if broken {
      return None;
    }
    var safe := EnsureBiasSafe(k.lower, r.rubric);
    if !safe {
      return None;
    }
    var fit := ComputeFit(k.lower, r.rubric, signals);
    FitProofs.MustHavesMetIff(k.lower, r.rubric, signals);
    return if fit.mustHavesMet then Some(fit) else None;
  }
}

/**
 The no-fabrication check on an agent's summary, and how it agrees with the must-have
 gate (internal/domain/candidateagent/grounding.go).
 */
module Grounding {
  import opened Text
  import opened Tokens
  import opened Fit

  const SKILL_CANON: map<string, string> := map[
    "k8s" := "kubernetes",
    "golang" := "go",
    "postgres" := "postgresql",
    "psql" := "postgresql",
    "js" := "javascript",
    "ts" := "typescript",
    "py" := "python",
    "nodejs" := "node.js",
    "reactjs" := "react"]

  function Canon(token: string): string {
    if token in SKILL_CANON then SKILL_CANON[token] else token
  }

  function CanonTokens(tokens: seq<string>): seq<string> {
    seq(|tokens|, i requires 0 <= i < |tokens| => Canon(tokens[i]))
  }

  /** One profile competency covers the key, up to skill aliases. */
  predicate CoversOne(lower: char -> char, name: string, key: string) {
    Canon(Normal(lower, name)) == Canon(key) || Canon(key) in CanonTokens(TokensOf(lower, name))
  }

  ghost predicate CoversCompetency(lower: char -> char, profile: seq<string>, key: string) {
    exists name :: name in profile && CoversOne(lower, name, key)
  }

  /** The must-have gate finds the key on the profile. */
  ghost predicate GateFinds(lower: char -> char, profile: seq<string>, key: string) {
    exists name :: name in profile && Carries(lower, name, key)
  }

  /** The summary names the competency and the profile does not cover it. */
  ghost predicate IsFabricated(lower: char -> char, summary: string, profile: seq<string>, rc: string) {
    var key := Normal(lower, rc);
    && key != "" && !CoversCompetency(lower, profile, key)
    && Occurs(CanonTokens(TokensOf(lower, summary)), CanonTokens(TokensOf(lower, rc)))
  }

  ghost function Fabricated(
    lower: char -> char, summary: string, profile: seq<string>, role: seq<string>): seq<string> {
    if role == [] then []
    else
      var rc := role[|role| - 1];
      Fabricated(lower, summary, profile, role[..|role| - 1])
      + if IsFabricated(lower, summary, profile, rc) then [rc] else []
  }

  method CanonAll(tokens: seq<string>) returns (out: seq<string>)
    ensures out == CanonTokens(tokens)
  {
    out := [];
    for i := 0 to |tokens|
      invariant out == CanonTokens(tokens)[..i]
    {
      out := out + [Canon(tokens[i])];
    }
  }

  method CoversCompetencyCheck(lower: char -> char, profile: seq<string>, key: string) returns (covered: bool)
    ensures covered <==> CoversCompetency(lower, profile, key)
  {
    hide CoversOne, TokensOf, Normal, Canon, CanonTokens;
    var want := Canon(key);
    for i := 0 to |profile|
      invariant forall j :: 0 <= j < i ==> !CoversOne(lower, profile[j], key)
    {
      var tokens := CanonAll(TokensOf(lower, profile[i]));
      CoversOneUnfolds(lower, profile[i], key);
      if Canon(Normal(lower, profile[i])) == want || want in tokens {
        assert profile[i] in profile;
        return true;
      }
    }
    return false;
  }

  lemma CoversOneUnfolds(lower: char -> char, name: string, key: string)
    ensures CoversOne(lower, name, key) <==>
              Canon(Normal(lower, name)) == Canon(key) || Canon(key) in CanonTokens(TokensOf(lower, name))
  {
  }

  /** The summary's mention of a competency: the same search as the kernel's phrase search. */
  method Mentions(have: seq<string>, want: seq<string>) returns (found: bool)
    ensures found <==> Occurs(have, want)
  {
    if |want| == 0 {
      return false;
    }
    var start := 0;
    while start + |want| <= |have|
      invariant 0 <= start
      invariant forall i :: 0 <= i < start ==> !OccursAt(have, want, i)
    {
      var j := 0;
      while j < |want| && have[start + j] == want[j]
        invariant 0 <= j <= |want|
        invariant forall k :: 0 <= k < j ==> have[start + k] == want[k]
      {
        j := j + 1;
      }
      if j == |want| {
        assert OccursAt(have, want, start);
        return true;
      }
      assert have[start..start + |want|][j] != want[j];
      start := start + 1;
    }
    return false;
  }

  method CheckGrounding(lower: char -> char, summary: string, profile: seq<string>, role: seq<string>)
    returns (grounded: bool, fabricated: seq<string>)
    ensures fabricated == Fabricated(lower, summary, profile, role)
    ensures grounded <==> fabricated == []
  {
    var summaryTokens := CanonAll(TokensOf(lower, summary));
    fabricated := [];
    for i := 0 to |role|
      invariant fabricated == Fabricated(lower, summary, profile, role[..i])
    {
      assert role[..i + 1][..i] == role[..i];
      var rc := role[i];
      var key := Normal(lower, rc);
      var covered := CoversCompetencyCheck(lower, profile, key);
      if key == "" || covered {
        continue;
      }
      var want := CanonAll(TokensOf(lower, rc));
      var mentioned := Mentions(summaryTokens, want);
      if mentioned {
        fabricated := fabricated + [rc];
      }
    }
    assert role[..|role|] == role;
    grounded := |fabricated| == 0;
  }

  // ------------------------------------------------------------------- agreement

  lemma CanonTokenIn(tokens: seq<string>, t: string)
    requires t in tokens
    ensures Canon(t) in CanonTokens(tokens)
  {
    var i :| 0 <= i < |tokens| && tokens[i] == t;
    assert CanonTokens(tokens)[i] == Canon(t);
  }

  /** A competency the must-have gate finds on the profile is covered for the grounding check. */
  lemma GateImpliesCovered(lower: char -> char, profile: seq<string>, key: string)
    requires Lowering(lower) && GateFinds(lower, profile, key)
    ensures CoversCompetency(lower, profile, key)
  {
    var name :| name in profile && Carries(lower, name, key);
    NormalTokens(lower, name);
    if key in Tokenize(Normal(lower, name)) {
      CanonTokenIn(TokensOf(lower, name), key);
    }
    assert CoversOne(lower, name, key);
  }

  lemma {:induction false} FabricatedIff(
    lower: char -> char, summary: string, profile: seq<string>, role: seq<string>, rc: string)
    ensures rc in Fabricated(lower, summary, profile, role) <==>
              rc in role && IsFabricated(lower, summary, profile, rc)
  {
    if role == [] {
    } else {
      var init := role[..|role| - 1];
      FabricatedIff(lower, summary, profile, init, rc);
      assert role == init + [role[|role| - 1]];
    }
  }

  /** Whatever the summary says, the must-have gate and the grounding check never contradict each other. */
  lemma CoveredIsNeverFabricated(
    lower: char -> char, summary: string, profile: seq<string>, role: seq<string>, rc: string)
    requires Lowering(lower) && GateFinds(lower, profile, Normal(lower, rc))
    ensures rc !in Fabricated(lower, summary, profile, role)
  {
    GateImpliesCovered(lower, profile, Normal(lower, rc));
    FabricatedIff(lower, summary, profile, role, rc);
  }

  // ------------------------------------------------ where the two gates do differ

  predicate PlainWord(w: string) {
    w != "" && forall i :: 0 <= i < |w| ==> 'a' <= w[i] <= 'z' || '0' <= w[i] <= '9' || w[i] == '.'
  }

  lemma {:induction false} PlainTrim(w: string)
    requires forall i :: 0 <= i < |w| ==> !IsSpace(w[i])
    ensures TrimSpace(w) == w
  {
  }

  lemma PlainNormal(lower: char -> char, w: string)
    requires Lowering(lower) && PlainWord(w)
    ensures Normal(lower, w) == w && TokensOf(lower, w) == [w]
  {
    PlainTrim(w);
    assert Lower(lower, w) == w;
    FieldsOfWord("", w);
    assert "" + w == w;
  }

  /** The key takes part in the alias table, on either side. */
  predicate Aliased(key: string) {
    key in SKILL_CANON || key in SKILL_CANON.Values
  }

  lemma AliasesArePlain(a: string)
    requires a in SKILL_CANON
    ensures PlainWord(a)
  {
  }

  lemma TargetsArePlain(a: string)
    requires a in SKILL_CANON
    ensures PlainWord(SKILL_CANON[a])
  {
  }

  lemma TargetsAreNoAliases(a: string)
    requires a in SKILL_CANON
    ensures SKILL_CANON[a] !in SKILL_CANON
  {
  }

  lemma AliasSplitsGates(lower: char -> char, name: string, key: string)
    requires Lowering(lower) && PlainWord(name) && name != key && Canon(name) == Canon(key)
    ensures CoversCompetency(lower, [name], key) && !GateFinds(lower, [name], key)
  {
    PlainNormal(lower, name);
    assert [name][0] == name;
    SingletonCanon(name);
    hide Canon, CanonTokens, TokensOf, Normal, PlainWord, Lowering;
    assert CoversOne(lower, name, key);
  }

  lemma SingletonCanon(t: string)
    ensures CanonTokens([t]) == [Canon(t)]
  {
  }

  lemma UnaliasedCanon(token: string, key: string)
    requires !Aliased(key) && Canon(token) == Canon(key)
    ensures token == key
  {
  }

  lemma UnaliasedAgrees(lower: char -> char, profile: seq<string>, key: string)
    requires Lowering(lower) && !Aliased(key)
    ensures CoversCompetency(lower, profile, key) <==> GateFinds(lower, profile, key)
  {
    if GateFinds(lower, profile, key) {
      GateImpliesCovered(lower, profile, key);
    }
    if CoversCompetency(lower, profile, key) {
      var name :| name in profile && CoversOne(lower, name, key);
      NormalTokens(lower, name);
      var tokens := TokensOf(lower, name);
      if Canon(Normal(lower, name)) == Canon(key) {
        UnaliasedCanon(Normal(lower, name), key);
      } else {
        var i :| 0 <= i < |tokens| && CanonTokens(tokens)[i] == Canon(key);
        UnaliasedCanon(tokens[i], key);
      }
      assert Carries(lower, name, key);
    }
  }

  /** The two gates agree about a key on every profile if and only if no skill alias involves it. */
  lemma GatesAgreeIff(lower: char -> char, key: string)
    requires Lowering(lower)
    ensures (forall profile: seq<string> :: CoversCompetency(lower, profile, key) <==> GateFinds(lower, profile, key))
       <==> !Aliased(key)
  {
    if !Aliased(key) {
      forall profile: seq<string>
        ensures CoversCompetency(lower, profile, key) <==> GateFinds(lower, profile, key)
      {
        UnaliasedAgrees(lower, profile, key);
      }
    } else {
      var name: string;
      if key in SKILL_CANON {
        name := SKILL_CANON[key];
        TargetsArePlain(key);
        TargetsAreNoAliases(key);
      } else {
        name :| name in SKILL_CANON && SKILL_CANON[name] == key;
        AliasesArePlain(name);
      }
      AliasSplitsGates(lower, name, key);
    }
  }
}

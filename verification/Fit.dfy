/**
 The explainable fit of a candidate to a rubric, and the rubric it is scored against
 (internal/domain/matching/fit.go, internal/domain/role/rubric.go).  Weights, levels and
 scores are real numbers.
 */
module Fit {
  import opened Prelude
  import opened Text
  import opened Tokens

  const MAX_LEVEL: real := 5.0
  const MIN_MUST_HAVE_SCORE: real := 2.0
  const WEIGHT_EPSILON: real := 0.01

  /** A rubric entry: the role's competency and the matcher's signal have the same three fields. */
  datatype Competency = Competency(name: string, weight: real, mustHave: bool)

  datatype Signal = Signal(name: string, level: real)

  // -------------------------------------------------------------------- rubric

  type Rubric = seq<Competency>

  function TotalWeight(r: Rubric): real {
    if r == [] then 0.0 else TotalWeight(r[..|r| - 1]) + r[|r| - 1].weight
  }

  function Normalize(r: Rubric): (n: Rubric)
    ensures |n| == |r|
  {
    var sum := TotalWeight(r);
    if sum == 0.0 then r else Scaled(r, sum)
  }

  function Scaled(r: Rubric, sum: real): (n: Rubric)
    requires sum != 0.0
    ensures |n| == |r|
  {
    seq(|r|, i requires 0 <= i < |r| => r[i].(weight := r[i].weight / sum))
  }

  /** The first competency that is blank or out of [0, 1] fails; then the sum must be near one. */
  predicate Validates(r: Rubric) {
    && r != []
    && (forall i :: 0 <= i < |r| ==> !Blank(r[i].name) && 0.0 <= r[i].weight <= 1.0)
    && 1.0 - WEIGHT_EPSILON <= TotalWeight(r) <= 1.0 + WEIGHT_EPSILON
  }

  method ComputeTotalWeight(r: Rubric) returns (sum: real)
    ensures sum == TotalWeight(r)
  {
    sum := 0.0;
    for i := 0 to |r|
      invariant sum == TotalWeight(r[..i])
    {
      sum := sum + r[i].weight;
      assert r[..i + 1][..i] == r[..i];
    }
    assert r[..|r|] == r;
  }

  method NormalizeRubric(r: Rubric) returns (n: Rubric)
    ensures n == Normalize(r)
  {
    var sum := ComputeTotalWeight(r);
    if sum == 0.0 {
      return r;
    }
    n := [];
    for i := 0 to |r|
      invariant n == Scaled(r, sum)[..i]
    {
      n := n + [r[i].(weight := r[i].weight / sum)];
    }
  }

  method ValidateRubric(r: Rubric) returns (ok: bool)
    ensures ok <==> Validates(r)
    ensures ok <==>
              && r != []
              && (forall i :: 0 <= i < |r| ==> TrimSpace(r[i].name) != "" && 0.0 <= r[i].weight <= 1.0)
              && 0.99 <= TotalWeight(r) <= 1.01
  {
    forall i | 0 <= i < |r| ensures TrimSpace(r[i].name) == "" <==> Blank(r[i].name) {
      TrimSpaceEmpty(r[i].name);
    }
    hide TrimSpace, Blank, TotalWeight;
    if |r| == 0 {
      return false;
    }
    for i := 0 to |r|
      invariant forall j :: 0 <= j < i ==> !Blank(r[j].name) && 0.0 <= r[j].weight <= 1.0
    {
      if TrimSpace(r[i].name) == "" || r[i].weight < 0.0 || r[i].weight > 1.0 {
        return false;
      }
    }
    var sum := ComputeTotalWeight(r);
    return !(sum < 1.0 - WEIGHT_EPSILON || sum > 1.0 + WEIGHT_EPSILON);
  }

  // ----------------------------------------------------------------------- fit

  /** The name is the key, or carries it as a whole token. */
  predicate Carries(lower: char -> char, name: string, key: string) {
    var n := Normal(lower, name);
    n == key || key in Tokenize(n)
  }

  /** The level of the first signal that carries the key. */
  function CandidateLevel(lower: char -> char, c: seq<Signal>, key: string): Option<real> {
    if c == [] then None
    else if Carries(lower, c[0].name, key) then Some(c[0].level)
    else CandidateLevel(lower, c[1..], key)
  }

  function ClampUnit(v: real): real {
    if v < 0.0 then 0.0 else if v > 1.0 then 1.0 else v
  }

  /** What a rubric entry of this weight earns for the level found. */
  function Credit(weight: real, level: Option<real>): real {
    if level.None? then 0.0 else weight * ClampUnit(level.value / MAX_LEVEL)
  }

  predicate Unmet(level: Option<real>) {
    level.None? || level.value < MIN_MUST_HAVE_SCORE
  }

  datatype Tally = Tally(total: real, raw: real, covered: seq<string>, missing: seq<string>)

  /** What one rubric entry adds to the tally; an entry with a blank name adds nothing. */
  function Count(lower: char -> char, t: Tally, rs: Competency, c: seq<Signal>): Tally {
    var key := Normal(lower, rs.name);
    if key == "" then t
    else
      var level := CandidateLevel(lower, c, key);
      Tally(t.total + rs.weight,
            t.raw + Credit(rs.weight, level),
            if level.Some? then t.covered + [rs.name] else t.covered,
            if rs.mustHave && Unmet(level) then t.missing + [rs.name] else t.missing)
  }

  function TallyOf(lower: char -> char, r: Rubric, c: seq<Signal>): Tally {
    if r == [] then Tally(0.0, 0.0, [], [])
    else Count(lower, TallyOf(lower, r[..|r| - 1], c), r[|r| - 1], c)
  }

  datatype Fit = Fit(score: real, mustHavesMet: bool, covered: seq<string>, missing: seq<string>)

  function FitOf(lower: char -> char, r: Rubric, c: seq<Signal>): Fit {
    var t := TallyOf(lower, r, c);
    Fit(if t.total > 0.0 then t.raw / t.total else t.raw, t.missing == [], t.covered, t.missing)
  }

  lemma {:induction false} LevelOfRest(lower: char -> char, c: seq<Signal>, key: string, i: nat)
    requires i <= |c| && forall j :: 0 <= j < i ==> !Carries(lower, c[j].name, key)
    ensures CandidateLevel(lower, c, key) == CandidateLevel(lower, c[i..], key)
  {
    if i > 0 {
      LevelOfRest(lower, c[1..], key, i - 1);
      assert c[1..][i - 1..] == c[i..];
    } else {
      assert c[0..] == c;
    }
  }

  method FindLevel(lower: char -> char, c: seq<Signal>, key: string) returns (level: Option<real>)
    ensures level == CandidateLevel(lower, c, key)
  {
    for i := 0 to |c|
      invariant forall j :: 0 <= j < i ==> !Carries(lower, c[j].name, key)
    {
      LevelOfRest(lower, c, key, i);
      if Carries(lower, c[i].name, key) {
        return Some(c[i].level);
      }
    }
    LevelOfRest(lower, c, key, |c|);
    return None;
  }

  lemma NoTally(lower: char -> char, c: seq<Signal>)
    ensures TallyOf(lower, [], c) == Tally(0.0, 0.0, [], [])
  {
  }

  lemma TallyNext(lower: char -> char, r: Rubric, c: seq<Signal>, i: nat)
    requires i < |r|
    ensures TallyOf(lower, r[..i + 1], c) == Count(lower, TallyOf(lower, r[..i], c), r[i], c)
  {
    assert r[..i + 1][..i] == r[..i];
    hide Count;
  }

  method ComputeFit(lower: char -> char, rubric: Rubric, candidate: seq<Signal>) returns (fit: Fit)
    ensures fit == FitOf(lower, rubric, candidate)
  {
    hide TallyOf, CandidateLevel, Normal;
    NoTally(lower, candidate);
    assert forall weight :: Credit(weight, None) == 0.0;
    hide Credit;
    var score, total, met := 0.0, 0.0, true;
    var covered, missing: seq<string> := [], [];
    for i := 0 to |rubric|
      invariant TallyOf(lower, rubric[..i], candidate) == Tally(total, score, covered, missing)
      invariant met <==> missing == []
    {
      TallyNext(lower, rubric, candidate, i);
      var rs := rubric[i];
      var key := Normal(lower, rs.name);
      if key != "" {
        total := total + rs.weight;
        var level := FindLevel(lower, candidate, key);
        if level.Some? {
          score := score + Credit(rs.weight, level);
          covered := covered + [rs.name];
        }
        if rs.mustHave && (level.None? || level.value < MIN_MUST_HAVE_SCORE) {
          met := false;
          missing := missing + [rs.name];
        }
      }
    }
    assert rubric[..|rubric|] == rubric;
    if total > 0.0 {
      score := score / total;
    }
    return Fit(score, met, covered, missing);
  }
}

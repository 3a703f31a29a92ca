/** What the fit's numbers are, and which competencies it names, without the tally that computes them. */
module FitMeaning {
  import opened Prelude
  import opened Text
  import opened Tokens
  import opened Fit

  // ------------------------------------------------------------------ the levels

  /** The signal's trimmed, lower-cased name is the competency's, or has it as a token. */
  predicate Answers(lower: char -> char, s: Signal, name: string) {
    || Lower(lower, TrimSpace(s.name)) == Lower(lower, TrimSpace(name))
    || Lower(lower, TrimSpace(name)) in Tokenize(Lower(lower, TrimSpace(s.name)))
  }

  /** The level of the first signal that answers the name, if one does. */
  ghost predicate LevelIs(lower: char -> char, c: seq<Signal>, name: string, level: Option<real>) {
    if level.None? then forall i :: 0 <= i < |c| ==> !Answers(lower, c[i], name)
    else exists k: nat :: FirstAnswer(lower, c, name, k) && c[k].level == level.value
  }

  ghost predicate FirstAnswer(lower: char -> char, c: seq<Signal>, name: string, k: nat) {
    k < |c| && Answers(lower, c[k], name) && forall i :: 0 <= i < k ==> !Answers(lower, c[i], name)
  }

  lemma {:induction false} LevelFound(lower: char -> char, c: seq<Signal>, name: string)
    ensures LevelIs(lower, c, name, CandidateLevel(lower, c, Normal(lower, name)))
  {
    var key := Normal(lower, name);
    if c == [] {
    } else if Carries(lower, c[0].name, key) {
      assert FirstAnswer(lower, c, name, 0);
    } else {
      LevelFound(lower, c[1..], name);
      assert forall i :: 1 <= i < |c| ==> c[i] == c[1..][i - 1];
      if CandidateLevel(lower, c[1..], key).Some? {
        var k: nat :| FirstAnswer(lower, c[1..], name, k)
                      && c[1..][k].level == CandidateLevel(lower, c[1..], key).value;
        assert FirstAnswer(lower, c, name, k + 1);
      }
    }
  }

  lemma LevelIsUnique(lower: char -> char, c: seq<Signal>, name: string, a: Option<real>, b: Option<real>)
    requires LevelIs(lower, c, name, a) && LevelIs(lower, c, name, b)
    ensures a == b
  {
    hide Answers;
    if a.Some? && b.Some? {
      var j: nat :| FirstAnswer(lower, c, name, j) && c[j].level == a.value;
      var k: nat :| FirstAnswer(lower, c, name, k) && c[k].level == b.value;
      assert j == k;
    }
  }

  ghost predicate LevelsAre(lower: char -> char, r: Rubric, c: seq<Signal>, levels: seq<Option<real>>) {
    |levels| == |r| && forall i :: 0 <= i < |r| ==> LevelIs(lower, c, r[i].name, levels[i])
  }

  // ------------------------------------------------------------------- the score

  /** The part of full marks, which are five, that a level earns. */
  function Share(level: Option<real>): real {
    if level.None? || level.value <= 0.0 then 0.0 else if level.value >= 5.0 then 1.0 else level.value / 5.0
  }

  function Earned(weight: real, level: Option<real>): real { weight * Share(level) }

  /** The weights of the entries that have a name. */
  function NamedWeight(r: Rubric): real {
    if r == [] then 0.0
    else NamedWeight(r[..|r| - 1]) + if Blank(r[|r| - 1].name) then 0.0 else r[|r| - 1].weight
  }

  function WeightedShares(r: Rubric, levels: seq<Option<real>>): real
    requires |levels| == |r|
  {
    if r == [] then 0.0
    else
      WeightedShares(r[..|r| - 1], levels[..|r| - 1])
      + if Blank(r[|r| - 1].name) then 0.0 else Earned(r[|r| - 1].weight, levels[|r| - 1])
  }

  lemma CreditIsShare(weight: real, level: Option<real>)
    ensures Credit(weight, level) == Earned(weight, level)
  {
  }

  lemma SharesNext(r: Rubric, levels: seq<Option<real>>)
    requires r != [] && |levels| == |r|
    ensures var n := |r| - 1;
            WeightedShares(r, levels) ==
              WeightedShares(r[..n], levels[..n]) + if Blank(r[n].name) then 0.0 else Credit(r[n].weight, levels[n])
  {
    CreditIsShare(r[|r| - 1].weight, levels[|r| - 1]);
    hide Earned, Credit, Blank;
  }

  lemma BlankHasNoKey(lower: char -> char, name: string)
    ensures Normal(lower, name) == "" <==> Blank(name)
  {
    TrimSpaceEmpty(name);
  }

  /** Which competencies the fit lists: every entry with a name that some signal answers is covered. */
  ghost predicate Covers(r: Rubric, levels: seq<Option<real>>, covered: seq<string>)
    requires |levels| == |r|
  {
    forall name :: name in covered <==>
      exists i :: 0 <= i < |r| && r[i].name == name && !Blank(name) && levels[i].Some?
  }

  /** Every must-have with a name and a level below two, or none, is missing. */
  ghost predicate Misses(r: Rubric, levels: seq<Option<real>>, missing: seq<string>)
    requires |levels| == |r|
  {
    forall name :: name in missing <==>
      exists i :: 0 <= i < |r| && r[i].name == name && r[i].mustHave && !Blank(name)
                  && (levels[i].None? || levels[i].value < 2.0)
  }

  lemma OneMore(r: Rubric, levels: seq<Option<real>>, t: Tally, t': Tally)
    requires r != [] && |levels| == |r|
    requires Covers(r[..|r| - 1], levels[..|r| - 1], t.covered) && Misses(r[..|r| - 1], levels[..|r| - 1], t.missing)
    requires var last, level := r[|r| - 1], levels[|r| - 1];
             && t'.covered == (if !Blank(last.name) && level.Some? then t.covered + [last.name] else t.covered)
             && t'.missing == (if !Blank(last.name) && last.mustHave && (level.None? || level.value < 2.0)
                               then t.missing + [last.name] else t.missing)
    ensures Covers(r, levels, t'.covered) && Misses(r, levels, t'.missing)
  {
    var n := |r| - 1;
    assert forall i :: 0 <= i < n ==> r[..n][i] == r[i] && levels[..n][i] == levels[i];
    hide Blank;
  }

  lemma TallyUnfolds(lower: char -> char, r: Rubric, c: seq<Signal>)
    requires r != []
    ensures var n := |r| - 1;
            var t, t', level := TallyOf(lower, r[..n], c), TallyOf(lower, r, c),
                                CandidateLevel(lower, c, Normal(lower, r[n].name));
            && t'.total == t.total + (if Blank(r[n].name) then 0.0 else r[n].weight)
            && t'.raw == t.raw + (if Blank(r[n].name) then 0.0 else Credit(r[n].weight, level))
            && t'.covered == (if !Blank(r[n].name) && level.Some? then t.covered + [r[n].name] else t.covered)
            && t'.missing == (if !Blank(r[n].name) && r[n].mustHave && (level.None? || level.value < 2.0)
                              then t.missing + [r[n].name] else t.missing)
  {
    BlankHasNoKey(lower, r[|r| - 1].name);
    hide Credit, CandidateLevel, Normal, Blank;
  }

  lemma NamedNext(r: Rubric)
    requires r != []
    ensures NamedWeight(r) ==
              NamedWeight(r[..|r| - 1]) + if Blank(r[|r| - 1].name) then 0.0 else r[|r| - 1].weight
  {
  }

  lemma {:induction false} TallyIs(lower: char -> char, r: Rubric, c: seq<Signal>, levels: seq<Option<real>>)
    requires LevelsAre(lower, r, c, levels)
    ensures var t := TallyOf(lower, r, c);
            && t.total == NamedWeight(r) && t.raw == WeightedShares(r, levels)
            && Covers(r, levels, t.covered) && Misses(r, levels, t.missing)
  {
    if r == [] {
    } else {
      var n := |r| - 1;
      var name, level := r[n].name, levels[n];
      TallyIs(lower, r[..n], c, levels[..n]);
      LevelFound(lower, c, name);
      LevelIsUnique(lower, c, name, level, CandidateLevel(lower, c, Normal(lower, name)));
      NamedNext(r);
      SharesNext(r, levels);
      TallyUnfolds(lower, r, c);
      OneMore(r, levels, TallyOf(lower, r[..n], c), TallyOf(lower, r, c));
      hide *;
    }
  }

  /** mean is the quotient of the sum by the weight, or the sum itself when the weight is not positive. */
  predicate IsMean(mean: real, sum: real, weight: real) {
    if weight > 0.0 then mean * weight == sum else mean == sum
  }

  /**
   The score is the mean of the shares, weighted by the entries that have a name, and the lists
   are exactly those entries that are answered and those that are must-haves below the minimum.
   */
  lemma FitIsWeightedMean(lower: char -> char, r: Rubric, c: seq<Signal>, levels: seq<Option<real>>)
    requires LevelsAre(lower, r, c, levels)
    ensures var fit := FitOf(lower, r, c);
            && IsMean(fit.score, WeightedShares(r, levels), NamedWeight(r))
            && Covers(r, levels, fit.covered) && Misses(r, levels, fit.missing)
            && (fit.mustHavesMet <==> fit.missing == [])
  {
    TallyIs(lower, r, c, levels);
    QuotientIsMean(TallyOf(lower, r, c).raw, TallyOf(lower, r, c).total);
    hide TallyOf, NamedWeight, WeightedShares, LevelsAre, Covers, Misses, IsMean;
  }

  lemma QuotientIsMean(sum: real, weight: real)
    ensures IsMean(if weight > 0.0 then sum / weight else sum, sum, weight)
  {
  }

  /** There always are such levels. */
  lemma LevelsExist(lower: char -> char, r: Rubric, c: seq<Signal>) returns (levels: seq<Option<real>>)
    ensures LevelsAre(lower, r, c, levels)
  {
    levels := seq(|r|, i requires 0 <= i < |r| => CandidateLevel(lower, c, Normal(lower, r[i].name)));
    forall i | 0 <= i < |r| ensures LevelIs(lower, c, r[i].name, levels[i]) {
      LevelFound(lower, c, r[i].name);
    }
    hide LevelIs, CandidateLevel, Normal;
  }

  /** A single named competency of positive weight scores its share, whatever the weight. */
  lemma OneCompetency(lower: char -> char, rs: Competency, c: seq<Signal>, level: Option<real>)
    requires !Blank(rs.name) && rs.weight > 0.0 && LevelIs(lower, c, rs.name, level)
    ensures FitOf(lower, [rs], c).score == Share(level)
  {
    var r, levels := [rs], [level];
    FitIsWeightedMean(lower, r, c, levels);
    assert r[..0] == [] && levels[..0] == [];
    SharesNext(r, levels);
    NamedNext(r);
    hide LevelIs, FitOf, Covers, Misses, Share, Blank, IsMean, Credit;
    MeanOfOne(FitOf(lower, r, c).score, rs.weight, level);
  }

  lemma MeanOfOne(mean: real, weight: real, level: Option<real>)
    requires weight > 0.0 && IsMean(mean, Credit(weight, level), weight)
    ensures mean == Share(level)
  {
    CreditIsShare(weight, level);
    hide Share, Credit;
  }

  // ------------------------------------------------------------------- the rubric

  /** A rubric's total is what its entries weigh, one by one. */
  lemma TotalOfMore(r: Rubric, e: Competency)
    ensures TotalWeight([]) == 0.0 && TotalWeight(r + [e]) == TotalWeight(r) + e.weight
  {
    assert (r + [e])[..|r|] == r;
  }

  /** Normalizing keeps names, flags and the proportions of the weights. */
  lemma NormalizeKeepsProportions(r: Rubric, i: nat)
    requires i < |r|
    ensures Normalize(r)[i].name == r[i].name && Normalize(r)[i].mustHave == r[i].mustHave
    ensures TotalWeight(r) == 0.0 ==> Normalize(r)[i].weight == r[i].weight
    ensures TotalWeight(r) != 0.0 ==> Times(Normalize(r)[i].weight, TotalWeight(r)) == r[i].weight
  {
    if TotalWeight(r) != 0.0 {
      TimesDivisor(r[i].weight, TotalWeight(r));
    }
    hide TotalWeight, Times;
  }

  function Times(x: real, y: real): real { x * y }

  lemma TimesDivisor(x: real, d: real)
    requires d != 0.0
    ensures Times(x / d, d) == x
  {
  }
}

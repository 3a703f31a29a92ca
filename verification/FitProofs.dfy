/** Bounds, invariance and monotonicity of the fit; what normalizing a rubric achieves. */
module FitProofs {
  import opened Prelude
  import opened Text
  import opened Tokens
  import opened Fit
  import opened Quotients

  ghost predicate Nonnegative(r: Rubric) {
    forall i :: 0 <= i < |r| ==> r[i].weight >= 0.0
  }

  // ---------------------------------------------------------------- arithmetic

  lemma CreditBounded(w: real, level: Option<real>)
    requires w >= 0.0
    ensures 0.0 <= Credit(w, level) <= w
  {
  }

  lemma QuotientInUnit(raw: real, total: real)
    requires 0.0 <= raw <= total && total > 0.0
    ensures 0.0 <= raw / total <= 1.0
  {
  }

  lemma CreditMonotone(w: real, level: Option<real>, level': Option<real>)
    requires w >= 0.0
    requires level.Some? ==> level'.Some? && level.value <= level'.value
    ensures Credit(w, level) <= Credit(w, level')
  {
    CreditBounded(w, level');
    if level.Some? {
      QuotientMonotone(level.value, level'.value, MAX_LEVEL);
      ProductMonotone(w, ClampUnit(level.value / MAX_LEVEL), ClampUnit(level'.value / MAX_LEVEL));
    }
  }

  lemma ProductMonotone(w: real, x: real, y: real)
    requires w >= 0.0 && x <= y
    ensures w * x <= w * y
  {
  }

  lemma SumOfQuotients(x: real, y: real, d: real)
    requires d != 0.0
    ensures x / d + y / d == (x + y) / d
  {
  }

  // -------------------------------------------------------------------- bounds

  lemma {:induction false} TallyBounded(lower: char -> char, r: Rubric, c: seq<Signal>)
    requires Nonnegative(r)
    ensures var t := TallyOf(lower, r, c); 0.0 <= t.raw <= t.total
  {
    if r == [] {
    } else {
      var init, last := r[..|r| - 1], r[|r| - 1];
      assert Nonnegative(init);
      TallyBounded(lower, init, c);
      CreditBounded(last.weight, CandidateLevel(lower, c, Normal(lower, last.name)));
      hide Credit, Nonnegative;
    }
  }

  /** With nonnegative weights the score is a fraction. */
  lemma ScoreInUnit(lower: char -> char, r: Rubric, c: seq<Signal>)
    requires Nonnegative(r)
    ensures 0.0 <= FitOf(lower, r, c).score <= 1.0
  {
    TallyBounded(lower, r, c);
    var t := TallyOf(lower, r, c);
    if t.total > 0.0 {
      QuotientInUnit(t.raw, t.total);
    }
  }

  // ------------------------------------------------------------------ must-haves

  ghost predicate Evidenced(lower: char -> char, c: seq<Signal>, rs: Competency) {
    var key := Normal(lower, rs.name);
    rs.mustHave && key != "" ==> !Unmet(CandidateLevel(lower, c, key))
  }

  lemma {:induction false} MissingIff(lower: char -> char, r: Rubric, c: seq<Signal>)
    ensures TallyOf(lower, r, c).missing == [] <==> forall i :: 0 <= i < |r| ==> Evidenced(lower, c, r[i])
  {
    if r == [] {
    } else {
      var init := r[..|r| - 1];
      MissingIff(lower, init, c);
      assert forall i :: 0 <= i < |r| - 1 ==> init[i] == r[i];
    }
  }

  /** The must-haves are met exactly when nothing is reported missing, and when each is evidenced at the minimum. */
  lemma MustHavesMetIff(lower: char -> char, r: Rubric, c: seq<Signal>)
    ensures var fit := FitOf(lower, r, c);
            && (fit.mustHavesMet <==> fit.missing == [])
            && (fit.mustHavesMet <==> forall i :: 0 <= i < |r| ==> Evidenced(lower, c, r[i]))
  {
    MissingIff(lower, r, c);
  }

  // ---------------------------------------------------------------- monotonicity

  /** c' evidences at least what c does. */
  ghost predicate Dominates(lower: char -> char, c: seq<Signal>, c': seq<Signal>) {
    forall key :: CandidateLevel(lower, c, key).Some? ==>
      && CandidateLevel(lower, c', key).Some?
      && CandidateLevel(lower, c, key).value <= CandidateLevel(lower, c', key).value
  }

  lemma {:induction false} TallyMonotone(lower: char -> char, r: Rubric, c: seq<Signal>, c': seq<Signal>)
    requires Nonnegative(r) && Dominates(lower, c, c')
    ensures TallyOf(lower, r, c').total == TallyOf(lower, r, c).total
    ensures TallyOf(lower, r, c').raw >= TallyOf(lower, r, c).raw
    ensures TallyOf(lower, r, c).missing == [] ==> TallyOf(lower, r, c').missing == []
  {
    if r == [] {
    } else {
      var init, last := r[..|r| - 1], r[|r| - 1];
      var key := Normal(lower, last.name);
      var level, level' := CandidateLevel(lower, c, key), CandidateLevel(lower, c', key);
      assert Nonnegative(init);
      TallyMonotone(lower, init, c, c');
      CreditMonotone(last.weight, level, level');
      hide Credit, Nonnegative, Dominates, CandidateLevel;
    }
  }

  lemma FitMonotone(lower: char -> char, r: Rubric, c: seq<Signal>, c': seq<Signal>)
    requires Nonnegative(r) && Dominates(lower, c, c')
    ensures FitOf(lower, r, c').score >= FitOf(lower, r, c).score
    ensures FitOf(lower, r, c).mustHavesMet ==> FitOf(lower, r, c').mustHavesMet
  {
    TallyMonotone(lower, r, c, c');
    var t, t' := TallyOf(lower, r, c), TallyOf(lower, r, c');
    if t.total > 0.0 {
      QuotientMonotone(t.raw, t'.raw, t.total);
    }
  }

  lemma {:induction false} AppendKeepsLevel(lower: char -> char, c: seq<Signal>, s: Signal, key: string)
    requires CandidateLevel(lower, c, key).Some?
    ensures CandidateLevel(lower, c + [s], key) == CandidateLevel(lower, c, key)
  {
    if Carries(lower, c[0].name, key) {
    } else {
      AppendKeepsLevel(lower, c[1..], s, key);
      assert (c + [s])[1..] == c[1..] + [s];
    }
  }

  lemma {:induction false} RaiseKeepsLevel(lower: char -> char, c: seq<Signal>, i: nat, level: real, key: string)
    requires i < |c| && c[i].level <= level && CandidateLevel(lower, c, key).Some?
    ensures var after := CandidateLevel(lower, c[i := c[i].(level := level)], key);
            after.Some? && CandidateLevel(lower, c, key).value <= after.value
  {
    if Carries(lower, c[0].name, key) {
    } else {
      if i == 0 {
        assert c[0 := c[0].(level := level)][1..] == c[1..];
      } else {
        RaiseKeepsLevel(lower, c[1..], i - 1, level, key);
        assert c[i := c[i].(level := level)][1..] == c[1..][i - 1 := c[i].(level := level)];
      }
    }
  }

  /** More evidence, or a higher level, never lowers the score nor unmeets a must-have. */
  lemma EvidenceNeverHurts(lower: char -> char, r: Rubric, c: seq<Signal>, s: Signal, i: nat, level: real)
    requires Nonnegative(r)
    ensures FitOf(lower, r, c + [s]).score >= FitOf(lower, r, c).score
    ensures FitOf(lower, r, c).mustHavesMet ==> FitOf(lower, r, c + [s]).mustHavesMet
    ensures i < |c| && c[i].level <= level ==>
              && FitOf(lower, r, c[i := c[i].(level := level)]).score >= FitOf(lower, r, c).score
              && (FitOf(lower, r, c).mustHavesMet ==> FitOf(lower, r, c[i := c[i].(level := level)]).mustHavesMet)
  {
    forall key | CandidateLevel(lower, c, key).Some?
      ensures CandidateLevel(lower, c + [s], key) == CandidateLevel(lower, c, key)
    {
      AppendKeepsLevel(lower, c, s, key);
    }
    FitMonotone(lower, r, c, c + [s]);
    if i < |c| && c[i].level <= level {
      var c' := c[i := c[i].(level := level)];
      forall key | CandidateLevel(lower, c, key).Some?
        ensures CandidateLevel(lower, c', key).Some?
        ensures CandidateLevel(lower, c, key).value <= CandidateLevel(lower, c', key).value
      {
        RaiseKeepsLevel(lower, c, i, level, key);
      }
      FitMonotone(lower, r, c, c');
    }
  }

  // --------------------------------------------------------------- normalization

  lemma {:induction false} ScaledTotal(r: Rubric, sum: real)
    requires sum != 0.0
    ensures TotalWeight(Scaled(r, sum)) == TotalWeight(r) / sum
  {
    if r == [] {
    } else {
      var init := r[..|r| - 1];
      ScaledTotal(init, sum);
      assert Scaled(r, sum)[..|r| - 1] == Scaled(init, sum);
      SumOfQuotients(TotalWeight(init), r[|r| - 1].weight, sum);
    }
  }

  lemma SelfQuotient(x: real)
    requires x != 0.0
    ensures x / x == 1.0
  {
  }

  lemma NormalizedTotal(r: Rubric)
    requires TotalWeight(r) != 0.0
    ensures TotalWeight(Normalize(r)) == 1.0
  {
    ScaledTotal(r, TotalWeight(r));
    SelfQuotient(TotalWeight(r));
  }

  /** Normalizing twice is normalizing once. */
  lemma NormalizeIdempotent(r: Rubric)
    ensures Normalize(Normalize(r)) == Normalize(r)
  {
    if TotalWeight(r) != 0.0 {
      NormalizedTotal(r);
      var n := Normalize(r);
      assert forall i :: 0 <= i < |n| ==> Scaled(n, 1.0)[i] == n[i];
      assert Scaled(n, 1.0) == n;
    }
  }

  predicate SameSign(w: real, sum: real) { w == 0.0 || (w > 0.0 && sum > 0.0) || (w < 0.0 && sum < 0.0) }

  lemma QuotientSign(w: real, sum: real)
    requires sum != 0.0
    ensures w / sum >= 0.0 <==> SameSign(w, sum)
  {
  }

  lemma {:induction false} WeightWithinTotal(r: Rubric, i: nat)
    requires Nonnegative(r) && i < |r|
    ensures 0.0 <= r[i].weight <= TotalWeight(r)
  {
    var init := r[..|r| - 1];
    assert Nonnegative(init);
    TotalNonnegative(init);
    if i == |r| - 1 {
    } else {
      WeightWithinTotal(init, i);
    }
  }

  lemma {:induction false} TotalNonnegative(r: Rubric)
    requires Nonnegative(r)
    ensures TotalWeight(r) >= 0.0
  {
    if r == [] {
    } else {
      TotalNonnegative(r[..|r| - 1]);
    }
  }

  lemma NonnegativeWithinOne(n: Rubric)
    requires TotalWeight(n) == 1.0 && Nonnegative(n)
    ensures forall i :: 0 <= i < |n| ==> 0.0 <= n[i].weight <= 1.0
  {
    forall i | 0 <= i < |n| ensures 0.0 <= n[i].weight <= 1.0 {
      WeightWithinTotal(n, i);
    }
  }

  lemma NormalizedSigns(r: Rubric)
    requires TotalWeight(r) != 0.0
    ensures Nonnegative(Normalize(r)) <==> forall i :: 0 <= i < |r| ==> SameSign(r[i].weight, TotalWeight(r))
  {
    var sum, n := TotalWeight(r), Normalize(r);
    forall i | 0 <= i < |r| ensures n[i].weight >= 0.0 <==> SameSign(r[i].weight, sum) {
      QuotientSign(r[i].weight, sum);
    }
    hide Normalize, SameSign, TotalWeight;
  }

  /** A normalized rubric validates exactly when the raw one is well named, has a total, and no weight opposes it. */
  lemma NormalizedValidatesIff(r: Rubric)
    ensures Validates(Normalize(r)) <==>
              && r != [] && (forall i :: 0 <= i < |r| ==> !Blank(r[i].name))
              && TotalWeight(r) != 0.0
              && (forall i :: 0 <= i < |r| ==> SameSign(r[i].weight, TotalWeight(r)))
  {
    var n := Normalize(r);
    assert forall i :: 0 <= i < |r| ==> n[i].name == r[i].name;
    if TotalWeight(r) != 0.0 {
      NormalizedTotal(r);
      NormalizedSigns(r);
      hide Normalize, SameSign, TotalWeight, Blank;
      if Nonnegative(n) {
        NonnegativeWithinOne(n);
      }
    }
  }

  lemma CreditScaled(w: real, level: Option<real>, sum: real)
    requires sum != 0.0
    ensures Credit(w / sum, level) == Credit(w, level) / sum
  {
    if level.Some? {
      QuotientOfProduct(w, ClampUnit(level.value / MAX_LEVEL), sum);
    }
  }

  lemma QuotientOfProduct(w: real, x: real, sum: real)
    requires sum != 0.0
    ensures (w / sum) * x == (w * x) / sum
  {
  }

  ghost predicate ScaledTally(t: Tally, t': Tally, sum: real)
    requires sum != 0.0
  {
    t'.total == t.total / sum && t'.raw == t.raw / sum && t'.covered == t.covered && t'.missing == t.missing
  }

  lemma CountScaled(lower: char -> char, t: Tally, t': Tally, rs: Competency, sum: real, c: seq<Signal>)
    requires sum != 0.0 && ScaledTally(t, t', sum)
    ensures ScaledTally(Count(lower, t, rs, c), Count(lower, t', rs.(weight := rs.weight / sum), c), sum)
  {
    var level := CandidateLevel(lower, c, Normal(lower, rs.name));
    CreditScaled(rs.weight, level, sum);
    SumOfQuotients(t.total, rs.weight, sum);
    SumOfQuotients(t.raw, Credit(rs.weight, level), sum);
    hide Credit;
  }

  lemma {:induction false} TallyScaled(lower: char -> char, r: Rubric, sum: real, c: seq<Signal>)
    requires sum != 0.0
    ensures ScaledTally(TallyOf(lower, r, c), TallyOf(lower, Scaled(r, sum), c), sum)
  {
    if r == [] {
    } else {
      var init, last := r[..|r| - 1], r[|r| - 1];
      TallyScaled(lower, init, sum, c);
      assert Scaled(r, sum)[..|r| - 1] == Scaled(init, sum);
      CountScaled(lower, TallyOf(lower, init, c), TallyOf(lower, Scaled(init, sum), c), last, sum, c);
      hide ScaledTally, Count;
    }
  }

  lemma QuotientCancels(raw: real, total: real, sum: real)
    requires total > 0.0 && sum > 0.0
    ensures total / sum > 0.0 && (raw / sum) / (total / sum) == raw / total
  {
    assert (raw / total) * (total / sum) == raw / sum;
  }

  /** Normalizing the rubric changes nothing about the fit. */
  lemma FitOfNormalized(lower: char -> char, r: Rubric, c: seq<Signal>)
    requires Nonnegative(r)
    ensures FitOf(lower, Normalize(r), c) == FitOf(lower, r, c)
  {
    var sum := TotalWeight(r);
    TotalNonnegative(r);
    if sum != 0.0 {
      TallyScaled(lower, r, sum, c);
      TallyBounded(lower, r, c);
      var t := TallyOf(lower, r, c);
      if t.total > 0.0 {
        QuotientCancels(t.raw, t.total, sum);
      }
    }
  }
}

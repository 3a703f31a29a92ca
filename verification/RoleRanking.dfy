/** The two-way matcher's ranking of the roles a candidate fits (internal/app/matching/twoway.go). */
module RoleRanking {
  import opened Tokens
  import opened Fit
  import opened RoleGates
  import opened Sorting

  datatype RoleFit = RoleFit(role: Role, fit: Fit)

  const DEFAULT_LIMIT := 10

  /** Best first. */
  function Rank(f: RoleFit): real { -f.fit.score }

  // --------------------------------------------------------------------- ranking

  ghost predicate Fits(k: Casing, c: Candidate, signals: seq<Signal>, r: Role) {
    Eligible(k, c, signals, r) && BiasSafe(k.lower, r.rubric)
  }

  /** The open roles that fit, in repository order. */
  ghost function FittingRoles(k: Casing, c: Candidate, signals: seq<Signal>, open: seq<Role>): seq<RoleFit> {
    if open == [] then []
    else
      var r := open[|open| - 1];
      FittingRoles(k, c, signals, open[..|open| - 1])
      + if Fits(k, c, signals, r) then [RoleFit(r, FitOf(k.lower, r.rubric, signals))] else []
  }

  method RankRoleFits(k: Casing, c: Candidate, signals: seq<Signal>, open: seq<Role>) returns (fits: seq<RoleFit>)
    requires Lowering(k.lower)
    ensures StablySorted(Rank, FittingRoles(k, c, signals, open), fits)
  {
    hide Lowering, Eligible, BiasSafe, StablySorted, FitOf;
    fits := [];
    for i := 0 to |open|
      invariant fits == FittingRoles(k, c, signals, open[..i])
    {
      assert open[..i + 1][..i] == open[..i];
      var found := EvaluateRoleFit(k, c, signals, open[i]);
      if found.Some? {
        fits := fits + [RoleFit(open[i], found.value)];
      }
    }
    assert open[..|open|] == open;
    SortIsStable(Rank, fits);
    fits := SortBy(Rank, fits);
  }

  method RolesForCandidate(k: Casing, c: Candidate, signals: seq<Signal>, open: seq<Role>, limit: int)
    returns (top: seq<RoleFit>, ghost omitted: seq<RoleFit>)
    requires Lowering(k.lower)
    ensures StablySorted(Rank, FittingRoles(k, c, signals, open), top + omitted)
    ensures |top| <= if limit <= 0 then 10 else limit
    ensures omitted != [] ==> |top| == if limit <= 0 then 10 else limit
  {
    var bound := if limit <= 0 then DEFAULT_LIMIT else limit;
    hide Lowering, StablySorted;
    var fits := RankRoleFits(k, c, signals, open);
    top, omitted := fits, [];
    if |fits| > bound {
      top, omitted := fits[..bound], fits[bound..];
    }
    assert top + omitted == fits;
  }

  lemma {:induction false} FittingRolesIff(k: Casing, c: Candidate, signals: seq<Signal>, open: seq<Role>, f: RoleFit)
    ensures f in FittingRoles(k, c, signals, open) <==>
              f.role in open && Fits(k, c, signals, f.role) && f.fit == FitOf(k.lower, f.role.rubric, signals)
  {
    if open == [] {
    } else {
      var init, last := open[..|open| - 1], open[|open| - 1];
      FittingRolesIff(k, c, signals, init, f);
      assert open == init + [last];
      hide Fits, FitOf;
    }
  }

  lemma BestFirst(top: seq<RoleFit>, omitted: seq<RoleFit>)
    requires Ascending(Rank, top + omitted)
    ensures forall i, j :: 0 <= i < j < |top| ==> top[i].fit.score >= top[j].fit.score
    ensures forall t, f :: t in top && f in omitted ==> t.fit.score >= f.fit.score
  {
    var all := top + omitted;
    forall i, j | 0 <= i < j < |top| ensures top[i].fit.score >= top[j].fit.score {
      assert all[i] == top[i] && all[j] == top[j] && Rank(all[i]) <= Rank(all[j]);
    }
    forall t, f | t in top && f in omitted ensures t.fit.score >= f.fit.score {
      var i :| 0 <= i < |top| && top[i] == t;
      var j :| 0 <= j < |omitted| && omitted[j] == f;
      assert all[i] == t && all[|top| + j] == f && Rank(t) <= Rank(f);
    }
  }

  /** Every role surfaced fits, none that fits better was left out, and none that fits is lost otherwise. */
  lemma SurfacedRolesAreTheBest(
    k: Casing, c: Candidate, signals: seq<Signal>, open: seq<Role>, top: seq<RoleFit>, omitted: seq<RoleFit>)
    requires StablySorted(Rank, FittingRoles(k, c, signals, open), top + omitted)
    ensures forall f :: f in top ==> f.role in open && Fits(k, c, signals, f.role)
    ensures forall i, j :: 0 <= i < j < |top| ==> top[i].fit.score >= top[j].fit.score
    ensures forall r :: r in open && Fits(k, c, signals, r) ==>
              var f := RoleFit(r, FitOf(k.lower, r.rubric, signals));
              f in top || (f in omitted && forall t :: t in top ==> t.fit.score >= f.fit.score)
  {
    var all, sorted := FittingRoles(k, c, signals, open), top + omitted;
    forall f
      ensures f in sorted <==> f in all
      ensures f in all <==>
                f.role in open && Fits(k, c, signals, f.role) && f.fit == FitOf(k.lower, f.role.rubric, signals)
    {
      FittingRolesIff(k, c, signals, open, f);
      assert f in sorted <==> f in multiset(sorted);
    }
    assert Ascending(Rank, sorted);
    hide FittingRoles, Fits, FitOf, StablySorted, WithKey;
    BestFirst(top, omitted);
    hide Ascending;
  }
}

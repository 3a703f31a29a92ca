/** Estimated model spend and its budget alerts (internal/app/cost.go).  Money is a real number. */
module CostTracking {
  import opened Quotients
  import opened Sorting

  const CHARS_PER_TOKEN: real := 4.0
  const MILLION: real := 1_000_000.0

  datatype Pricing = Pricing(input: real, output: real)

  datatype Call = Call(model: string, promptChars: nat, responseChars: nat)

  predicate HasPrefix(s: string, prefix: string) { prefix <= s }

  /** An unknown model is priced like the dearest general one; only local models are free. */
  function PricingFor(model: string): (p: Pricing)
    ensures p.input >= 0.0 && p.output >= 0.0
    ensures p.input == 0.0 <==> model == "" || model == "dev"
  {
    if model == "" || model == "dev" then Pricing(0.0, 0.0)
    else if HasPrefix(model, "text-embedding-3-large") then Pricing(0.13, 0.0)
    else if HasPrefix(model, "text-embedding") then Pricing(0.02, 0.0)
    else if HasPrefix(model, "claude-fable") || HasPrefix(model, "claude-mythos") then Pricing(10.0, 50.0)
    else if HasPrefix(model, "claude-opus") then Pricing(5.0, 25.0)
    else if HasPrefix(model, "claude-sonnet") then Pricing(3.0, 15.0)
    else if HasPrefix(model, "claude-haiku") then Pricing(1.0, 5.0)
    else Pricing(5.0, 25.0)
  }

  function EstimateCallCostUSD(c: Call): real {
    var p := PricingFor(c.model);
    (c.promptChars as real / CHARS_PER_TOKEN) / MILLION * p.input
    + (c.responseChars as real / CHARS_PER_TOKEN) / MILLION * p.output
  }

  datatype Alert = Alert(spent: real, budget: real, fraction: real, exceeded: bool)

  // ---------------------------------------------------------------- specification

  /** The estimated spend of a sequence of calls; a call that costs nothing leaves it alone. */
  function Spend(calls: seq<Call>): real {
    if calls == [] then 0.0
    else
      var cost := EstimateCallCostUSD(calls[|calls| - 1]);
      Spend(calls[..|calls| - 1]) + if cost <= 0.0 then 0.0 else cost
  }

  function Fraction(spent: real, budget: real): real
    requires budget > 0.0
  {
    spent / budget
  }

  function Reached(thresholds: seq<real>, fraction: real): set<real> {
    set t | t in thresholds && t <= fraction
  }

  /** The thresholds that the spend has reached, once there is a budget and a spend. */
  function Crossed(thresholds: seq<real>, budget: real, spent: real): set<real> {
    if budget <= 0.0 || spent <= 0.0 then {} else Reached(thresholds, Fraction(spent, budget))
  }

  lemma ReachedNext(thresholds: seq<real>, fraction: real, i: nat)
    requires i < |thresholds|
    ensures Reached(thresholds[..i + 1], fraction) ==
              Reached(thresholds[..i], fraction) + if fraction >= thresholds[i] then {thresholds[i]} else {}
  {
    assert thresholds[..i + 1] == thresholds[..i] + [thresholds[i]];
  }

  lemma CrossedByFraction(thresholds: seq<real>, budget: real, spent: real)
    requires spent > 0.0
    ensures Crossed(thresholds, budget, spent) ==
              if budget <= 0.0 then {} else Reached(thresholds, Fraction(spent, budget))
  {
  }

  /** The first i thresholds have been looked at; one alert was raised for each that newly fired. */
  ghost predicate Alerted(
    before: set<real>, fired: set<real>, thresholds: seq<real>, i: nat, a: Alert, alerts: seq<Alert>)
    requires i <= |thresholds|
  {
    && fired == before + Reached(thresholds[..i], a.fraction)
    && |alerts| == |fired - before|
    && forall b :: b in alerts ==> b == a
  }

  lemma NoneAlerted(before: set<real>, thresholds: seq<real>)
    ensures before - before == {}
    ensures forall a: Alert :: Alerted(before, before, thresholds, 0, a, [])
  {
    forall a: Alert ensures Alerted(before, before, thresholds, 0, a, []) {
      assert Reached(thresholds[..0], a.fraction) == {};
      assert before - before == {};
    }
  }

  lemma AlertNext(before: set<real>, fired: set<real>, thresholds: seq<real>, i: nat, a: Alert, alerts: seq<Alert>)
    requires i < |thresholds| && Alerted(before, fired, thresholds, i, a, alerts)
    ensures var t := thresholds[i];
            if a.fraction >= t && t !in fired then Alerted(before, fired + {t}, thresholds, i + 1, a, alerts + [a])
            else Alerted(before, fired, thresholds, i + 1, a, alerts)
  {
    ReachedNext(thresholds, a.fraction, i);
    var t := thresholds[i];
    if a.fraction >= t && t !in fired {
      FiredOneMore(before, fired, t);
    }
    hide Reached;
  }

  lemma AllAlerted(before: set<real>, fired: set<real>, thresholds: seq<real>, a: Alert, alerts: seq<Alert>)
    requires Alerted(before, fired, thresholds, |thresholds|, a, alerts)
    requires before <= Reached(thresholds, a.fraction)
    ensures fired == Reached(thresholds, a.fraction) && |alerts| == |fired - before|
            && forall b :: b in alerts ==> b == a
  {
    assert thresholds[..|thresholds|] == thresholds;
    hide Reached;
  }

  lemma FiredOneMore(before: set<real>, fired: set<real>, t: real)
    requires before <= fired && t !in fired
    ensures |fired + {t} - before| == |fired - before| + 1
  {
    assert fired + {t} - before == (fired - before) + {t};
  }

  lemma CostIsNonnegative(c: Call)
    ensures EstimateCallCostUSD(c) >= 0.0
  {
    var p := PricingFor(c.model);
    ProductNonnegative(c.promptChars as real / CHARS_PER_TOKEN / MILLION, p.input);
    ProductNonnegative(c.responseChars as real / CHARS_PER_TOKEN / MILLION, p.output);
    hide PricingFor;
  }

  lemma ProductNonnegative(x: real, y: real)
    requires x >= 0.0 && y >= 0.0
    ensures x * y >= 0.0
  {
  }

  /** A threshold once reached stays reached. */
  lemma CrossedGrows(thresholds: seq<real>, budget: real, spent: real, spent': real)
    requires spent <= spent'
    ensures Crossed(thresholds, budget, spent) <= Crossed(thresholds, budget, spent')
  {
    if budget > 0.0 {
      QuotientMonotone(spent, spent', budget);
    }
  }

  function Itself(x: real): real { x }

  // ---------------------------------------------------------------------- tracker

  class CostTracker {
    const budget: real
    const thresholds: seq<real>
    var spent: real
    var fired: set<real>

    constructor (budget: real, given: seq<real>)
      ensures this.budget == budget && spent == 0.0 && fired == {}
      ensures Ascending(Itself, thresholds)
      ensures multiset(thresholds) == multiset(if given == [] then [0.5, 0.8, 1.0] else given)
    {
      var chosen := if |given| == 0 then [0.5, 0.8, 1.0] else given;
      SortIsStable(Itself, chosen);
      this.budget := budget;
      thresholds := SortBy(Itself, chosen);
      spent := 0.0;
      fired := {};
    }

    /** Charges one call; alerts once for each distinct threshold it is the first to reach. */
    method Record(c: Call) returns (alerts: seq<Alert>)
      requires fired == Crossed(thresholds, budget, spent) && spent >= 0.0
      modifies this
      ensures var cost := EstimateCallCostUSD(c);
              spent == old(spent) + if cost <= 0.0 then 0.0 else cost
      ensures fired == Crossed(thresholds, budget, spent) && old(fired) <= fired
      ensures |alerts| == |fired - old(fired)|
      ensures forall a :: a in alerts ==>
                budget > 0.0 && a == Alert(spent, budget, Fraction(spent, budget), Fraction(spent, budget) >= 1.0)
    {
      var cost := EstimateCallCostUSD(c);
      alerts := [];
      if cost <= 0.0 {
        return;
      }
      hide EstimateCallCostUSD, Fraction, Crossed, Alerted;
      ghost var before := fired;
      CrossedGrows(thresholds, budget, spent, spent + cost);
      spent := spent + cost;
      CrossedByFraction(thresholds, budget, spent);
      NoneAlerted(before, thresholds);
      if budget > 0.0 {
        var fraction := Fraction(spent, budget);
        for i := 0 to |thresholds|
          invariant Alerted(before, fired, thresholds, i, Alert(spent, budget, fraction, fraction >= 1.0), alerts)
          modifies this`fired
        {
          AlertNext(before, fired, thresholds, i, Alert(spent, budget, fraction, fraction >= 1.0), alerts);
          var t := thresholds[i];
          if fraction >= t && t !in fired {
            fired := fired + {t};
            alerts := alerts + [Alert(spent, budget, fraction, fraction >= 1.0)];
          }
        }
        AllAlerted(before, fired, thresholds, Alert(spent, budget, fraction, fraction >= 1.0), alerts);
      }
    }

    method WithinBudget() returns (ok: bool)
      ensures ok <==> budget <= 0.0 || spent < budget
    {
      if budget <= 0.0 {
        return true;
      }
      return spent < budget;
    }
  }

  lemma NothingCrossed(thresholds: seq<real>, budget: real)
    ensures Crossed(thresholds, budget, 0.0) == {}
  {
  }

  lemma SplitSet(before: set<real>, after: set<real>)
    requires before <= after
    ensures |after| == |before| + |after - before|
  {
    assert before + (after - before) == after;
  }

  /** The alerts of a run: at each call one for every threshold newly reached, telling the spend at that moment. */
  function AlertsOf(thresholds: seq<real>, budget: real, calls: seq<Call>): seq<Alert> {
    if calls == [] then []
    else
      AlertsOf(thresholds, budget, calls[..|calls| - 1])
      + NewAlerts(thresholds, budget, Spend(calls[..|calls| - 1]), Spend(calls))
  }

  function NewAlerts(thresholds: seq<real>, budget: real, before: real, spent: real): seq<Alert> {
    if budget <= 0.0 then []
    else
      var fraction := Fraction(spent, budget);
      seq(|Crossed(thresholds, budget, spent) - Crossed(thresholds, budget, before)|,
          _ => Alert(spent, budget, fraction, fraction >= 1.0))
  }

  lemma RecordedAlerts(thresholds: seq<real>, budget: real, before: real, spent: real, alerts: seq<Alert>)
    requires |alerts| == |Crossed(thresholds, budget, spent) - Crossed(thresholds, budget, before)|
    requires forall a :: a in alerts ==>
               budget > 0.0 && a == Alert(spent, budget, Fraction(spent, budget), Fraction(spent, budget) >= 1.0)
    ensures alerts == NewAlerts(thresholds, budget, before, spent)
  {
    assert forall i :: 0 <= i < |alerts| ==> alerts[i] in alerts;
    hide Fraction;
  }

  /** A whole run of calls through a new tracker. */
  method RecordAll(budget: real, given: seq<real>, calls: seq<Call>) returns (t: CostTracker, alerts: seq<Alert>)
    ensures multiset(t.thresholds) == multiset(if given == [] then [0.5, 0.8, 1.0] else given)
    ensures t.spent == Spend(calls) >= 0.0
    ensures t.budget == budget && t.fired == Crossed(t.thresholds, budget, Spend(calls))
    ensures alerts == AlertsOf(t.thresholds, budget, calls) && |alerts| == |t.fired|
  {
    t := new CostTracker(budget, given);
    alerts := [];
    hide EstimateCallCostUSD, Crossed, Fraction, NewAlerts;
    NothingCrossed(t.thresholds, budget);
    for i := 0 to |calls|
      invariant fresh(t) && t.budget == budget
      invariant multiset(t.thresholds) == multiset(if given == [] then [0.5, 0.8, 1.0] else given)
      invariant t.spent == Spend(calls[..i]) >= 0.0
      invariant t.fired == Crossed(t.thresholds, budget, t.spent)
      invariant alerts == AlertsOf(t.thresholds, budget, calls[..i]) && |alerts| == |t.fired|
    {
      assert calls[..i + 1][..i] == calls[..i];
      ghost var before, spent := t.fired, t.spent;
      var more := t.Record(calls[i]);
      SplitSet(before, t.fired);
      RecordedAlerts(t.thresholds, budget, spent, t.spent, more);
      alerts := alerts + more;
    }
    assert calls[..|calls|] == calls;
  }

  /**
   Every alert of a run tells a positive spend, up to the final one, and its fraction of the
   budget, which is at least some threshold.
   */
  lemma {:induction false} AlertsTell(thresholds: seq<real>, budget: real, calls: seq<Call>)
    ensures forall a :: a in AlertsOf(thresholds, budget, calls) ==>
              && budget > 0.0 && a.budget == budget && 0.0 < a.spent <= Spend(calls)
              && a.fraction == Fraction(a.spent, budget) && (a.exceeded <==> a.spent >= budget)
              && exists t :: t in thresholds && t <= a.fraction
  {
    if calls == [] {
    } else {
      var init := calls[..|calls| - 1];
      AlertsTell(thresholds, budget, init);
      SpendGrows(init);
      SpendNext(calls);
      NewAlertsTell(thresholds, budget, Spend(init), Spend(calls));
      hide Spend, NewAlerts, Fraction;
    }
  }

  lemma SpendNext(calls: seq<Call>)
    requires calls != []
    ensures Spend(calls[..|calls| - 1]) <= Spend(calls)
  {
  }

  lemma NewAlertsTell(thresholds: seq<real>, budget: real, before: real, spent: real)
    requires 0.0 <= before <= spent
    ensures forall a :: a in NewAlerts(thresholds, budget, before, spent) ==>
              && budget > 0.0 && a.budget == budget && 0.0 < a.spent == spent
              && a.fraction == Fraction(a.spent, budget) && (a.exceeded <==> a.spent >= budget)
              && exists t :: t in thresholds && t <= a.fraction
  {
    if budget > 0.0 {
      WholeBudget(spent, budget);
      var newly := Crossed(thresholds, budget, spent) - Crossed(thresholds, budget, before);
      if newly != {} {
        var t :| t in newly;
        assert t in thresholds && t <= Fraction(spent, budget);
      }
      hide Fraction;
    }
  }

  // ----------------------------------------------------------------- all the runs

  lemma {:induction false} SpendOfConcat(a: seq<Call>, b: seq<Call>)
    ensures Spend(a + b) == Spend(a) + Spend(b)
  {
    hide EstimateCallCostUSD;
    if b == [] {
      assert a + b == a;
    } else {
      SpendOfConcat(a, b[..|b| - 1]);
      assert (a + b)[..|a + b| - 1] == a + b[..|b| - 1];
    }
  }

  lemma {:induction false} SpendGrows(calls: seq<Call>)
    ensures Spend(calls) >= 0.0
  {
    if calls == [] {
    } else {
      SpendGrows(calls[..|calls| - 1]);
    }
  }

  lemma TakeOut(b: seq<Call>, i: nat)
    requires i < |b|
    ensures var rest := b[..i] + b[i + 1..];
            multiset(rest) == multiset(b) - multiset{b[i]} && Spend(b) == Spend(rest) + Spend([b[i]])
  {
    assert b == b[..i] + [b[i]] + b[i + 1..];
    SpendOfConcat(b[..i] + [b[i]], b[i + 1..]);
    SpendOfConcat(b[..i], [b[i]]);
    SpendOfConcat(b[..i], b[i + 1..]);
    hide Spend;
  }

  /** The final spend, and so the thresholds fired, depend on which calls were made, not on their order. */
  lemma {:induction false} OrderDoesNotMatter(a: seq<Call>, b: seq<Call>)
    requires multiset(a) == multiset(b)
    ensures Spend(a) == Spend(b)
    decreases |a|
  {
    if a == [] {
      assert |b| == |multiset(b)| == 0;
    } else {
      assert a[0] in multiset(b);
      var i :| 0 <= i < |b| && b[i] == a[0];
      TakeOut(a, 0);
      TakeOut(b, i);
      OrderDoesNotMatter(a[..0] + a[1..], b[..i] + b[i + 1..]);
      hide Spend;
    }
  }

  lemma WholeBudget(spent: real, budget: real)
    requires budget > 0.0
    ensures spent >= budget <==> Fraction(spent, budget) >= 1.0
  {
    if spent >= budget {
      QuotientMonotone(budget, spent, budget);
    } else {
      assert Fraction(spent, budget) * budget == spent;
    }
  }

  /**
   As calls go on, no threshold is taken back, and once the spend has reached a budget every
   later check of the budget fails; the whole-budget threshold marks exactly that point.
   */
  lemma NothingIsTakenBack(thresholds: seq<real>, budget: real, calls: seq<Call>, more: seq<Call>)
    ensures Crossed(thresholds, budget, Spend(calls)) <= Crossed(thresholds, budget, Spend(calls + more))
    ensures budget > 0.0 && Spend(calls) >= budget ==> Spend(calls + more) >= budget
    ensures 1.0 in thresholds && budget > 0.0 ==>
            (1.0 in Crossed(thresholds, budget, Spend(calls)) <==> Spend(calls) >= budget)
  {
    SpendOfConcat(calls, more);
    SpendGrows(more);
    CrossedGrows(thresholds, budget, Spend(calls), Spend(calls + more));
    if budget > 0.0 {
      WholeBudget(Spend(calls), budget);
    }
    hide Fraction, Spend;
  }

  // ------------------------------------------------------------- what it comes to

  lemma CostIsLinear(prompt: real, response: real, p: Pricing)
    ensures (prompt / 4.0) / 1_000_000.0 * p.input + (response / 4.0) / 1_000_000.0 * p.output
         == (prompt * p.input + response * p.output) / 4_000_000.0
  {
  }

  /** A call costs this much, in dollars for a million tokens of four characters each. */
  predicate Costs(c: Call, input: real, output: real) {
    EstimateCallCostUSD(c) == (c.promptChars as real * input + c.responseChars as real * output) / 4_000_000.0
  }

  lemma CostsAsPriced(c: Call)
    ensures Costs(c, PricingFor(c.model).input, PricingFor(c.model).output)
  {
    CostIsLinear(c.promptChars as real, c.responseChars as real, PricingFor(c.model));
    hide PricingFor;
  }

  /** What characters cost in each family of models; what is not known costs as much as Opus. */
  lemma FamilyCosts(c: Call)
    ensures c.model == "" || c.model == "dev" ==> Costs(c, 0.0, 0.0)
    ensures "text-embedding-3-large" <= c.model ==> Costs(c, 0.13, 0.0)
    ensures "text-embedding" <= c.model && !("text-embedding-3-large" <= c.model) ==> Costs(c, 0.02, 0.0)
    ensures "claude-fable" <= c.model || "claude-mythos" <= c.model ==> Costs(c, 10.0, 50.0)
    ensures "claude-opus" <= c.model ==> Costs(c, 5.0, 25.0)
    ensures "claude-sonnet" <= c.model ==> Costs(c, 3.0, 15.0)
    ensures "claude-haiku" <= c.model ==> Costs(c, 1.0, 5.0)
    ensures c.model != "" && c.model[0] != 't' && !("claude-" <= c.model) && c.model != "dev" ==> Costs(c, 5.0, 25.0)
  {
    CostsAsPriced(c);
    FamilyPrices(c.model);
    hide Costs, PricingFor;
  }

  lemma FamilyPrices(m: string)
    ensures m == "" || m == "dev" ==> PricingFor(m) == Pricing(0.0, 0.0)
    ensures "text-embedding-3-large" <= m ==> PricingFor(m) == Pricing(0.13, 0.0)
    ensures "text-embedding" <= m && !("text-embedding-3-large" <= m) ==> PricingFor(m) == Pricing(0.02, 0.0)
    ensures "claude-fable" <= m || "claude-mythos" <= m ==> PricingFor(m) == Pricing(10.0, 50.0)
    ensures "claude-opus" <= m ==> PricingFor(m) == Pricing(5.0, 25.0)
    ensures "claude-sonnet" <= m ==> PricingFor(m) == Pricing(3.0, 15.0)
    ensures "claude-haiku" <= m ==> PricingFor(m) == Pricing(1.0, 5.0)
    ensures m != "" && m[0] != 't' && !("claude-" <= m) && m != "dev" ==> PricingFor(m) == Pricing(5.0, 25.0)
  {
    assert "text-embedding" <= m ==> m[0] == 't';
    assert "claude-opus" <= m ==> m[0] == 'c' && m[7] == 'o';
    assert "claude-sonnet" <= m ==> m[0] == 'c' && m[7] == 's';
    assert "claude-haiku" <= m ==> m[0] == 'c' && m[7] == 'h';
    assert "claude-fable" <= m ==> m[0] == 'c' && m[7] == 'f';
    assert "claude-mythos" <= m ==> m[0] == 'c' && m[7] == 'm';
    if m != "" && m[0] != 't' && !("claude-" <= m) {
      assert !("claude-fable" <= m) && !("claude-mythos" <= m) && !("claude-opus" <= m)
             && !("claude-sonnet" <= m) && !("claude-haiku" <= m) by {
        NotClaude(m, "claude-fable");
        NotClaude(m, "claude-mythos");
        NotClaude(m, "claude-opus");
        NotClaude(m, "claude-sonnet");
        NotClaude(m, "claude-haiku");
      }
    }
  }

  lemma NotClaude(m: string, family: string)
    requires "claude-" <= family && !("claude-" <= m)
    ensures !(family <= m)
  {
  }

  /** Spending starts at nothing and adds up what the calls cost. */
  lemma SpendOfMore(calls: seq<Call>, c: Call)
    ensures Spend([]) == 0.0 && Spend(calls + [c]) == Spend(calls) + EstimateCallCostUSD(c)
  {
    assert (calls + [c])[..|calls|] == calls;
    CostIsNonnegative(c);
    hide EstimateCallCostUSD;
  }

  /** A threshold has been crossed when the spend is at least that part of the budget. */
  lemma CrossedIff(thresholds: seq<real>, budget: real, spent: real, t: real)
    ensures t in Crossed(thresholds, budget, spent) <==>
              t in thresholds && budget > 0.0 && spent > 0.0 && t * budget <= spent
  {
    if budget > 0.0 {
      AtLeastPart(t, spent, budget);
    }
  }

  lemma AtLeastPart(t: real, spent: real, budget: real)
    requires budget > 0.0
    ensures t <= Fraction(spent, budget) <==> t * budget <= spent
  {
    FractionIs(spent, budget);
    if t <= Fraction(spent, budget) {
      MoreOfBudget(t, Fraction(spent, budget), budget);
    } else {
      assert t * budget - Fraction(spent, budget) * budget == (t - Fraction(spent, budget)) * budget > 0.0;
    }
    hide Fraction;
  }

  lemma MoreOfBudget(x: real, y: real, budget: real)
    requires x <= y && budget > 0.0
    ensures x * budget <= y * budget
  {
  }

  lemma FractionIs(spent: real, budget: real)
    requires budget > 0.0
    ensures Fraction(spent, budget) * budget == spent
  {
  }
}

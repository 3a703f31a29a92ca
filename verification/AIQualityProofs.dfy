/** The quality summary is a function of the bag of calls, and its breakdowns add up. */
module AIQualityProofs {
  import opened Sorting
  import opened Sums
  import opened AIQuality

  // ------------------------------------------------------------------ permutation

  lemma {:induction false} OfCounts(calls: seq<Call>, op: string, c: Call)
    ensures multiset(Of(calls, op))[c] == if c.operation == op then multiset(calls)[c] else 0
  {
    if calls == [] {
    } else {
      var init, last := calls[..|calls| - 1], calls[|calls| - 1];
      OfCounts(init, op, c);
      assert calls == init + [last];
    }
  }

  lemma OfPermutes(a: seq<Call>, b: seq<Call>, op: string)
    requires multiset(a) == multiset(b)
    ensures multiset(Of(a, op)) == multiset(Of(b, op))
  {
    forall c ensures multiset(Of(a, op))[c] == multiset(Of(b, op))[c] {
      OfCounts(a, op, c);
      OfCounts(b, op, c);
    }
  }

  function Took(v: int): Call -> int { (c: Call) => if c.latency == v then 1 else 0 }

  lemma {:induction false} LatencyCounts(calls: seq<Call>, v: int)
    ensures multiset(Latencies(calls))[v] == Sum(calls, Took(v))
  {
    if calls == [] {
    } else {
      var init, last := calls[..|calls| - 1], calls[|calls| - 1];
      LatencyCounts(init, v);
      LatenciesNext(init, last);
      assert calls == init + [last];
    }
  }

  lemma LatenciesPermute(a: seq<Call>, b: seq<Call>)
    requires multiset(a) == multiset(b)
    ensures multiset(Latencies(a)) == multiset(Latencies(b))
  {
    forall v ensures multiset(Latencies(a))[v] == multiset(Latencies(b))[v] {
      LatencyCounts(a, v);
      LatencyCounts(b, v);
      SumPermutes(a, b, Took(v));
    }
  }

  lemma CountsUnique(a: seq<Call>, b: seq<Call>, m: map<string, int>, n: map<string, int>)
    requires multiset(a) == multiset(b) && Counts(a, m) && Counts(b, n)
    ensures m == n
  {
    forall k: string ensures (k in m <==> k in n) && (k in m ==> m[k] == n[k]) {
      SumPermutes(a, b, TrippedIn(k));
      assert Get(m, k) == Get(n, k);
    }
  }

  lemma OperationUnique(a: seq<Call>, b: seq<Call>, s: OperationStats, t: OperationStats)
    requires multiset(a) == multiset(b) && SummarizesOperation(a, s) && SummarizesOperation(b, t)
    ensures s == t
  {
    SameLength(a, b);
    SumPermutes(a, b, Failed);
    SumPermutes(a, b, JsonFailed);
    SumPermutes(a, b, Refused);
    SumPermutes(a, b, Tripped);
    CountsUnique(a, b, s.tripsByCategory, t.tripsByCategory);
    LatenciesPermute(a, b);
    PercentilePermutes(Latencies(a), Latencies(b), 0.95);
    hide Sum, Counts, Percentile, Latencies, Ratio;
  }

  lemma TotalsUnique(a: seq<Call>, b: seq<Call>, s: Stats, t: Stats)
    requires multiset(a) == multiset(b) && Totals(a, s) && Totals(b, t)
    ensures s.calls == t.calls && s.failed == t.failed && s.jsonFailures == t.jsonFailures && s.refusals == t.refusals
    ensures s.trips == t.trips && s.inputChars == t.inputChars && s.outputChars == t.outputChars
    ensures s.tripsByCategory == t.tripsByCategory
  {
    SameLength(a, b);
    SumPermutes(a, b, Failed);
    SumPermutes(a, b, JsonFailed);
    SumPermutes(a, b, Refused);
    SumPermutes(a, b, Tripped);
    SumPermutes(a, b, Input);
    SumPermutes(a, b, Output);
    CountsUnique(a, b, s.tripsByCategory, t.tripsByCategory);
    hide Sum, Counts;
  }

  lemma BreakdownUnique(a: seq<Call>, b: seq<Call>, s: Stats, t: Stats)
    requires multiset(a) == multiset(b) && Summarizes(a, s) && Summarizes(b, t)
    ensures s.byOperation == t.byOperation
  {
    forall op: string
      ensures op in s.byOperation <==> op in t.byOperation
      ensures op in s.byOperation ==> s.byOperation[op] == t.byOperation[op]
    {
      OfPermutes(a, b, op);
      SameLength(Of(a, op), Of(b, op));
      if op in s.byOperation && op in t.byOperation {
        OperationUnique(Of(a, op), Of(b, op), s.byOperation[op], t.byOperation[op]);
      }
    }
    hide Summarizes;
  }

  /** Whatever the order of the calls, the summary is the same; there is only one for a bag of calls. */
  lemma SummaryOfBag(a: seq<Call>, b: seq<Call>, s: Stats, t: Stats)
    requires multiset(a) == multiset(b) && Summarizes(a, s) && Summarizes(b, t)
    ensures s == t
  {
    TotalsUnique(a, b, s, t);
    BreakdownUnique(a, b, s, t);
    LatenciesPermute(a, b);
    PercentilePermutes(Latencies(a), Latencies(b), 0.5);
    PercentilePermutes(Latencies(a), Latencies(b), 0.95);
    hide Totals, Percentile, Latencies, Ratio, Of, SummarizesOperation;
  }

  // ----------------------------------------------------------------- conservation

  /** The share of f that falls to each operation. */
  function ShareOf(calls: seq<Call>, f: Call -> int): string -> int {
    (op: string) => Sum(Of(calls, op), f)
  }

  ghost predicate Distinct<T>(s: seq<T>) {
    forall i, j :: 0 <= i < j < |s| ==> s[i] != s[j]
  }

  lemma {:induction false} SumOfZero<T>(s: seq<T>, f: T -> int)
    requires forall x :: x in s ==> f(x) == 0
    ensures Sum(s, f) == 0
  {
    if s == [] {
    } else {
      SumOfZero(s[..|s| - 1], f);
    }
  }

  lemma ShareNext(calls: seq<Call>, c: Call, f: Call -> int, op: string)
    ensures ShareOf(calls + [c], f)(op) == ShareOf(calls, f)(op) + if op == c.operation then f(c) else 0
  {
    OfNext(calls, c, op);
    if op == c.operation {
      SumNext(Of(calls, op), c, f);
    } else {
      assert Of(calls + [c], op) == Of(calls, op);
    }
  }

  lemma SharesNext(calls: seq<Call>, c: Call, ops: seq<string>, f: Call -> int)
    requires Distinct(ops) && c.operation in ops && Sum(ops, ShareOf(calls, f)) == Sum(calls, f)
    ensures Sum(ops, ShareOf(calls + [c], f)) == Sum(calls + [c], f)
  {
    forall op ensures ShareOf(calls + [c], f)(op) == ShareOf(calls, f)(op) + if op == c.operation then f(c) else 0 {
      ShareNext(calls, c, f, op);
    }
    SumNext(calls, c, f);
    hide Sum, ShareOf, Of;
    SumBump(ops, ShareOf(calls, f), ShareOf(calls + [c], f), c.operation, f(c));
  }

  /** Whatever is counted, the operations' shares add up to the whole. */
  lemma {:induction false} SharesAddUp(calls: seq<Call>, ops: seq<string>, f: Call -> int)
    requires Distinct(ops) && forall c :: c in calls ==> c.operation in ops
    ensures Sum(ops, ShareOf(calls, f)) == Sum(calls, f)
  {
    if calls == [] {
      SumOfZero(ops, ShareOf(calls, f));
    } else {
      var init, last := calls[..|calls| - 1], calls[|calls| - 1];
      assert calls == init + [last] && last in calls;
      hide Sum, ShareOf;
      SharesAddUp(init, ops, f);
      SharesNext(init, last, ops, f);
    }
  }

  lemma {:induction false} OfNonempty(calls: seq<Call>, op: string)
    ensures Of(calls, op) != [] <==> exists c :: c in calls && c.operation == op
  {
    if calls == [] {
    } else {
      var init, last := calls[..|calls| - 1], calls[|calls| - 1];
      OfNonempty(init, op);
      assert calls == init + [last];
    }
  }

  /** A field of the breakdown, by operation. */
  function Reported(s: Stats, field: OperationStats -> int): string -> int {
    (op: string) => if op in s.byOperation then field(s.byOperation[op]) else 0
  }

  function CallsField(o: OperationStats): int { o.calls }
  function FailedField(o: OperationStats): int { o.failed }
  function JsonField(o: OperationStats): int { o.jsonFailures }
  function RefusalsField(o: OperationStats): int { o.refusals }
  function TripsField(o: OperationStats): int { o.trips }
  function CategoryField(category: string): OperationStats -> int {
    (o: OperationStats) => Get(o.tripsByCategory, category)
  }

  /** field reports, for an operation, what f adds up to over its calls. */
  ghost predicate Reports(field: OperationStats -> int, f: Call -> int) {
    forall calls, o :: SummarizesOperation(calls, o) ==> field(o) == Sum(calls, f)
  }

  lemma FieldAddsUp(calls: seq<Call>, s: Stats, ops: seq<string>, field: OperationStats -> int, f: Call -> int)
    requires Summarizes(calls, s) && Distinct(ops) && (forall op :: op in ops <==> op in s.byOperation)
    requires Reports(field, f)
    ensures Sum(ops, Reported(s, field)) == Sum(calls, f)
  {
    forall c | c in calls ensures c.operation in ops {
      OfNonempty(calls, c.operation);
    }
    SharesAddUp(calls, ops, f);
    forall op | op in ops ensures Reported(s, field)(op) == ShareOf(calls, f)(op) {
      assert SummarizesOperation(Of(calls, op), s.byOperation[op]);
    }
    SumAgrees(ops, Reported(s, field), ShareOf(calls, f));
  }

  lemma {:induction false} SumOfOnes(calls: seq<Call>)
    ensures Sum(calls, One) == |calls|
  {
    if calls == [] {
    } else {
      SumOfOnes(calls[..|calls| - 1]);
    }
  }

  lemma FieldsReport(category: string)
    ensures Reports(CallsField, One) && Reports(FailedField, Failed) && Reports(JsonField, JsonFailed)
    ensures Reports(RefusalsField, Refused) && Reports(TripsField, Tripped)
    ensures Reports(CategoryField(category), TrippedIn(category))
  {
    forall calls, o | SummarizesOperation(calls, o) ensures CallsField(o) == Sum(calls, One) {
      SumOfOnes(calls);
    }
  }

  /** Every count of the breakdown adds up, over the operations, to the corresponding total. */
  lemma BreakdownAddsUp(calls: seq<Call>, s: Stats, ops: seq<string>, category: string)
    requires Summarizes(calls, s) && Distinct(ops) && (forall op :: op in ops <==> op in s.byOperation)
    ensures Sum(ops, Reported(s, CallsField)) == s.calls
    ensures Sum(ops, Reported(s, FailedField)) == s.failed
    ensures Sum(ops, Reported(s, JsonField)) == s.jsonFailures
    ensures Sum(ops, Reported(s, RefusalsField)) == s.refusals
    ensures Sum(ops, Reported(s, TripsField)) == s.trips
    ensures Sum(ops, Reported(s, CategoryField(category))) == Get(s.tripsByCategory, category)
  {
    FieldsReport(category);
    SumOfOnes(calls);
    hide Reports, Sum;
    FieldAddsUp(calls, s, ops, CallsField, One);
    FieldAddsUp(calls, s, ops, FailedField, Failed);
    FieldAddsUp(calls, s, ops, JsonField, JsonFailed);
    FieldAddsUp(calls, s, ops, RefusalsField, Refused);
    FieldAddsUp(calls, s, ops, TripsField, Tripped);
    FieldAddsUp(calls, s, ops, CategoryField(category), TrippedIn(category));
  }

  // ------------------------------------------------------------------- categories

  function Occurrences(trips: seq<string>): string -> int { (k: string) => multiset(trips)[k] }

  lemma {:induction false} OccurrencesAddUp(trips: seq<string>, categories: seq<string>)
    requires Distinct(categories) && forall k :: k in trips ==> k in categories
    ensures Sum(categories, Occurrences(trips)) == |trips|
  {
    if trips == [] {
      SumOfZero(categories, Occurrences(trips));
    } else {
      var init, last := trips[..|trips| - 1], trips[|trips| - 1];
      assert trips == init + [last];
      OccurrencesAddUp(init, categories);
      SumBump(categories, Occurrences(init), Occurrences(trips), last, 1);
    }
  }

  lemma {:induction false} SumOfSums<T>(s: seq<T>, f: T -> int, g: T -> int, h: T -> int)
    requires forall x :: x in s ==> h(x) == f(x) + g(x)
    ensures Sum(s, h) == Sum(s, f) + Sum(s, g)
  {
    if s == [] {
    } else {
      SumOfSums(s[..|s| - 1], f, g, h);
    }
  }

  /** The calls' trips in each category. */
  function InCategory(calls: seq<Call>): string -> int { (k: string) => Sum(calls, TrippedIn(k)) }

  lemma {:induction false} CategoriesCover(calls: seq<Call>, categories: seq<string>)
    requires Distinct(categories) && forall c :: c in calls ==> forall k :: k in c.trips ==> k in categories
    ensures Sum(categories, InCategory(calls)) == Sum(calls, Tripped)
  {
    if calls == [] {
      SumOfZero(categories, InCategory(calls));
    } else {
      var init, last := calls[..|calls| - 1], calls[|calls| - 1];
      CategoriesCover(init, categories);
      assert last in calls;
      OccurrencesAddUp(last.trips, categories);
      SumOfSums(categories, InCategory(init), Occurrences(last.trips), InCategory(calls));
    }
  }

  lemma {:induction false} TripIsCounted(calls: seq<Call>, c: Call, k: string)
    requires c in calls && k in c.trips
    ensures Sum(calls, TrippedIn(k)) > 0
  {
    var init, last := calls[..|calls| - 1], calls[|calls| - 1];
    TripsNonnegative(init, k);
    if last != c {
      assert c in init;
      TripIsCounted(init, c, k);
    } else {
      assert k in multiset(c.trips);
    }
  }

  lemma {:induction false} TripsNonnegative(calls: seq<Call>, k: string)
    ensures Sum(calls, TrippedIn(k)) >= 0
  {
    if calls == [] {
    } else {
      TripsNonnegative(calls[..|calls| - 1], k);
    }
  }

  function CategoryCount(s: Stats): string -> int { (k: string) => Get(s.tripsByCategory, k) }

  /** The categories' counts add up to the trips. */
  lemma CategoriesAddUp(calls: seq<Call>, s: Stats, categories: seq<string>)
    requires Summarizes(calls, s) && Distinct(categories) && (forall k :: k in categories <==> k in s.tripsByCategory)
    ensures Sum(categories, CategoryCount(s)) == s.trips
  {
    forall c, k | c in calls && k in c.trips ensures k in categories {
      TripIsCounted(calls, c, k);
      assert Get(s.tripsByCategory, k) > 0;
    }
    CategoriesCover(calls, categories);
    SumAgrees(categories, CategoryCount(s), InCategory(calls));
  }

  // -------------------------------------------------------------- counts, spelled out

  lemma NoElements(hits: set<int>)
    requires forall i :: i !in hits
    ensures |hits| == 0
  {
    var none: set<int> := {};
    assert forall i :: i in hits <==> i in none;
    assert hits == none;
  }

  lemma {:induction false} SumIsCount<T>(s: seq<T>, f: T -> int, hits: set<int>)
    requires forall i :: 0 <= i < |s| ==> f(s[i]) == if i in hits then 1 else 0
    requires forall i :: i in hits ==> 0 <= i < |s|
    ensures Sum(s, f) == |hits|
  {
    if s == [] {
      NoElements(hits);
    } else {
      var n := |s| - 1;
      SumIsCount(s[..n], f, hits - {n});
      if n in hits {
        assert hits == (hits - {n}) + {n};
      } else {
        assert hits == hits - {n};
      }
    }
  }

  lemma TotalsMean(calls: seq<Call>, s: Stats)
    requires Summarizes(calls, s)
    ensures s.calls == |calls| && s.failed == Sum(calls, Failed)
    ensures s.jsonFailures == Sum(calls, JsonFailed) && s.refusals == Sum(calls, Refused)
  {
    hide Sum, Percentile, Counts, SummarizesOperation, Ratio, Latencies, Of;
  }

  /** Of the calls, how many failed, how many gave broken JSON, and how many were refused. */
  lemma SummaryCounts(calls: seq<Call>, s: Stats)
    requires Summarizes(calls, s)
    ensures s.calls == |calls|
    ensures s.failed == |set i | 0 <= i < |calls| && calls[i].failed|
    ensures s.jsonFailures == |set i | 0 <= i < |calls| && calls[i].jsonFailure|
    ensures s.refusals == |set i | 0 <= i < |calls| && calls[i].refusal|
  {
    TotalsMean(calls, s);
    SumIsCount(calls, Failed, set i | 0 <= i < |calls| && calls[i].failed);
    SumIsCount(calls, JsonFailed, set i | 0 <= i < |calls| && calls[i].jsonFailure);
    SumIsCount(calls, Refused, set i | 0 <= i < |calls| && calls[i].refusal);
    hide Sum, Summarizes;
  }

  predicate IsRate(rate: real, part: int, whole: nat) {
    if whole == 0 then rate == 0.0 else rate * whole as real == part as real
  }

  /** The rates are those counts in the number of calls. */
  lemma SummaryRates(calls: seq<Call>, s: Stats)
    requires Summarizes(calls, s)
    ensures IsRate(s.failureRate, s.failed, |calls|)
    ensures IsRate(s.jsonFailureRate, s.jsonFailures, |calls|)
    ensures IsRate(s.refusalRate, s.refusals, |calls|)
  {
    SummaryParts(calls, s);
    hide *;
    RatioIs(s.failed, |calls|);
    RatioIs(s.jsonFailures, |calls|);
    RatioIs(s.refusals, |calls|);
  }

  lemma SummaryParts(calls: seq<Call>, s: Stats)
    requires Summarizes(calls, s)
    ensures s.failureRate == Ratio(s.failed, |calls|) && s.jsonFailureRate == Ratio(s.jsonFailures, |calls|)
    ensures s.refusalRate == Ratio(s.refusals, |calls|)
    ensures s.p50 == Percentile(Latencies(calls), 0.5) && s.p95 == Percentile(Latencies(calls), 0.95)
  {
    hide Sum, Percentile, Counts, SummarizesOperation, Ratio, Latencies, Of;
  }

  lemma RatioIs(part: int, whole: nat)
    ensures IsRate(Ratio(part, whole), part, whole)
  {
  }

  /** At least p of the values are at most v, and fewer than p of them are below it. */
  predicate IsPercentile(values: seq<int>, p: real, v: int) {
    && v in values
    && (|set i | 0 <= i < |values| && values[i] <= v|) as real >= p * |values| as real
    && (|set i | 0 <= i < |values| && values[i] < v|) as real < p * |values| as real
  }

  lemma CountsAre(values: seq<int>, v: int)
    ensures Sum(values, AtMost(v)) == |set i | 0 <= i < |values| && values[i] <= v|
    ensures Sum(values, Below(v)) == |set i | 0 <= i < |values| && values[i] < v|
  {
    SumIsCount(values, AtMost(v), set i | 0 <= i < |values| && values[i] <= v);
    SumIsCount(values, Below(v), set i | 0 <= i < |values| && values[i] < v);
    hide Sum;
  }

  lemma PercentileIs(values: seq<int>, p: real)
    requires values != [] && 0.0 < p <= 1.0
    ensures IsPercentile(values, p, Percentile(values, p))
  {
    hide *;
    PercentilePart(values, p, p * |values| as real);
  }

  lemma PercentilePart(values: seq<int>, p: real, part: real)
    requires values != [] && 0.0 < p <= 1.0 && part == p * |values| as real
    ensures IsPercentile(values, p, Percentile(values, p))
  {
    hide *;
    PercentileRank(values, p);
    NeedIs(|values|, p, part);
    CountsSuffice(values, p, Percentile(values, p), Need(|values|, p), part);
  }

  lemma CountsSuffice(values: seq<int>, p: real, v: int, need: int, part: real)
    requires part == p * |values| as real && part <= need as real < part + 1.0 && v in values
    requires Sum(values, AtMost(v)) >= need && Sum(values, Below(v)) < need
    ensures IsPercentile(values, p, v)
  {
    CountsAre(values, v);
    hide Sum, AtMost, Below;
  }

  lemma NeedIs(n: nat, p: real, part: real)
    requires part == p * n as real
    ensures part <= Need(n, p) as real < part + 1.0
  {
  }

  /** Half of the latencies lie at or under the one, and 95 in a hundred at or under the other. */
  lemma SummaryLatencies(calls: seq<Call>, s: Stats)
    requires Summarizes(calls, s) && calls != []
    ensures IsPercentile(Latencies(calls), 0.5, s.p50) && IsPercentile(Latencies(calls), 0.95, s.p95)
    ensures |Latencies(calls)| == |calls| && forall i :: 0 <= i < |calls| ==> Latencies(calls)[i] == calls[i].latency
  {
    SummaryParts(calls, s);
    PercentileIs(Latencies(calls), 0.5);
    PercentileIs(Latencies(calls), 0.95);
    hide Percentile, IsPercentile, Summarizes;
  }

  /** One more call adds its characters and its trips, and nothing else, to those of the summary. */
  lemma SummaryOfMore(calls: seq<Call>, c: Call, s: Stats, s': Stats)
    requires Summarizes(calls, s) && Summarizes(calls + [c], s')
    ensures s'.inputChars == s.inputChars + c.promptChars && s'.outputChars == s.outputChars + c.responseChars
    ensures s'.trips == s.trips + |c.trips|
    ensures calls == [] ==> s.inputChars == s.outputChars == s.trips == 0
  {
    SumNext(calls, c, Input);
    SumNext(calls, c, Output);
    SumNext(calls, c, Tripped);
    SummarySums(calls, s);
    SummarySums(calls + [c], s');
    hide Summarizes;
  }

  lemma SummarySums(calls: seq<Call>, s: Stats)
    requires Summarizes(calls, s)
    ensures s.inputChars == Sum(calls, Input) && s.outputChars == Sum(calls, Output) && s.trips == Sum(calls, Tripped)
  {
    hide Sum, Percentile, Counts, SummarizesOperation, Ratio, Latencies, Of;
  }
}

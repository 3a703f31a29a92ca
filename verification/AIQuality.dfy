/** The quality summary over model-call records (internal/app/aiquality.go).  Rates are real numbers. */
module AIQuality {
  import opened Sorting
  import opened Sums

  datatype Call = Call(
    operation: string, promptChars: nat, responseChars: nat, latency: int,
    failed: bool, jsonFailure: bool, refusal: bool, trips: seq<string>)

  datatype OperationStats = OperationStats(
    calls: int, failed: int, failureRate: real, jsonFailures: int, jsonFailureRate: real,
    refusals: int, refusalRate: real, trips: int, tripsByCategory: map<string, int>, p95: int)

  datatype Stats = Stats(
    calls: int, failed: int, failureRate: real, jsonFailures: int, jsonFailureRate: real,
    refusals: int, refusalRate: real, trips: int, tripsByCategory: map<string, int>,
    p50: int, p95: int, inputChars: int, outputChars: int,
    byOperation: map<string, OperationStats>)

  const NOTHING: Stats := Stats(0, 0, 0.0, 0, 0.0, 0, 0.0, 0, map[], 0, 0, 0, 0, map[])

  function Ratio(part: int, whole: int): real {
    if whole == 0 then 0.0 else part as real / whole as real
  }

  // ------------------------------------------------------------------- percentile

  function Duration(d: int): real { d as real }

  function Ceil(x: real): int { -((-x).Floor) }

  /** How many of n values the percentile must cover. */
  function Need(n: int, p: real): int { Ceil(p * n as real) }

  function Rank(n: int, p: real): int {
    var rank := Need(n, p) - 1;
    if rank < 0 then 0 else if rank > n - 1 then n - 1 else rank
  }

  function Percentile(durations: seq<int>, p: real): int {
    var n := |durations|;
    SortIsStable(Duration, durations);
    assert |SortBy(Duration, durations)| == |multiset(SortBy(Duration, durations))| == |multiset(durations)| == n;
    if n == 0 then 0 else SortBy(Duration, durations)[Rank(n, p)]
  }

  function AtMost(v: int): int -> int { x => if x <= v then 1 else 0 }

  function Below(v: int): int -> int { x => if x < v then 1 else 0 }

  lemma {:induction false} CountAtMost(s: seq<int>, v: int, k: nat)
    requires k <= |s| && forall i :: 0 <= i < k ==> s[i] <= v
    ensures Sum(s, AtMost(v)) >= k
  {
    if |s| == 0 {
    } else {
      CountAtMost(s[..|s| - 1], v, if k == |s| then k - 1 else k);
    }
  }

  lemma {:induction false} CountBelow(s: seq<int>, v: int, k: nat)
    requires forall i :: k <= i < |s| ==> s[i] >= v
    ensures Sum(s, Below(v)) <= k
  {
    if |s| > k {
      CountBelow(s[..|s| - 1], v, k);
    } else if |s| > 0 {
      CountBelow(s[..|s| - 1], v, |s| - 1);
    }
  }

  lemma RankIsCeil(n: int, p: real)
    requires n > 0 && 0.0 < p <= 1.0
    ensures 0 <= Rank(n, p) == Need(n, p) - 1 < n
  {
    UnitShare(p, n as real);
    assert 0.0 < p * n as real <= n as real;
  }

  lemma UnitShare(p: real, x: real)
    requires 0.0 < p <= 1.0 && x > 0.0
    ensures 0.0 < p * x <= x
  {
  }

  lemma SortedRank(sorted: seq<int>, r: nat)
    requires r < |sorted| && Ascending(Duration, sorted)
    ensures Sum(sorted, AtMost(sorted[r])) >= r + 1 && Sum(sorted, Below(sorted[r])) <= r
  {
    assert forall i, j :: 0 <= i < j < |sorted| ==> Duration(sorted[i]) <= Duration(sorted[j]);
    CountAtMost(sorted, sorted[r], r + 1);
    CountBelow(sorted, sorted[r], r);
  }

  /** The nearest-rank percentile is a recorded value with enough values at or under it and too few under it. */
  lemma PercentileRank(durations: seq<int>, p: real)
    requires durations != [] && 0.0 < p <= 1.0
    ensures var v, need := Percentile(durations, p), Need(|durations|, p);
            && v in durations
            && Sum(durations, AtMost(v)) >= need
            && Sum(durations, Below(v)) < need
  {
    var n, sorted := |durations|, SortBy(Duration, durations);
    SortIsStable(Duration, durations);
    assert |sorted| == |multiset(sorted)| == |multiset(durations)| == n;
    RankIsCeil(n, p);
    var r := Rank(n, p);
    var v := sorted[r];
    assert Percentile(durations, p) == v;
    hide Percentile, SortBy, Rank, Need, Sum, AtMost, Below;
    assert v in multiset(sorted);
    SortedRank(sorted, r);
    SumPermutes(sorted, durations, AtMost(v));
    SumPermutes(sorted, durations, Below(v));
  }

  lemma PercentilePermutes(a: seq<int>, b: seq<int>, p: real)
    requires multiset(a) == multiset(b)
    ensures Percentile(a, p) == Percentile(b, p)
  {
    assert |a| == |multiset(a)| == |multiset(b)| == |b|;
    SortOfBag(Duration, a, b);
  }

  // ---------------------------------------------------------------- specification

  function One(c: Call): int { 1 }
  function Failed(c: Call): int { if c.failed then 1 else 0 }
  function JsonFailed(c: Call): int { if c.jsonFailure then 1 else 0 }
  function Refused(c: Call): int { if c.refusal then 1 else 0 }
  function Tripped(c: Call): int { |c.trips| }
  function Input(c: Call): int { c.promptChars }
  function Output(c: Call): int { c.responseChars }
  function TrippedIn(category: string): Call -> int { (c: Call) => multiset(c.trips)[category] }

  function Latencies(calls: seq<Call>): seq<int> {
    seq(|calls|, i requires 0 <= i < |calls| => calls[i].latency)
  }

  /** The calls of one operation. */
  function Of(calls: seq<Call>, op: string): seq<Call> {
    if calls == [] then []
    else
      var last := calls[|calls| - 1];
      Of(calls[..|calls| - 1], op) + if last.operation == op then [last] else []
  }

  function Get(m: map<string, int>, k: string): int { if k in m then m[k] else 0 }

  /** m counts the guardrail trips of the calls by category, and names only categories that occur. */
  ghost predicate Counts(calls: seq<Call>, m: map<string, int>) {
    forall category :: Get(m, category) == Sum(calls, TrippedIn(category)) && (category in m ==> m[category] > 0)
  }

  ghost predicate SummarizesOperation(calls: seq<Call>, s: OperationStats) {
    && s.calls == |calls|
    && s.failed == Sum(calls, Failed) && s.failureRate == Ratio(s.failed, s.calls)
    && s.jsonFailures == Sum(calls, JsonFailed) && s.jsonFailureRate == Ratio(s.jsonFailures, s.calls)
    && s.refusals == Sum(calls, Refused) && s.refusalRate == Ratio(s.refusals, s.calls)
    && s.trips == Sum(calls, Tripped) && Counts(calls, s.tripsByCategory)
    && s.p95 == Percentile(Latencies(calls), 0.95)
  }

  ghost predicate Totals(calls: seq<Call>, s: Stats) {
    && s.calls == |calls|
    && s.failed == Sum(calls, Failed) && s.jsonFailures == Sum(calls, JsonFailed)
    && s.refusals == Sum(calls, Refused) && s.trips == Sum(calls, Tripped)
    && s.inputChars == Sum(calls, Input) && s.outputChars == Sum(calls, Output)
    && Counts(calls, s.tripsByCategory)
  }

  ghost predicate Summarizes(calls: seq<Call>, s: Stats) {
    && Totals(calls, s)
    && s.failureRate == Ratio(s.failed, s.calls) && s.jsonFailureRate == Ratio(s.jsonFailures, s.calls)
    && s.refusalRate == Ratio(s.refusals, s.calls)
    && s.p50 == Percentile(Latencies(calls), 0.5) && s.p95 == Percentile(Latencies(calls), 0.95)
    && forall op ::
         && (op in s.byOperation <==> Of(calls, op) != [])
         && (op in s.byOperation ==> SummarizesOperation(Of(calls, op), s.byOperation[op]))
  }

  // ------------------------------------------------------------------ accumulation

  /** The per-operation maps that the accumulation fills. */
  datatype Tables = Tables(
    latencies: map<string, seq<int>>, failed: map<string, int>, jsonFailures: map<string, int>,
    refusals: map<string, int>, trips: map<string, int>, categories: map<string, map<string, int>>)

  function Add(m: map<string, int>, k: string, amount: int): map<string, int> { m[k := Get(m, k) + amount] }

  function CategoriesOf(t: Tables, op: string): map<string, int> {
    if op in t.categories then t.categories[op] else map[]
  }

  function LatenciesOf(t: Tables, op: string): seq<int> {
    if op in t.latencies then t.latencies[op] else []
  }

  /** What the maps hold for an operation is what its own calls add up to. */
  ghost predicate Holds(calls: seq<Call>, t: Tables, op: string) {
    && (op in t.latencies <==> calls != [])
    && LatenciesOf(t, op) == Latencies(calls)
    && Get(t.failed, op) == Sum(calls, Failed)
    && Get(t.jsonFailures, op) == Sum(calls, JsonFailed)
    && Get(t.refusals, op) == Sum(calls, Refused)
    && Get(t.trips, op) == Sum(calls, Tripped)
    && Counts(calls, CategoriesOf(t, op))
  }

  ghost predicate Accumulated(calls: seq<Call>, s: Stats, latencies: seq<int>, t: Tables) {
    Totals(calls, s) && latencies == Latencies(calls) && forall op :: Holds(Of(calls, op), t, op)
  }

  /** The maps agree about an operation. */
  predicate SameFor(t: Tables, t': Tables, op: string) {
    && (op in t.latencies <==> op in t'.latencies) && LatenciesOf(t, op) == LatenciesOf(t', op)
    && Get(t.failed, op) == Get(t'.failed, op) && Get(t.jsonFailures, op) == Get(t'.jsonFailures, op)
    && Get(t.refusals, op) == Get(t'.refusals, op) && Get(t.trips, op) == Get(t'.trips, op)
    && CategoriesOf(t, op) == CategoriesOf(t', op)
  }

  function Flag(b: bool): int { if b then 1 else 0 }

  /** The maps differ at an operation by one more call. */
  predicate OneMoreFor(t: Tables, t': Tables, c: Call) {
    var op := c.operation;
    && op in t'.latencies && LatenciesOf(t', op) == LatenciesOf(t, op) + [c.latency]
    && Get(t'.failed, op) == Get(t.failed, op) + Flag(c.failed)
    && Get(t'.jsonFailures, op) == Get(t.jsonFailures, op) + Flag(c.jsonFailure)
    && Get(t'.refusals, op) == Get(t.refusals, op) + Flag(c.refusal)
    && Get(t'.trips, op) == Get(t.trips, op) + |c.trips|
    && CategoriesOf(t', op) == AddAll(CategoriesOf(t, op), c.trips)
  }

  function AddAll(m: map<string, int>, categories: seq<string>): map<string, int> {
    if categories == [] then m
    else Add(AddAll(m, categories[..|categories| - 1]), categories[|categories| - 1], 1)
  }

  lemma {:induction false} AddAllCounts(m: map<string, int>, categories: seq<string>, k: string)
    requires forall c :: c in m ==> m[c] > 0
    ensures Get(AddAll(m, categories), k) == Get(m, k) + multiset(categories)[k]
    ensures forall c :: c in AddAll(m, categories) ==> AddAll(m, categories)[c] > 0
  {
    if categories == [] {
    } else {
      var init := categories[..|categories| - 1];
      AddAllCounts(m, init, k);
      assert categories == init + [categories[|categories| - 1]];
      forall c | c in AddAll(m, categories) ensures AddAll(m, categories)[c] > 0 {
        AddAllCounts(m, init, c);
      }
    }
  }

  lemma CountsNext(calls: seq<Call>, m: map<string, int>, c: Call)
    requires Counts(calls, m)
    ensures Counts(calls + [c], AddAll(m, c.trips))
  {
    forall category
      ensures Get(AddAll(m, c.trips), category) == Sum(calls + [c], TrippedIn(category))
      ensures category in AddAll(m, c.trips) ==> AddAll(m, c.trips)[category] > 0
    {
      AddAllCounts(m, c.trips, category);
      SumNext(calls, c, TrippedIn(category));
    }
  }

  lemma OfNext(calls: seq<Call>, c: Call, op: string)
    ensures Of(calls + [c], op) == Of(calls, op) + if c.operation == op then [c] else []
  {
    assert (calls + [c])[..|calls|] == calls;
  }

  lemma LatenciesNext(calls: seq<Call>, c: Call)
    ensures Latencies(calls + [c]) == Latencies(calls) + [c.latency]
  {
  }

  lemma HoldsNext(calls: seq<Call>, t: Tables, t': Tables, c: Call)
    requires Holds(calls, t, c.operation) && OneMoreFor(t, t', c)
    ensures Holds(calls + [c], t', c.operation)
  {
    LatenciesNext(calls, c);
    SumNext(calls, c, Failed);
    SumNext(calls, c, JsonFailed);
    SumNext(calls, c, Refused);
    SumNext(calls, c, Tripped);
    CountsNext(calls, CategoriesOf(t, c.operation), c);
    hide Sum, Counts, Latencies, AddAll;
  }

  lemma AccumulatedNext(calls: seq<Call>, s: Stats, latencies: seq<int>, t: Tables, c: Call, s': Stats, t': Tables)
    requires Accumulated(calls, s, latencies, t)
    requires Totals(calls + [c], s')
    requires OneMoreFor(t, t', c) && forall op :: op != c.operation ==> SameFor(t, t', op)
    ensures Accumulated(calls + [c], s', latencies + [c.latency], t')
  {
    LatenciesNext(calls, c);
    forall op ensures Holds(Of(calls + [c], op), t', op) {
      OfNext(calls, c, op);
      if op == c.operation {
        HoldsNext(Of(calls, op), t, t', c);
      } else {
        assert Of(calls + [c], op) == Of(calls, op);
        assert Holds(Of(calls, op), t, op) && SameFor(t, t', op);
      }
    }
  }

  lemma TotalsNext(calls: seq<Call>, s: Stats, c: Call, s': Stats)
    requires Totals(calls, s)
    requires s'.calls == s.calls + 1 && s'.inputChars == s.inputChars + c.promptChars
    requires s'.outputChars == s.outputChars + c.responseChars && s'.failed == s.failed + Flag(c.failed)
    requires s'.jsonFailures == s.jsonFailures + Flag(c.jsonFailure) && s'.refusals == s.refusals + Flag(c.refusal)
    requires s'.trips == s.trips + |c.trips| && s'.tripsByCategory == AddAll(s.tripsByCategory, c.trips)
    ensures Totals(calls + [c], s')
  {
    SumNext(calls, c, Failed);
    SumNext(calls, c, JsonFailed);
    SumNext(calls, c, Refused);
    SumNext(calls, c, Tripped);
    SumNext(calls, c, Input);
    SumNext(calls, c, Output);
    CountsNext(calls, s.tripsByCategory, c);
    hide Sum, Counts, AddAll;
  }

  function AddIf(m: map<string, int>, k: string, amount: int): map<string, int> {
    if amount == 0 then m else Add(m, k, amount)
  }

  /** The maps with one more call. */
  function TablesNext(t: Tables, c: Call): Tables {
    var op := c.operation;
    Tables(t.latencies[op := LatenciesOf(t, op) + [c.latency]],
           AddIf(t.failed, op, Flag(c.failed)), AddIf(t.jsonFailures, op, Flag(c.jsonFailure)),
           AddIf(t.refusals, op, Flag(c.refusal)), AddIf(t.trips, op, |c.trips|),
           if c.trips == [] then t.categories
           else t.categories[op := AddAll(CategoriesOf(t, op), c.trips)])
  }

  /** The totals with one more call; rates, percentiles and the breakdown come later. */
  function TotalsOneMore(s: Stats, c: Call): Stats {
    s.(calls := s.calls + 1, inputChars := s.inputChars + c.promptChars,
       outputChars := s.outputChars + c.responseChars, failed := s.failed + Flag(c.failed),
       jsonFailures := s.jsonFailures + Flag(c.jsonFailure), refusals := s.refusals + Flag(c.refusal),
       trips := s.trips + |c.trips|, tripsByCategory := AddAll(s.tripsByCategory, c.trips))
  }

  lemma CountersNext(t: Tables, c: Call, op: string)
    ensures var t', same := TablesNext(t, c), op != c.operation;
            && Get(t'.failed, op) == Get(t.failed, op) + (if same then 0 else Flag(c.failed))
            && Get(t'.jsonFailures, op) == Get(t.jsonFailures, op) + (if same then 0 else Flag(c.jsonFailure))
            && Get(t'.refusals, op) == Get(t.refusals, op) + (if same then 0 else Flag(c.refusal))
            && Get(t'.trips, op) == Get(t.trips, op) + (if same then 0 else |c.trips|)
  {
    GetAddIf(t.failed, c.operation, Flag(c.failed), op);
    GetAddIf(t.jsonFailures, c.operation, Flag(c.jsonFailure), op);
    GetAddIf(t.refusals, c.operation, Flag(c.refusal), op);
    GetAddIf(t.trips, c.operation, |c.trips|, op);
    hide Get, AddIf, Flag;
  }

  lemma TablesNextElsewhere(t: Tables, c: Call, op: string)
    requires op != c.operation
    ensures SameFor(t, TablesNext(t, c), op)
  {
    CountersNext(t, c, op);
    hide Get, AddIf, Flag, AddAll;
  }

  lemma TablesNextHere(t: Tables, c: Call)
    ensures OneMoreFor(t, TablesNext(t, c), c)
  {
    CountersNext(t, c, c.operation);
    AddAllNone(CategoriesOf(t, c.operation));
    hide Get, AddIf, Flag, AddAll;
  }

  lemma GetAddIf(m: map<string, int>, k: string, amount: int, j: string)
    ensures Get(AddIf(m, k, amount), j) == Get(m, j) + if j == k then amount else 0
  {
  }

  lemma AddAllNone(m: map<string, int>)
    ensures AddAll(m, []) == m
  {
  }

  /** Counts a call in a total and under its operation if the flag is set. */
  method CountIf(flag: bool, total: int, byOperation: map<string, int>, op: string)
    returns (total': int, byOperation': map<string, int>)
    ensures total' == total + Flag(flag) && byOperation' == AddIf(byOperation, op, Flag(flag))
  {
    if flag {
      return total + 1, Add(byOperation, op, 1);
    }
    return total, byOperation;
  }

  method AccumulateRecord(s: Stats, c: Call, latencies: seq<int>, t: Tables)
    returns (s': Stats, latencies': seq<int>, t': Tables)
    ensures latencies' == latencies + [c.latency] && s' == TotalsOneMore(s, c) && t' == TablesNext(t, c)
  {
    hide LatenciesOf, CategoriesOf, Flag, Add, AddAll;
    var op := c.operation;
    var failed, failedBy := CountIf(c.failed, s.failed, t.failed, op);
    var jsonFailures, jsonFailuresBy := CountIf(c.jsonFailure, s.jsonFailures, t.jsonFailures, op);
    var refusals, refusalsBy := CountIf(c.refusal, s.refusals, t.refusals, op);
    var trips, tripsBy, all, categories := s.trips, t.trips, s.tripsByCategory, t.categories;
    AddAllNone(s.tripsByCategory);
    if |c.trips| > 0 {
      trips, tripsBy := trips + |c.trips|, Add(tripsBy, op, |c.trips|);
      var own;
      all, own := CountTrips(all, CategoriesOf(t, op), c.trips);
      categories := categories[op := own];
    }
    latencies' := latencies + [c.latency];
    s' := s.(calls := s.calls + 1, inputChars := s.inputChars + c.promptChars,
             outputChars := s.outputChars + c.responseChars, failed := failed,
             jsonFailures := jsonFailures, refusals := refusals, trips := trips, tripsByCategory := all);
    t' := Tables(t.latencies[op := LatenciesOf(t, op) + [c.latency]],
                 failedBy, jsonFailuresBy, refusalsBy, tripsBy, categories);
  }

  /** Adds each trip to the overall and to the operation's own counts. */
  method CountTrips(all: map<string, int>, own: map<string, int>, trips: seq<string>)
    returns (all': map<string, int>, own': map<string, int>)
    ensures all' == AddAll(all, trips) && own' == AddAll(own, trips)
  {
    all', own' := all, own;
    for i := 0 to |trips|
      invariant all' == AddAll(all, trips[..i]) && own' == AddAll(own, trips[..i])
    {
      AddAllNext(all, trips, i);
      AddAllNext(own, trips, i);
      all', own' := Add(all', trips[i], 1), Add(own', trips[i], 1);
    }
    assert trips[..|trips|] == trips;
  }

  lemma AddAllNext(m: map<string, int>, categories: seq<string>, i: nat)
    requires i < |categories|
    ensures AddAll(m, categories[..i + 1]) == Add(AddAll(m, categories[..i]), categories[i], 1)
  {
    assert categories[..i + 1][..i] == categories[..i];
  }

  /** The breakdown of one operation, from the maps. */
  function OperationOf(t: Tables, op: string): OperationStats {
    var calls := |LatenciesOf(t, op)|;
    OperationStats(
      calls, Get(t.failed, op), Ratio(Get(t.failed, op), calls),
      Get(t.jsonFailures, op), Ratio(Get(t.jsonFailures, op), calls),
      Get(t.refusals, op), Ratio(Get(t.refusals, op), calls),
      Get(t.trips, op), CategoriesOf(t, op), Percentile(LatenciesOf(t, op), 0.95))
  }

  lemma OperationSummarized(calls: seq<Call>, t: Tables, op: string)
    requires Holds(calls, t, op)
    ensures SummarizesOperation(calls, OperationOf(t, op))
  {
    hide Ratio, Percentile, Counts, Sum;
  }

  method BuildOperationStats(op: string, lat: seq<int>, t: Tables) returns (o: OperationStats)
    requires lat == LatenciesOf(t, op)
    ensures o == OperationOf(t, op)
  {
    hide Percentile, Ratio;
    var calls := |lat|;
    o := OperationStats(calls, Get(t.failed, op), Ratio(Get(t.failed, op), calls),
                        Get(t.jsonFailures, op), Ratio(Get(t.jsonFailures, op), calls),
                        Get(t.refusals, op), Ratio(Get(t.refusals, op), calls),
                        Get(t.trips, op), map[], Percentile(lat, 0.95));
    var cats := CategoriesOf(t, op);
    if |cats| > 0 {
      o := o.(tripsByCategory := cats);
    }
  }

  lemma NothingAccumulated(t: Tables)
    requires t == Tables(map[], map[], map[], map[], map[], map[])
    ensures Accumulated([], NOTHING, [], t)
  {
  }

  lemma PercentileOfNone(p: real)
    ensures Percentile(Latencies([]), p) == 0
  {
    hide SortBy;
  }

  lemma NothingTotal()
    ensures Totals([], NOTHING)
  {
  }

  lemma NothingSummarized()
    ensures Summarizes([], NOTHING)
  {
    PercentileOfNone(0.5);
    PercentileOfNone(0.95);
    NothingTotal();
    hide Percentile, Totals, SummarizesOperation;
  }

  /** The rates and latency percentiles, once the calls have been counted. */
  function WithRates(s: Stats, latencies: seq<int>): Stats {
    s.(failureRate := Ratio(s.failed, s.calls), jsonFailureRate := Ratio(s.jsonFailures, s.calls),
       refusalRate := Ratio(s.refusals, s.calls),
       p50 := Percentile(latencies, 0.5), p95 := Percentile(latencies, 0.95))
  }

  method SummarizeAIQuality(calls: seq<Call>) returns (s: Stats)
    ensures Summarizes(calls, s)
  {
    hide *;
    s := NOTHING;
    var t := Tables(map[], map[], map[], map[], map[], map[]);
    NothingAccumulated(t);
    NothingSummarized();
    if |calls| == 0 {
      return;
    }
    var latencies: seq<int> := [];
    for i := 0 to |calls|
      invariant Accumulated(calls[..i], s, latencies, t)
    {
      var s', latencies', t' := AccumulateRecord(s, calls[i], latencies, t);
      assert calls[..i + 1] == calls[..i] + [calls[i]];
      RecordAccumulated(calls[..i], s, latencies, t, calls[i]);
      s, latencies, t := s', latencies', t';
    }
    assert calls[..|calls|] == calls;
    ghost var counted := s;
    s := WithRates(s, latencies);
    var byOperation := BreakDown(t);
    s := s.(byOperation := byOperation);
    Finished(calls, counted, latencies, t, byOperation);
  }

  /** The breakdown has exactly the operations seen, each with its own statistics. */
  ghost predicate BrokenDown(t: Tables, ops: set<string>, byOperation: map<string, OperationStats>) {
    byOperation.Keys == ops && forall op :: op in byOperation ==> byOperation[op] == OperationOf(t, op)
  }

  method BreakDown(t: Tables) returns (byOperation: map<string, OperationStats>)
    ensures BrokenDown(t, t.latencies.Keys, byOperation)
  {
    hide OperationOf;
    var ops := t.latencies.Keys;
    byOperation := map[];
    while ops != {}
      invariant ops <= t.latencies.Keys && BrokenDown(t, t.latencies.Keys - ops, byOperation)
      decreases |ops|
    {
      var op :| op in ops;
      var o := BuildOperationStats(op, LatenciesOf(t, op), t);
      byOperation := byOperation[op := o];
      ops := ops - {op};
    }
  }

  lemma RecordAccumulated(calls: seq<Call>, s: Stats, latencies: seq<int>, t: Tables, c: Call)
    requires Accumulated(calls, s, latencies, t)
    ensures Accumulated(calls + [c], TotalsOneMore(s, c), latencies + [c.latency], TablesNext(t, c))
  {
    TotalsNext(calls, s, c, TotalsOneMore(s, c));
    TablesNextHere(t, c);
    forall op | op != c.operation ensures SameFor(t, TablesNext(t, c), op) {
      TablesNextElsewhere(t, c, op);
    }
    hide OneMoreFor, SameFor, TablesNext, Accumulated, Totals;
    AccumulatedNext(calls, s, latencies, t, c, TotalsOneMore(s, c), TablesNext(t, c));
  }

  lemma Finished(calls: seq<Call>, s: Stats, latencies: seq<int>, t: Tables, byOperation: map<string, OperationStats>)
    requires Accumulated(calls, s, latencies, t)
    requires BrokenDown(t, t.latencies.Keys, byOperation)
    ensures Summarizes(calls, WithRates(s, latencies).(byOperation := byOperation))
  {
    forall op
      ensures op in byOperation <==> Of(calls, op) != []
      ensures op in byOperation ==> SummarizesOperation(Of(calls, op), byOperation[op])
    {
      assert Holds(Of(calls, op), t, op);
      OperationSummarized(Of(calls, op), t, op);
    }
    hide Percentile, Ratio, SummarizesOperation, OperationOf, Latencies, Of, Counts, Sum;
  }
}

/**
 What the limiter answers, in the units of its configuration: tokens per second, nanoseconds
 and the cost asked for (internal/adapters/inbound/grpc/ratelimit.go).
 */
module RateLimiterAnswers {
  import opened RateLimiting
  import opened RateLimiterRuns
  import opened RateLimiterRefinement
  import opened RateLimiterQuota

  // ------------------------------------------------------------------- one request

  lemma CommuteQuotient(x: real, y: real, z: real)
    requires z > 0.0
    ensures (x / z) * y == y * x / z
  {
  }

  /** The rate is per second; time is in nanoseconds. */
  lemma EarnedIs(c: Config, d: int)
    ensures c.Earned(d) == c.rate * d as real / 1_000_000_000.0
  {
    CommuteQuotient(d as real, c.rate, 1_000_000_000.0);
  }

  /** A cost between one and the burst is charged as given. */
  lemma CostIs(c: Config, cost: real)
    requires c.Valid()
    ensures ClampCost(c, cost) == if cost < 1.0 then 1.0 else if cost > c.burst then c.burst else cost
  {
  }

  lemma RefillIs(c: Config, b: Bucket, t: int, earned: real)
    requires 0 < t - b.last <= 0x7fff_ffff_ffff_ffff
    requires earned == c.rate * (t - b.last) as real / 1_000_000_000.0
    ensures var full := b.tokens + earned; Refill(c, b, t) == Bucket(if full < c.burst then full else c.burst, t)
  {
    hide Config.Earned;
    EarnedIs(c, t - b.last);
  }

  /** The answer from what the bucket has been found to hold. */
  lemma AnswerFrom(c: Config, s: State, q: Request, ok: bool, s': State, have: real)
    requires c.Valid() && Allows(c, s, q, ok, s') && q.key in s.buckets
    requires Refill(c, s.buckets[q.key], q.at) == Bucket(have, q.at)
    ensures var cost := if q.cost < 1.0 then 1.0 else if q.cost > c.burst then c.burst else q.cost;
            && (ok <==> have >= cost)
            && s'.buckets == s.buckets[q.key := Bucket(if ok then have - cost else have, q.at)]
            && s'.lastSweep == s.lastSweep
  {
    hide Refill, ClampCost;
    CostIs(c, q.cost);
  }

  /** The key is tracked: it has what it had and what the rate earned since, up to the burst, and pays from that. */
  lemma TrackedKeyAnswer(c: Config, s: State, q: Request, ok: bool, s': State, earned: real)
    requires c.Valid() && Allows(c, s, q, ok, s') && q.key in s.buckets
    requires 0 < q.at - s.buckets[q.key].last <= 0x7fff_ffff_ffff_ffff
    requires earned == c.rate * (q.at - s.buckets[q.key].last) as real / 1_000_000_000.0
    ensures var full := s.buckets[q.key].tokens + earned;
            var have := if full < c.burst then full else c.burst;
            var cost := if q.cost < 1.0 then 1.0 else if q.cost > c.burst then c.burst else q.cost;
            && (ok <==> have >= cost)
            && s'.buckets == s.buckets[q.key := Bucket(if ok then have - cost else have, q.at)]
            && s'.lastSweep == s.lastSweep
  {
    hide *;
    var b := s.buckets[q.key];
    RefillIs(c, b, q.at, earned);
    var full := b.tokens + earned;
    AnswerFrom(c, s, q, ok, s', if full < c.burst then full else c.burst);
  }

  /** A clock that did not advance earns nothing. */
  lemma StoppedClockAnswer(c: Config, s: State, q: Request, ok: bool, s': State)
    requires c.Valid() && Allows(c, s, q, ok, s') && q.key in s.buckets && q.at <= s.buckets[q.key].last
    ensures var b := s.buckets[q.key];
            var cost := if q.cost < 1.0 then 1.0 else if q.cost > c.burst then c.burst else q.cost;
            && (ok <==> b.tokens >= cost)
            && s'.buckets == s.buckets[q.key := b.(tokens := if ok then b.tokens - cost else b.tokens)]
  {
    CostIs(c, q.cost);
    hide ClampCost;
  }

  /** The key is not tracked: it is admitted from a full bucket. */
  lemma NewKeyAnswer(c: Config, s: State, q: Request, ok: bool, s': State)
    requires c.Valid() && Allows(c, s, q, ok, s') && q.key !in s.buckets
    ensures var cost := if q.cost < 1.0 then 1.0 else if q.cost > c.burst then c.burst else q.cost;
            ok && q.key in s'.buckets && s'.buckets[q.key] == Bucket(c.burst - cost, q.at)
  {
    CostIs(c, q.cost);
    hide ClampCost;
  }

  /**
   What a new key may cost the others.  With ten thousand buckets, and a second after the last
   sweep, those untouched for more than ten minutes go; with twenty thousand left, any two
   thousand of them do; nothing else changes.
   */
  lemma NewKeyEvicts(c: Config, s: State, q: Request, ok: bool, s': State, k: Key)
    requires c.Valid() && Allows(c, s, q, ok, s') && q.key !in s.buckets && k in s.buckets
    requires -0x8000_0000_0000_0000 <= q.at - s.lastSweep <= 0x7fff_ffff_ffff_ffff
    requires -0x8000_0000_0000_0000 <= q.at - s.buckets[k].last <= 0x7fff_ffff_ffff_ffff
    ensures var sweeps := |s.buckets| >= 10_000 && q.at - s.lastSweep >= 1_000_000_000;
            && (k in s'.buckets ==> s'.buckets[k] == s.buckets[k])
            && (sweeps && q.at - s.buckets[k].last > 600_000_000_000 ==> k !in s'.buckets)
            && (|AfterSweep(s, q.at).buckets| < 20_000 ==>
                  (k in s'.buckets <==> !(sweeps && q.at - s.buckets[k].last > 600_000_000_000)))
            && (|AfterSweep(s, q.at).buckets| >= 20_000 ==> |s'.buckets - {q.key}| == 18_000)
            && s'.lastSweep == (if sweeps then q.at else s.lastSweep)
  {
    assert k in s'.buckets ==> k in s'.buckets - {q.key};
    hide ClampCost;
  }

  // --------------------------------------------------- a refusal and its reason

  /** No bucket was last touched before t. */
  ghost predicate TouchedSince(s: State, t: int) {
    forall k :: k in s.buckets ==> s.buckets[k].last >= t
  }

  lemma StepTouched(c: Config, s: State, q: Request, ok: bool, s': State, t: int)
    requires Allows(c, s, q, ok, s') && TouchedSince(s, t) && t <= q.at
    ensures TouchedSince(s', t)
  {
    forall k | k in s'.buckets ensures s'.buckets[k].last >= t {
      if k != q.key && IsNewKey(s, q) {
        assert k in s'.buckets - {q.key};
      }
    }
  }

  /** What a key has grows with time at the full rate until it is full. */
  lemma AvailableCatchesUp(c: Config, s: State, k: Key, a: int, t: int)
    requires c.Valid() && Bounded(c, s) && ClockReached(s, a) && a <= t
    requires k in s.buckets ==> t - s.buckets[k].last <= MAX_DURATION
    ensures var more := Available(c, s, k, a) + c.Earned(t - a);
            Available(c, s, k, t) >= if more < c.burst then more else c.burst
  {
    if k in s.buckets {
      var b := s.buckets[k];
      RefillTokens(c, b, a);
      RefillTokens(c, b, t);
      EarnedAdds(c, a - b.last, t - a);
      EarnedMonotone(c, 0, a - b.last);
      EarnedMonotone(c, 0, t - a);
      NothingEarned(c);
      hide Config.Earned, Refill;
    }
  }

  lemma NothingEarned(c: Config)
    ensures c.Earned(0) == 0.0
  {
  }

  /** A request takes from its key no more than it pays, and nothing from the others. */
  lemma StepTakesWhatIsPaid(c: Config, s: State, k: Key, q: Request, ok: bool, s': State)
    requires c.Valid() && Bounded(c, s) && ClockReached(s, q.at) && Allows(c, s, q, ok, s')
    ensures Paid(c, k, q, ok) + Available(c, s', k, q.at) >= Available(c, s, k, q.at)
  {
    if k == q.key {
      var cost := ClampCost(c, q.cost);
      if IsNewKey(s, q) {
        assert s'.buckets[k] == Charge(Bucket(c.burst, q.at), cost);
      } else {
        ChargeSettles(c, s.buckets[k], q.at, cost);
      }
    } else {
      EvictionNeverLowers(c, s, k, q, ok, s');
    }
  }

  /** Since request i, or right now if i == n, the key has had a full burst and all that the rate earned. */
  ghost predicate Credited(
    c: Config, states: seq<State>, reqs: seq<Request>, oks: seq<bool>, k: Key, i: nat, n: nat, t: int)
    requires IsRun(c, states, reqs, oks) && i <= n <= |reqs|
  {
    Available(c, states[n], k, t) + Admitted(c, k, reqs, oks, i, n)
      >= c.burst + c.Earned(t - if i < n then reqs[i].at else t)
  }

  ghost predicate SomeCredit(c: Config, states: seq<State>, reqs: seq<Request>, oks: seq<bool>, k: Key, n: nat, t: int)
    requires IsRun(c, states, reqs, oks) && n <= |reqs|
  {
    exists i: nat :: i <= n && Credited(c, states, reqs, oks, k, i, n, t)
  }

  lemma FullIsCredit(c: Config, states: seq<State>, reqs: seq<Request>, oks: seq<bool>, k: Key, n: nat, t: int)
    requires IsRun(c, states, reqs, oks) && n <= |reqs| && Available(c, states[n], k, t) >= c.burst
    ensures SomeCredit(c, states, reqs, oks, k, n, t)
  {
    NothingEarned(c);
    assert Credited(c, states, reqs, oks, k, n, n, t);
  }

  lemma AdmittedNext(c: Config, k: Key, reqs: seq<Request>, oks: seq<bool>, i: nat, n: nat)
    requires i <= n < |reqs| && |oks| == |reqs|
    ensures Admitted(c, k, reqs, oks, i, n + 1) == Admitted(c, k, reqs, oks, i, n) + Paid(c, k, reqs[n], oks[n])
  {
  }

  lemma CreditCarries(c: Config, states: seq<State>, reqs: seq<Request>, oks: seq<bool>, k: Key, i: nat, n: nat, t: int)
    requires IsRun(c, states, reqs, oks) && i <= n < |reqs| && Credited(c, states, reqs, oks, k, i, n, reqs[n].at)
    requires var more := Available(c, states[n + 1], k, reqs[n].at) + c.Earned(t - reqs[n].at);
             more < c.burst && Available(c, states[n + 1], k, t) >= more
    requires Paid(c, k, reqs[n], oks[n]) + Available(c, states[n + 1], k, reqs[n].at)
               >= Available(c, states[n], k, reqs[n].at)
    ensures Credited(c, states, reqs, oks, k, i, n + 1, t)
  {
    hide Available, Admitted, Paid, Config.Earned, Allows;
    AdmittedNext(c, k, reqs, oks, i, n);
    NothingEarned(c);
    EarnedAdds(c, reqs[n].at - reqs[i].at, t - reqs[n].at);
  }

  /** The facts about a run up to request n that the credit rests on. */
  lemma RunFacts(c: Config, states: seq<State>, reqs: seq<Request>, oks: seq<bool>, n: nat)
    requires IsRun(c, states, reqs, oks) && NondecreasingClock(reqs) && n < |reqs|
    ensures c.Valid() && |oks| == |reqs| && |states| == |reqs| + 1
    ensures Allows(c, states[n], reqs[n], oks[n], states[n + 1]) && reqs[0].at <= reqs[n].at
    ensures Bounded(c, states[n]) && ClockReached(states[n], reqs[n].at)
    ensures Bounded(c, states[n + 1]) && ClockReached(states[n + 1], reqs[n].at)
  {
    WindowStep(c, states, reqs, oks, n, n);
    MemoryBound(c, states, reqs, oks, n);
    MemoryBound(c, states, reqs, oks, n + 1);
    RunClock(c, states, reqs, oks, n);
    StepPays(c, states[n], reqs[n].key, reqs[n], oks[n], states[n + 1], true);
    hide Allows, Bounded, ClockReached, IsRun;
  }

  lemma {:induction false} RunTouched(c: Config, states: seq<State>, reqs: seq<Request>, oks: seq<bool>, n: nat)
    requires IsRun(c, states, reqs, oks) && NondecreasingClock(reqs) && 0 < |reqs| && n <= |reqs|
    ensures TouchedSince(states[n], reqs[0].at)
  {
    hide Allows;
    if n == 0 {
    } else {
      hide TouchedSince;
      RunTouched(c, states, reqs, oks, n - 1);
      RunFacts(c, states, reqs, oks, n - 1);
      StepTouched(c, states[n - 1], reqs[n - 1], oks[n - 1], states[n], reqs[0].at);
    }
  }

  lemma StartIsFull(c: Config, states: seq<State>, reqs: seq<Request>, oks: seq<bool>, k: Key, t: int)
    requires IsRun(c, states, reqs, oks)
    ensures |states| > 0 && Available(c, states[0], k, t) == c.burst
  {
    hide Allows;
  }

  lemma Within(s: State, k: Key, from: int, t: int)
    requires TouchedSince(s, from) && t - from <= MAX_DURATION
    ensures k in s.buckets ==> t - s.buckets[k].last <= MAX_DURATION
  {
  }

  lemma CreditStep(c: Config, states: seq<State>, reqs: seq<Request>, oks: seq<bool>, k: Key, n: nat, t: int)
    requires IsRun(c, states, reqs, oks) && NondecreasingClock(reqs) && n < |reqs|
    requires SomeCredit(c, states, reqs, oks, k, n, reqs[n].at)
    requires reqs[n].at <= t && t - reqs[0].at <= MAX_DURATION
    ensures SomeCredit(c, states, reqs, oks, k, n + 1, t)
  {
    hide Credited, IsRun, NondecreasingClock, Available, Admitted, Paid, Allows, Bounded, ClockReached, TouchedSince,
         Config.Earned;
    var i: nat :| i <= n && Credited(c, states, reqs, oks, k, i, n, reqs[n].at);
    RunFacts(c, states, reqs, oks, n);
    RunTouched(c, states, reqs, oks, n + 1);
    Within(states[n + 1], k, reqs[0].at, t);
    StepTakesWhatIsPaid(c, states[n], k, reqs[n], oks[n], states[n + 1]);
    AvailableCatchesUp(c, states[n + 1], k, reqs[n].at, t);
    if Available(c, states[n + 1], k, reqs[n].at) + c.Earned(t - reqs[n].at) < c.burst {
      CreditCarries(c, states, reqs, oks, k, i, n, t);
      assert Credited(c, states, reqs, oks, k, i, n + 1, t);
    } else {
      FullIsCredit(c, states, reqs, oks, k, n + 1, t);
    }
  }

  lemma {:induction false} RunCredit(
    c: Config, states: seq<State>, reqs: seq<Request>, oks: seq<bool>, k: Key, n: nat, t: int)
    requires IsRun(c, states, reqs, oks) && NondecreasingClock(reqs) && n <= |reqs|
    requires n > 0 ==> reqs[n - 1].at <= t && t - reqs[0].at <= MAX_DURATION
    ensures SomeCredit(c, states, reqs, oks, k, n, t)
    decreases n
  {
    hide SomeCredit, Available, IsRun;
    if n == 0 {
      StartIsFull(c, states, reqs, oks, k, t);
      FullIsCredit(c, states, reqs, oks, k, 0, t);
    } else {
      RunFacts(c, states, reqs, oks, n - 1);
      RunCredit(c, states, reqs, oks, k, n - 1, reqs[n - 1].at);
      CreditStep(c, states, reqs, oks, k, n - 1, t);
    }
  }

  /** A request is refused exactly when its key has less than it costs. */
  lemma AnswerIs(c: Config, s: State, q: Request, ok: bool, s': State)
    requires c.Valid() && Allows(c, s, q, ok, s')
    ensures ok <==> Available(c, s, q.key, q.at) >= ClampCost(c, q.cost)
  {
  }

  /** What was admitted for the key of j since request i, and the cost of j, exceed the burst and what was earned. */
  ghost predicate OverQuota(c: Config, reqs: seq<Request>, oks: seq<bool>, i: nat, j: nat)
    requires i <= j < |reqs| && |oks| == |reqs|
  {
    var cost := if reqs[j].cost < 1.0 then 1.0 else if reqs[j].cost > c.burst then c.burst else reqs[j].cost;
    Admitted(c, reqs[j].key, reqs, oks, i, j) + cost
      > c.burst + c.rate * (reqs[j].at - reqs[i].at) as real / 1_000_000_000.0
  }

  lemma OverQuotaIs(c: Config, reqs: seq<Request>, oks: seq<bool>, i: nat, j: nat)
    requires c.Valid() && i <= j < |reqs| && |oks| == |reqs|
    ensures OverQuota(c, reqs, oks, i, j) <==>
              Admitted(c, reqs[j].key, reqs, oks, i, j) + ClampCost(c, reqs[j].cost)
                > c.burst + c.Earned(reqs[j].at - reqs[i].at)
  {
    hide Config.Earned, ClampCost, Admitted;
    EarnedIs(c, reqs[j].at - reqs[i].at);
    CostIs(c, reqs[j].cost);
  }

  lemma RefusalOfCredit(c: Config, states: seq<State>, reqs: seq<Request>, oks: seq<bool>, i: nat, j: nat)
    requires IsRun(c, states, reqs, oks) && i <= j < |reqs| && !oks[j]
    requires Credited(c, states, reqs, oks, reqs[j].key, i, j, reqs[j].at)
    ensures OverQuota(c, reqs, oks, i, j)
  {
    hide OverQuota, Available, Admitted, Config.Earned, ClampCost, Allows;
    AnswerIs(c, states[j], reqs[j], oks[j], states[j + 1]);
    OverQuotaIs(c, reqs, oks, i, j);
    NothingEarned(c);
  }

  /** Traffic within its quota is never refused, whatever was evicted. */
  lemma RefusedOnlyOverQuota(c: Config, states: seq<State>, reqs: seq<Request>, oks: seq<bool>, j: nat)
    requires IsRun(c, states, reqs, oks) && NondecreasingClock(reqs) && j < |reqs| && !oks[j]
    requires reqs[j].at - reqs[0].at <= 0x7fff_ffff_ffff_ffff
    ensures exists i: nat :: i <= j && OverQuota(c, reqs, oks, i, j)
  {
    hide IsRun, Credited, OverQuota, Available, Admitted;
    RunFacts(c, states, reqs, oks, j);
    RunCredit(c, states, reqs, oks, reqs[j].key, j, reqs[j].at);
    var i: nat :| i <= j && Credited(c, states, reqs, oks, reqs[j].key, i, j, reqs[j].at);
    RefusalOfCredit(c, states, reqs, oks, i, j);
  }

  lemma {:induction false} ResetsPart(k: Key, states: seq<State>, reqs: seq<Request>, i: nat, j: nat)
    requires i <= j <= |reqs| && |states| == |reqs| + 1
    ensures Resets(k, states, reqs, true, i, j) <= Resets(k, states, reqs, true, 0, j)
    decreases j
  {
    hide Forgets;
    if i == j {
    } else {
      ResetsPart(k, states, reqs, i, j - 1);
    }
  }

  lemma PaidIsCost(c: Config, q: Request)
    ensures Paid(c, q.key, q, true) == ClampCost(c, q.cost)
  {
  }

  lemma OneBurst(c: Config)
    ensures Bursts(c, 1) == c.burst
  {
    BurstsNext(c, 0);
  }

  lemma AdmittedIsWithin(c: Config, states: seq<State>, reqs: seq<Request>, oks: seq<bool>, i: nat, j: nat)
    requires IsRun(c, states, reqs, oks) && NondecreasingClock(reqs) && i <= j < |reqs| && oks[j]
    requires Resets(reqs[j].key, states, reqs, true, 0, j + 1) == 0
    ensures !OverQuota(c, reqs, oks, i, j)
  {
    hide *;
    var k := reqs[j].key;
    RunFacts(c, states, reqs, oks, j);
    QuotaWithCredit(c, states, reqs, oks, k, true, i, j + 1);
    AvailableBounded(c, states[j + 1], k, reqs[j].at);
    ResetsPart(k, states, reqs, i, j + 1);
    OneBurst(c);
    AdmittedNext(c, k, reqs, oks, i, j);
    PaidIsCost(c, reqs[j]);
    OverQuotaIs(c, reqs, oks, i, j);
  }

  /** Where no eviction made the key start afresh, a request is refused if and only if it would exceed its quota. */
  lemma RefusedIffOverQuota(c: Config, states: seq<State>, reqs: seq<Request>, oks: seq<bool>, j: nat)
    requires IsRun(c, states, reqs, oks) && NondecreasingClock(reqs) && j < |reqs|
    requires reqs[j].at - reqs[0].at <= 0x7fff_ffff_ffff_ffff
    requires Resets(reqs[j].key, states, reqs, true, 0, j + 1) == 0
    ensures !oks[j] <==> exists i: nat :: i <= j && OverQuota(c, reqs, oks, i, j)
  {
    hide *;
    RunFacts(c, states, reqs, oks, j);
    if oks[j] {
      forall i: nat | i <= j ensures !OverQuota(c, reqs, oks, i, j) {
        AdmittedIsWithin(c, states, reqs, oks, i, j);
      }
    } else {
      RefusedOnlyOverQuota(c, states, reqs, oks, j);
    }
  }
}

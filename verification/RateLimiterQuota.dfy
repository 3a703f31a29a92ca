/** How much a key can spend over any window of any run. */
module RateLimiterQuota {
  import opened RateLimiting
  import opened RateLimiterRuns
  import opened RateLimiterRefinement

  /** The tokens a request for k at t would find: a key not tracked starts full. */
  function Available(c: Config, s: State, k: Key, t: int): real {
    if k in s.buckets then Refill(c, s.buckets[k], t).tokens else c.burst
  }

  function Paid(c: Config, k: Key, q: Request, ok: bool): real {
    if q.key == k && ok then ClampCost(c, q.cost) else 0.0
  }

  /** The cost admitted for k by requests i .. j - 1. */
  function Admitted(c: Config, k: Key, reqs: seq<Request>, oks: seq<bool>, i: nat, j: nat): real
    requires i <= j <= |reqs| && |oks| == |reqs|
    decreases j
  {
    if i == j then 0.0
    else Admitted(c, k, reqs, oks, i, j - 1) + Paid(c, k, reqs[j - 1], oks[j - 1])
  }

  /** k was still tracked after any idle sweep, and the batch eviction dropped it. */
  predicate BatchDrops(s: State, k: Key, q: Request, s': State) {
    BatchFires(s, q) && k in AfterSweep(s, q.at).buckets && k !in s'.buckets
  }

  predicate SweepDrops(s: State, k: Key, q: Request) {
    IsNewKey(s, q) && k in s.buckets && k !in AfterSweep(s, q.at).buckets
  }

  /** An eviction made k start afresh: a batch, or, when sweeps count, an idle sweep. */
  predicate Forgets(s: State, k: Key, q: Request, s': State, sweeps: bool) {
    BatchDrops(s, k, q, s') || (sweeps && SweepDrops(s, k, q))
  }

  /** Requests i .. j - 1 at which an eviction that counts made k start afresh. */
  function Resets(k: Key, states: seq<State>, reqs: seq<Request>, sweeps: bool, i: nat, j: nat): nat
    requires i <= j <= |reqs| && |states| == |reqs| + 1
    decreases j
  {
    if i == j then 0
    else Resets(k, states, reqs, sweeps, i, j - 1)
         + if Forgets(states[j - 1], k, reqs[j - 1], states[j], sweeps) then 1 else 0
  }

  function Bursts(c: Config, n: nat): real {
    if n == 0 then 0.0 else Bursts(c, n - 1) + c.burst
  }

  lemma BurstsNext(c: Config, n: nat)
    ensures Bursts(c, n + 1) == Bursts(c, n) + c.burst
  {
  }

  lemma {:induction false} BurstsIsProduct(c: Config, n: nat)
    ensures Bursts(c, n) == n as real * c.burst
  {
    if n == 0 {
    } else {
      BurstsIsProduct(c, n - 1);
    }
  }

  // ------------------------------------------------------------------ one step

  lemma EarnedAdds(c: Config, x: int, y: int)
    ensures c.Earned(x + y) == c.Earned(x) + c.Earned(y)
  {
    assert Seconds(x + y) == Seconds(x) + Seconds(y);
  }

  function Positive(d: int): int { if d > 0 then d else 0 }

  lemma RefillTokens(c: Config, b: Bucket, t: int)
    requires c.Valid() && 0.0 <= b.tokens <= c.burst
    ensures var full := b.tokens + c.Earned(Positive(Sub(t, b.last)));
            Refill(c, b, t).tokens == if full < c.burst then full else c.burst
  {
    assert c.Earned(0) == 0.0;
  }

  lemma RefillGrowth(c: Config, b: Bucket, t: int, t': int)
    requires c.Valid() && 0.0 <= b.tokens <= c.burst && t <= t'
    ensures Refill(c, b, t').tokens <= Refill(c, b, t).tokens + c.Earned(t' - t)
  {
    var e, e' := Positive(Sub(t, b.last)), Positive(Sub(t', b.last));
    RefillTokens(c, b, t);
    RefillTokens(c, b, t');
    EarnedMonotone(c, 0, t' - t);
    EarnedMonotone(c, e', e + (t' - t));
    EarnedAdds(c, e, t' - t);
  }

  lemma AvailableBounded(c: Config, s: State, k: Key, t: int)
    requires c.Valid() && Bounded(c, s)
    ensures 0.0 <= Available(c, s, k, t) <= c.burst
  {
    if k in s.buckets {
      RefillBounded(c, s.buckets[k], t);
    }
  }

  lemma AvailableGrowth(c: Config, s: State, k: Key, t: int, t': int)
    requires c.Valid() && Bounded(c, s) && t <= t'
    ensures Available(c, s, k, t') <= Available(c, s, k, t) + c.Earned(t' - t)
  {
    if k in s.buckets {
      RefillGrowth(c, s.buckets[k], t, t');
    } else {
      EarnedMonotone(c, 0, t' - t);
    }
  }

  /** Refilling once more at the same instant adds nothing, and a charge is not refunded. */
  lemma ChargeSettles(c: Config, b: Bucket, t: int, cost: real)
    requires c.Valid() && b.last <= t
    ensures Refill(c, Charge(Refill(c, b, t), cost), t).tokens == Charge(Refill(c, b, t), cost).tokens
  {
  }

  /** No eviction, of either kind, lowers the tokens available to any key. */
  lemma EvictionNeverLowers(c: Config, s: State, k: Key, q: Request, ok: bool, s': State)
    requires c.Valid() && Bounded(c, s) && Allows(c, s, q, ok, s') && k != q.key
    ensures Available(c, s', k, q.at) >= Available(c, s, k, q.at)
    ensures k in s'.buckets ==> k in s.buckets && s'.buckets[k] == s.buckets[k]
  {
    if k in s.buckets {
      RefillBounded(c, s.buckets[k], q.at);
    }
    if IsNewKey(s, q) && k in s'.buckets {
      assert k in s'.buckets - {q.key};
    }
  }

  ghost predicate ClockReached(s: State, t: int) {
    forall k :: k in s.buckets ==> s.buckets[k].last <= t
  }

  /** What a request spends comes out of what k has, unless an eviction fills it up. */
  lemma StepPays(c: Config, s: State, k: Key, q: Request, ok: bool, s': State, sweeps: bool)
    requires c.Valid() && (sweeps || IdleMeansFull(c)) && Bounded(c, s) && ClockReached(s, q.at)
    requires Allows(c, s, q, ok, s')
    ensures ClockReached(s', q.at)
    ensures Paid(c, k, q, ok) + Available(c, s', k, q.at)
         <= Available(c, s, k, q.at) + if Forgets(s, k, q, s', sweeps) then c.burst else 0.0
  {
    var cost := ClampCost(c, q.cost);
    if k == q.key {
      if IsNewKey(s, q) {
        assert s'.buckets[k] == Charge(Bucket(c.burst, q.at), cost);
      } else {
        ChargeSettles(c, s.buckets[k], q.at, cost);
      }
    } else {
      EvictionNeverLowers(c, s, k, q, ok, s');
      if k in s.buckets && k !in s'.buckets {
        RefillBounded(c, s.buckets[k], q.at);
        if !sweeps && SweepDrops(s, k, q) {
          IdleIsFull(c, s.buckets[k], q.at);
        }
      }
    }
    forall x | x in s'.buckets ensures s'.buckets[x].last <= q.at {
      if x != q.key {
        EvictionNeverLowers(c, s, x, q, ok, s');
      }
    }
  }

  // ---------------------------------------------------------------- whole runs

  lemma ClockStarts(c: Config, states: seq<State>, reqs: seq<Request>, oks: seq<bool>, t: int)
    requires IsRun(c, states, reqs, oks)
    ensures ClockReached(states[0], t)
  {
    hide Allows;
  }

  lemma ClockLater(s: State, t: int, t': int)
    requires ClockReached(s, t) && t <= t'
    ensures ClockReached(s, t')
  {
  }

  lemma {:induction false} RunClock(c: Config, states: seq<State>, reqs: seq<Request>, oks: seq<bool>, n: nat)
    requires IsRun(c, states, reqs, oks) && NondecreasingClock(reqs) && n < |reqs|
    ensures ClockReached(states[n], reqs[n].at)
  {
    hide *;
    WindowStep(c, states, reqs, oks, n, n);
    if n == 0 {
      ClockStarts(c, states, reqs, oks, reqs[0].at);
    } else {
      RunClock(c, states, reqs, oks, n - 1);
      MemoryBound(c, states, reqs, oks, n - 1);
      WindowStep(c, states, reqs, oks, n - 1, n - 1);
      WindowStep(c, states, reqs, oks, n - 1, n);
      StepPays(c, states[n - 1], reqs[n - 1].key, reqs[n - 1], oks[n - 1], states[n], true);
      ClockLater(states[n], reqs[n - 1].at, reqs[n].at);
    }
  }

  /** One request carries the bound of a window begun at start over from t to its own instant. */
  lemma QuotaStep(c: Config, s: State, k: Key, q: Request, ok: bool, s': State, sweeps: bool,
                  start: int, t: int, admitted: real, resets: nat)
    requires c.Valid() && (sweeps || IdleMeansFull(c)) && Bounded(c, s) && ClockReached(s, q.at)
    requires Allows(c, s, q, ok, s') && start <= t <= q.at
    requires admitted + Available(c, s, k, t) <= Bursts(c, 1 + resets) + c.Earned(t - start)
    ensures admitted + Paid(c, k, q, ok) + Available(c, s', k, q.at)
         <= Bursts(c, 1 + resets + if Forgets(s, k, q, s', sweeps) then 1 else 0) + c.Earned(q.at - start)
  {
    hide *;
    StepPays(c, s, k, q, ok, s', sweeps);
    AvailableGrowth(c, s, k, t, q.at);
    EarnedAdds(c, t - start, q.at - t);
    BurstsNext(c, 1 + resets);
  }

  lemma WindowOpens(c: Config, s: State, k: Key, t: int)
    requires c.Valid() && Bounded(c, s)
    ensures 0.0 + Available(c, s, k, t) <= Bursts(c, 1 + 0) + c.Earned(t - t)
  {
    AvailableBounded(c, s, k, t);
    assert Bursts(c, 1) == Bursts(c, 0) + c.burst;
  }

  /** The window i .. j - 1 is the window i .. j - 2 and one more request. */
  lemma WindowExtends(
    c: Config, states: seq<State>, reqs: seq<Request>, oks: seq<bool>, k: Key, sweeps: bool, i: nat, j: nat)
    requires i < j <= |reqs| && |oks| == |reqs| && |states| == |reqs| + 1
    ensures Admitted(c, k, reqs, oks, i, j) == Admitted(c, k, reqs, oks, i, j - 1) + Paid(c, k, reqs[j - 1], oks[j - 1])
    ensures Resets(k, states, reqs, sweeps, i, j) == Resets(k, states, reqs, sweeps, i, j - 1)
              + if Forgets(states[j - 1], k, reqs[j - 1], states[j], sweeps) then 1 else 0
    ensures Admitted(c, k, reqs, oks, i, i) == 0.0 && Resets(k, states, reqs, sweeps, i, i) == 0
  {
    hide Paid, Forgets;
  }

  lemma WindowStep(c: Config, states: seq<State>, reqs: seq<Request>, oks: seq<bool>, i: nat, n: nat)
    requires IsRun(c, states, reqs, oks) && NondecreasingClock(reqs) && i <= n < |reqs|
    ensures c.Valid() && |oks| == |reqs| && |states| == |reqs| + 1
    ensures Allows(c, states[n], reqs[n], oks[n], states[n + 1])
    ensures i < n ==> reqs[i].at <= reqs[n - 1].at <= reqs[n].at
  {
    hide Allows;
  }

  lemma {:induction false} QuotaWithCredit(
    c: Config, states: seq<State>, reqs: seq<Request>, oks: seq<bool>, k: Key, sweeps: bool, i: nat, j: nat)
    requires IsRun(c, states, reqs, oks) && NondecreasingClock(reqs) && (sweeps || IdleMeansFull(c))
    requires i < j <= |reqs|
    ensures Admitted(c, k, reqs, oks, i, j) + Available(c, states[j], k, reqs[j - 1].at)
         <= Bursts(c, 1 + Resets(k, states, reqs, sweeps, i, j)) + c.Earned(reqs[j - 1].at - reqs[i].at)
    decreases j
  {
    hide *;
    var n := j - 1;
    WindowStep(c, states, reqs, oks, i, n);
    var s, q := states[n], reqs[n];
    RunClock(c, states, reqs, oks, n);
    MemoryBound(c, states, reqs, oks, n);
    WindowExtends(c, states, reqs, oks, k, sweeps, i, j);
    var t := if i == n then q.at else reqs[n - 1].at;
    if i == n {
      WindowOpens(c, s, k, t);
    } else {
      QuotaWithCredit(c, states, reqs, oks, k, sweeps, i, n);
    }
    QuotaStep(c, s, k, q, oks[n], states[j], sweeps, reqs[i].at, t,
              Admitted(c, k, reqs, oks, i, n), Resets(k, states, reqs, sweeps, i, n));
  }

  /**
   Over any window of any run, the cost admitted for a key is at most one burst, the refill of
   the window, and one more burst for each eviction that counts and made the key start afresh.
   */
  lemma Spending(
    c: Config, states: seq<State>, reqs: seq<Request>, oks: seq<bool>, k: Key, sweeps: bool, i: nat, j: nat)
    requires IsRun(c, states, reqs, oks) && NondecreasingClock(reqs) && (sweeps || IdleMeansFull(c))
    requires i < j <= |reqs|
    ensures Admitted(c, k, reqs, oks, i, j)
         <= (1 + Resets(k, states, reqs, sweeps, i, j)) as real * c.burst + c.Earned(reqs[j - 1].at - reqs[i].at)
  {
    hide *;
    WindowStep(c, states, reqs, oks, i, i);
    QuotaWithCredit(c, states, reqs, oks, k, sweeps, i, j);
    BurstsIsProduct(c, 1 + Resets(k, states, reqs, sweeps, i, j));
    MemoryBound(c, states, reqs, oks, j);
    AvailableBounded(c, states[j], k, reqs[j - 1].at);
  }

  /** Where an idle bucket has refilled, idle sweeps cost nothing: only batch evictions count. */
  lemma Quota(c: Config, states: seq<State>, reqs: seq<Request>, oks: seq<bool>, k: Key, i: nat, j: nat)
    requires IsRun(c, states, reqs, oks) && NondecreasingClock(reqs) && IdleMeansFull(c)
    requires i < j <= |reqs|
    ensures Admitted(c, k, reqs, oks, i, j)
         <= (1 + Resets(k, states, reqs, false, i, j)) as real * c.burst + c.Earned(reqs[j - 1].at - reqs[i].at)
  {
    Spending(c, states, reqs, oks, k, false, i, j);
    hide *;
  }

  /** For every configuration, each idle sweep that dropped the key counts as well. */
  lemma QuotaOfAny(c: Config, states: seq<State>, reqs: seq<Request>, oks: seq<bool>, k: Key, i: nat, j: nat)
    requires IsRun(c, states, reqs, oks) && NondecreasingClock(reqs)
    requires i < j <= |reqs|
    ensures Admitted(c, k, reqs, oks, i, j)
         <= (1 + Resets(k, states, reqs, true, i, j)) as real * c.burst + c.Earned(reqs[j - 1].at - reqs[i].at)
  {
    Spending(c, states, reqs, oks, k, true, i, j);
    hide *;
  }
}

/** Whole runs of the rate limiter: its memory bound and the cost of batch eviction. */
module RateLimiterRuns {
  import opened RateLimiting

  /** states[i] answers reqs[i] with oks[i] and becomes states[i + 1]. */
  ghost predicate IsRun(c: Config, states: seq<State>, reqs: seq<Request>, oks: seq<bool>) {
    && c.Valid()
    && |states| == |reqs| + 1 && |oks| == |reqs|
    && states[0] == INITIAL
    && forall i :: 0 <= i < |reqs| ==> Allows(c, states[i], reqs[i], oks[i], states[i + 1])
  }

  predicate NondecreasingClock(reqs: seq<Request>) {
    forall i, j :: 0 <= i < j < |reqs| ==> reqs[i].at <= reqs[j].at
  }

  ghost predicate NoBatch(states: seq<State>, reqs: seq<Request>)
    requires |states| == |reqs| + 1
  {
    forall i :: 0 <= i < |reqs| ==> !BatchFires(states[i], reqs[i])
  }

  // ---------------------------------------------------------- reachable states

  ghost predicate Bounded(c: Config, s: State) {
    && |s.buckets| <= MAX_BUCKETS
    && forall k :: k in s.buckets ==> 0.0 <= s.buckets[k].tokens <= c.burst
  }

  lemma RefillBounded(c: Config, b: Bucket, t: int)
    requires c.Valid() && 0.0 <= b.tokens <= c.burst
    ensures b.tokens <= Refill(c, b, t).tokens <= c.burst
  {
    if Sub(t, b.last) > 0 {
      assert c.Earned(Sub(t, b.last)) >= 0.0;
    }
  }

  lemma SweptSize(m: map<Key, Bucket>, now: int)
    ensures |Swept(m, now)| <= |m|
  {
    SubsetSize(Swept(m, now).Keys, m.Keys);
  }

  lemma {:induction false} SubsetSize(a: set<Key>, b: set<Key>)
    requires a <= b
    ensures |a| <= |b|
    decreases a
  {
    if a == {} {
    } else {
      var k :| k in a;
      SubsetSize(a - {k}, b - {k});
    }
  }

  lemma PutSize(m: map<Key, Bucket>, k: Key, b: Bucket)
    ensures |m[k := b]| == if k in m then |m| else |m| + 1
  {
    assert m[k := b].Keys == m.Keys + {k};
  }

  /** One admission keeps the map within its cap and every bucket within the burst. */
  lemma StepBounded(c: Config, s: State, q: Request, ok: bool, s': State)
    requires c.Valid() && Bounded(c, s) && Allows(c, s, q, ok, s')
    ensures Bounded(c, s')
  {
    var cost := ClampCost(c, q.cost);
    if IsNewKey(s, q) {
      var room := s'.buckets - {q.key};
      SweptSize(s.buckets, q.at);
      PutSize(room, q.key, Charge(Bucket(c.burst, q.at), cost));
    } else {
      RefillBounded(c, s.buckets[q.key], q.at);
      PutSize(s.buckets, q.key, Charge(Refill(c, s.buckets[q.key], q.at), cost));
    }
  }

  /** Every reachable limiter tracks at most MAX_BUCKETS keys, each holding 0 to burst tokens. */
  lemma {:induction false} MemoryBound(c: Config, states: seq<State>, reqs: seq<Request>, oks: seq<bool>, n: nat)
    requires IsRun(c, states, reqs, oks) && n < |states|
    ensures Bounded(c, states[n])
  {
    if n == 0 {
    } else {
      MemoryBound(c, states, reqs, oks, n - 1);
      StepBounded(c, states[n - 1], reqs[n - 1], oks[n - 1], states[n]);
    }
  }

  // ------------------------------------------------------- amortized batch cost

  /** How many of the requests i .. j - 1 admitted a key not tracked at the time. */
  ghost function NewKeys(states: seq<State>, reqs: seq<Request>, i: nat, j: nat): nat
    requires i <= j <= |reqs| && |states| == |reqs| + 1
    decreases j
  {
    if i == j then 0
    else NewKeys(states, reqs, i, j - 1) + if IsNewKey(states[j - 1], reqs[j - 1]) then 1 else 0
  }

  lemma {:induction false} GrowthAfterBatch(
    c: Config, states: seq<State>, reqs: seq<Request>, oks: seq<bool>, i: nat, j: nat)
    requires IsRun(c, states, reqs, oks) && i < j <= |reqs| && BatchFires(states[i], reqs[i])
    ensures |states[j].buckets| <= EVICT_LOW_WATER + NewKeys(states, reqs, i, j)
    decreases j
  {
    var s, q, s' := states[j - 1], reqs[j - 1], states[j];
    assert Allows(c, s, q, oks[j - 1], s');
    if i == j - 1 {
    } else {
      GrowthAfterBatch(c, states, reqs, oks, i, j - 1);
    }
    if IsNewKey(s, q) {
      SweptSize(s.buckets, q.at);
      PutSize(s'.buckets - {q.key}, q.key, s'.buckets[q.key]);
    } else {
      PutSize(s.buckets, q.key, s'.buckets[q.key]);
    }
  }

  /** Two batch evictions are MAX_BUCKETS - EVICT_LOW_WATER new keys apart, whatever the clock does. */
  lemma BatchesAreFarApart(c: Config, states: seq<State>, reqs: seq<Request>, oks: seq<bool>, i: nat, j: nat)
    requires IsRun(c, states, reqs, oks) && i < j < |reqs|
    requires BatchFires(states[i], reqs[i]) && BatchFires(states[j], reqs[j])
    ensures NewKeys(states, reqs, i, j) >= MAX_BUCKETS - EVICT_LOW_WATER
  {
    GrowthAfterBatch(c, states, reqs, oks, i, j);
    SweptSize(states[j].buckets, reqs[j].at);
  }
}

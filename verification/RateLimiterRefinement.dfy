/**
 Idle eviction against a limiter that never evicts: the two give the same answers
 exactly when a bucket idle past the eviction delay must have refilled.
 */
module RateLimiterRefinement {
  import opened RateLimiting
  import opened RateLimiterRuns

  // ------------------------------------------------------ the reference limiter

  function RefBucket(c: Config, m: map<Key, Bucket>, q: Request): Bucket {
    if q.key in m then Refill(c, m[q.key], q.at) else Bucket(c.burst, q.at)
  }

  function RefAnswer(c: Config, m: map<Key, Bucket>, q: Request): bool {
    RefBucket(c, m, q).tokens >= ClampCost(c, q.cost)
  }

  function RefNext(c: Config, m: map<Key, Bucket>, q: Request): map<Key, Bucket> {
    m[q.key := Charge(RefBucket(c, m, q), ClampCost(c, q.cost))]
  }

  /** The buckets of a limiter that never evicts, after all of reqs. */
  function RefAfter(c: Config, reqs: seq<Request>): map<Key, Bucket> {
    if reqs == [] then map[]
    else RefNext(c, RefAfter(c, reqs[..|reqs| - 1]), reqs[|reqs| - 1])
  }

  ghost predicate SameAnswers(c: Config, reqs: seq<Request>, oks: seq<bool>)
    requires |oks| == |reqs|
  {
    forall i :: 0 <= i < |reqs| ==> oks[i] == RefAnswer(c, RefAfter(c, reqs[..i]), reqs[i])
  }

  // ----------------------------------------------------------------- simulation

  /** The shortest idle time, in nanoseconds, that gets a bucket evicted. */
  const SHORTEST_IDLE: int := IDLE_EVICT_AFTER + 1

  /** A bucket evicted for idleness has refilled, even from empty. */
  predicate IdleMeansFull(c: Config) {
    c.burst <= c.Earned(SHORTEST_IDLE)
  }

  predicate FullBy(c: Config, b: Bucket, t: int) {
    Sub(t, b.last) > 0 && Refill(c, b, t).tokens == c.burst
  }

  /** An absent key stands for a full bucket of the reference limiter. */
  ghost predicate Simulates(c: Config, s: State, m: map<Key, Bucket>, now: int) {
    && SubMap(s.buckets, m)
    && (forall k :: k in m ==> 0.0 <= m[k].tokens <= c.burst)
    && (forall k :: k in m && k !in s.buckets ==> FullBy(c, m[k], now))
  }

  lemma EarnedMonotone(c: Config, d: int, d': int)
    requires c.Valid() && d <= d'
    ensures c.Earned(d) <= c.Earned(d')
  {
    assert Seconds(d) <= Seconds(d');
  }

  lemma IdleIsFull(c: Config, b: Bucket, t: int)
    requires c.Valid() && IdleMeansFull(c) && b.tokens >= 0.0 && Idle(b, t)
    ensures FullBy(c, b, t)
  {
    EarnedMonotone(c, SHORTEST_IDLE, Sub(t, b.last));
  }

  lemma FullStaysFull(c: Config, b: Bucket, t: int, t': int)
    requires c.Valid() && FullBy(c, b, t) && t <= t' && b.tokens <= c.burst
    ensures FullBy(c, b, t')
  {
    EarnedMonotone(c, Sub(t, b.last), Sub(t', b.last));
  }

  lemma LaterSimulates(c: Config, s: State, m: map<Key, Bucket>, now: int, t: int)
    requires c.Valid() && Simulates(c, s, m, now) && now <= t
    ensures Simulates(c, s, m, t)
  {
    forall k | k in m && k !in s.buckets ensures FullBy(c, m[k], t) {
      FullStaysFull(c, m[k], now, t);
    }
  }

  lemma SweepSimulates(c: Config, s: State, m: map<Key, Bucket>, t: int)
    requires c.Valid() && IdleMeansFull(c) && Simulates(c, s, m, t)
    ensures Simulates(c, AfterSweep(s, t), m, t)
  {
    forall k | k in m && k !in AfterSweep(s, t).buckets ensures FullBy(c, m[k], t) {
      if k in s.buckets {
        IdleIsFull(c, m[k], t);
      }
    }
  }

  lemma StepSimulates(c: Config, s: State, m: map<Key, Bucket>, q: Request, ok: bool, s': State)
    requires c.Valid() && IdleMeansFull(c) && Simulates(c, s, m, q.at)
    requires Allows(c, s, q, ok, s') && !BatchFires(s, q)
    ensures ok == RefAnswer(c, m, q) && Simulates(c, s', RefNext(c, m, q), q.at)
  {
    SweepSimulates(c, s, m, q.at);
    var b := RefBucket(c, m, q);
    if q.key in m {
      RefillBounded(c, m[q.key], q.at);
    }
    assert IsNewKey(s, q) ==> b == Bucket(c.burst, q.at);
    var room := if IsNewKey(s, q) then AfterSweep(s, q.at).buckets else s.buckets;
    assert s'.buckets == room[q.key := Charge(b, ClampCost(c, q.cost))];
  }

  lemma StepOfRun(c: Config, states: seq<State>, reqs: seq<Request>, oks: seq<bool>, n: nat)
    requires IsRun(c, states, reqs, oks) && NoBatch(states, reqs) && NondecreasingClock(reqs) && n < |reqs|
    ensures c.Valid() && |oks| == |reqs| && |states| == |reqs| + 1
    ensures Allows(c, states[n], reqs[n], oks[n], states[n + 1]) && !BatchFires(states[n], reqs[n])
    ensures n > 0 ==> reqs[n - 1].at <= reqs[n].at
  {
    hide Allows, BatchFires;
  }

  lemma RefAfterStep(c: Config, reqs: seq<Request>, n: nat)
    requires 0 < n <= |reqs|
    ensures RefAfter(c, reqs[..n]) == RefNext(c, RefAfter(c, reqs[..n - 1]), reqs[n - 1])
  {
    assert reqs[..n][..n - 1] == reqs[..n - 1];
    hide RefNext;
  }

  lemma StartSimulates(c: Config, states: seq<State>, reqs: seq<Request>, oks: seq<bool>, t: int)
    requires IsRun(c, states, reqs, oks)
    ensures Simulates(c, states[0], RefAfter(c, reqs[..0]), t)
  {
    hide Allows;
  }

  lemma {:induction false} RunSimulates(
    c: Config, states: seq<State>, reqs: seq<Request>, oks: seq<bool>, n: nat)
    requires IsRun(c, states, reqs, oks) && NoBatch(states, reqs) && NondecreasingClock(reqs)
    requires IdleMeansFull(c) && n < |reqs|
    ensures Simulates(c, states[n], RefAfter(c, reqs[..n]), reqs[n].at)
    ensures oks[n] == RefAnswer(c, RefAfter(c, reqs[..n]), reqs[n])
  {
    hide *;
    var m := RefAfter(c, reqs[..n]);
    StepOfRun(c, states, reqs, oks, n);
    if n == 0 {
      StartSimulates(c, states, reqs, oks, reqs[n].at);
    } else {
      RunSimulates(c, states, reqs, oks, n - 1);
      StepOfRun(c, states, reqs, oks, n - 1);
      RefAfterStep(c, reqs, n);
      StepSimulates(c, states[n - 1], RefAfter(c, reqs[..n - 1]), reqs[n - 1], oks[n - 1], states[n]);
      LaterSimulates(c, states[n], m, reqs[n - 1].at, reqs[n].at);
    }
    StepSimulates(c, states[n], m, reqs[n], oks[n], states[n + 1]);
  }

  // ------------------------------------- the run that tells the limiters apart

  function KeyOf(n: nat): (k: Key)
    ensures |k| == n
  {
    seq(n, i => 'k')
  }

  /** n distinct keys, all drained at instant 0. */
  function Drained(n: nat): (m: map<Key, Bucket>)
    ensures |m| == n
    ensures forall k :: k in m ==> |k| < n && m[k] == Bucket(0.0, 0)
  {
    if n == 0 then map[]
    else
      var m := Drained(n - 1);
      assert m[KeyOf(n - 1) := Bucket(0.0, 0)].Keys == m.Keys + {KeyOf(n - 1)};
      m[KeyOf(n - 1) := Bucket(0.0, 0)]
  }

  function Drain(c: Config, n: nat): Request { Request(KeyOf(n), c.burst, 0) }

  function Flood(c: Config, n: nat): seq<Request> { seq(n, i requires 0 <= i => Drain(c, i)) }

  lemma {:induction false} FirstKeyDrained(n: nat)
    requires n > 0
    ensures KeyOf(0) in Drained(n)
  {
    if n == 1 {
    } else {
      FirstKeyDrained(n - 1);
    }
  }

  lemma DrainedNext(c: Config, m: map<Key, Bucket>, n: nat)
    requires c.Valid() && KeyOf(n) !in m
    ensures RefNext(c, m, Drain(c, n)) == m[KeyOf(n) := Bucket(0.0, 0)]
  {
  }

  lemma RefAfterOneMore(c: Config, reqs: seq<Request>, q: Request)
    ensures RefAfter(c, reqs + [q]) == RefNext(c, RefAfter(c, reqs), q)
  {
    assert (reqs + [q])[..|reqs|] == reqs;
  }

  lemma FloodNext(c: Config, n: nat)
    ensures Flood(c, n + 1) == Flood(c, n) + [Drain(c, n)]
  {
  }

  lemma DrainedGrows(n: nat)
    ensures KeyOf(n) !in Drained(n) && Drained(n + 1) == Drained(n)[KeyOf(n) := Bucket(0.0, 0)]
  {
  }

  lemma {:induction false} FloodReference(c: Config, n: nat)
    requires c.Valid()
    ensures RefAfter(c, Flood(c, n)) == Drained(n)
  {
    if n == 0 {
    } else {
      hide *;
      FloodReference(c, n - 1);
      FloodNext(c, n - 1);
      DrainedGrows(n - 1);
      RefAfterOneMore(c, Flood(c, n - 1), Drain(c, n - 1));
      DrainedNext(c, Drained(n - 1), n - 1);
    }
  }

  /** While there are few buckets a new key drains a full one and evicts nothing. */
  lemma NewKeyDrains(c: Config, m: map<Key, Bucket>, key: Key)
    requires c.Valid() && |m| < SWEEP_THRESHOLD && key !in m
    ensures Allows(c, State(m, 0), Request(key, c.burst, 0), true, State(m[key := Bucket(0.0, 0)], 0))
    ensures !BatchFires(State(m, 0), Request(key, c.burst, 0))
  {
    NewKeyAllowed(c, State(m, 0), Request(key, c.burst, 0), m);
    hide Allows;
  }

  lemma FloodStep(c: Config, n: nat)
    requires c.Valid() && n < SWEEP_THRESHOLD
    ensures Allows(c, State(Drained(n), 0), Drain(c, n), true, State(Drained(n + 1), 0))
    ensures !BatchFires(State(Drained(n), 0), Drain(c, n))
  {
    hide Allows, BatchFires, Drained;
    DrainedGrows(n);
    NewKeyDrains(c, Drained(n), KeyOf(n));
  }

  function FloodStates(n: nat): seq<State> { seq(n + 1, i requires 0 <= i => State(Drained(i), 0)) }

  function Trigger(c: Config, n: nat): Request { Request(KeyOf(n), c.burst, SHORTEST_IDLE) }

  function Again(c: Config): Request { Request(KeyOf(0), c.burst, SHORTEST_IDLE) }

  const EMPTY := Bucket(0.0, SHORTEST_IDLE)

  function AfterTrigger(n: nat): State { State(map[KeyOf(n) := EMPTY], SHORTEST_IDLE) }

  function AfterAgain(n: nat): State { State(map[KeyOf(n) := EMPTY][KeyOf(0) := EMPTY], SHORTEST_IDLE) }

  lemma SweptAway(n: nat)
    ensures Swept(Drained(n), SHORTEST_IDLE) == map[]
  {
  }

  lemma SweepStep(c: Config, m: map<Key, Bucket>, key: Key)
    requires c.Valid() && |m| == SWEEP_THRESHOLD && key !in m && Swept(m, SHORTEST_IDLE) == map[]
    ensures var q := Request(key, c.burst, SHORTEST_IDLE);
            Allows(c, State(m, 0), q, true, State(map[key := EMPTY], SHORTEST_IDLE))
            && !BatchFires(State(m, 0), q)
  {
    NewKeyAllowed(c, State(m, 0), Request(key, c.burst, SHORTEST_IDLE), map[]);
  }

  lemma TriggerStep(c: Config, n: nat)
    requires c.Valid() && n == SWEEP_THRESHOLD
    ensures Allows(c, State(Drained(n), 0), Trigger(c, n), true, AfterTrigger(n))
    ensures !BatchFires(State(Drained(n), 0), Trigger(c, n))
  {
    SweptAway(n);
    SweepStep(c, Drained(n), KeyOf(n));
    hide Allows, BatchFires, Drained;
  }

  lemma AgainStep(c: Config, n: nat)
    requires c.Valid() && n > 0
    ensures Allows(c, AfterTrigger(n), Again(c), true, AfterAgain(n))
    ensures !BatchFires(AfterTrigger(n), Again(c))
  {
    assert |AfterTrigger(n).buckets| == 1;
    assert KeyOf(0) != KeyOf(n);
    NewKeyAllowed(c, AfterTrigger(n), Again(c), AfterTrigger(n).buckets);
  }

  lemma ReferenceDenies(c: Config, n: nat)
    requires c.Valid() && n > 0 && !IdleMeansFull(c)
    ensures !RefAnswer(c, RefAfter(c, Flood(c, n) + [Trigger(c, n)]), Again(c))
  {
    var reqs := Flood(c, n) + [Trigger(c, n)];
    assert reqs[..n] == Flood(c, n);
    FloodReference(c, n);
    FirstKeyDrained(n);
    assert KeyOf(0) != KeyOf(n);
    assert RefAfter(c, reqs)[KeyOf(0)] == Bucket(0.0, 0);
  }

  /**
   Drain SWEEP_THRESHOLD keys at once, wait the shortest idle time, let a new key
   trigger the sweep, and drain the first key again: it starts afresh here but has
   not refilled in the limiter that never evicts.
   */
  function TraceReqs(c: Config, n: nat): seq<Request> { Flood(c, n) + [Trigger(c, n), Again(c)] }

  function TraceStates(n: nat): seq<State> { FloodStates(n) + [AfterTrigger(n), AfterAgain(n)] }

  lemma TraceStatesAt(n: nat, i: nat)
    requires i <= n + 2
    ensures TraceStates(n)[i] ==
              if i <= n then State(Drained(i), 0) else if i == n + 1 then AfterTrigger(n) else AfterAgain(n)
  {
  }

  lemma TraceReqsAt(c: Config, n: nat, i: nat)
    requires i < n + 2
    ensures TraceReqs(c, n)[i] == if i < n then Drain(c, i) else if i == n then Trigger(c, n) else Again(c)
  {
  }

  lemma TraceStep(c: Config, n: nat, i: nat)
    requires c.Valid() && n == SWEEP_THRESHOLD && i < n + 2
    ensures Allows(c, TraceStates(n)[i], TraceReqs(c, n)[i], true, TraceStates(n)[i + 1])
    ensures !BatchFires(TraceStates(n)[i], TraceReqs(c, n)[i])
  {
    TraceStatesAt(n, i);
    TraceStatesAt(n, i + 1);
    TraceReqsAt(c, n, i);
    hide *;
    if i < n {
      FloodStep(c, i);
    } else if i == n {
      TriggerStep(c, n);
    } else {
      AgainStep(c, n);
    }
  }

  lemma TraceClock(c: Config, n: nat)
    ensures NondecreasingClock(TraceReqs(c, n))
  {
  }

  lemma TraceIsRun(c: Config, n: nat)
    requires c.Valid() && n == SWEEP_THRESHOLD
    ensures IsRun(c, TraceStates(n), TraceReqs(c, n), seq(n + 2, i => true))
    ensures NoBatch(TraceStates(n), TraceReqs(c, n))
  {
    assert TraceStates(n)[0] == State(Drained(0), 0) == INITIAL;
    forall i | 0 <= i < n + 2
      ensures Allows(c, TraceStates(n)[i], TraceReqs(c, n)[i], true, TraceStates(n)[i + 1])
      ensures !BatchFires(TraceStates(n)[i], TraceReqs(c, n)[i])
    {
      TraceStep(c, n, i);
    }
  }

  lemma IdleEvictionObservable(c: Config, n: nat)
    requires c.Valid() && !IdleMeansFull(c) && n == SWEEP_THRESHOLD
    ensures var reqs, oks := TraceReqs(c, n), seq(n + 2, i => true);
            IsRun(c, TraceStates(n), reqs, oks) && NoBatch(TraceStates(n), reqs) && NondecreasingClock(reqs)
            && !SameAnswers(c, reqs, oks)
  {
    var reqs, oks := TraceReqs(c, n), seq(n + 2, i => true);
    TraceIsRun(c, n);
    TraceClock(c, n);
    ReferenceDenies(c, n);
    assert reqs[..n + 1] == Flood(c, n) + [Trigger(c, n)];
    assert oks[n + 1] != RefAnswer(c, RefAfter(c, reqs[..n + 1]), reqs[n + 1]);
  }

  /**
   Evicting idle buckets is behaviour-preserving, for every run of a clock that never
   goes back and in which no batch eviction fires, if and only if the burst refills
   within the shortest idle time that leads to eviction.
   */
  lemma IdleEvictionPreservesAnswersIff(c: Config)
    requires c.Valid()
    ensures IdleMeansFull(c) <==>
              forall states, reqs, oks ::
                IsRun(c, states, reqs, oks) && NoBatch(states, reqs) && NondecreasingClock(reqs)
                ==> SameAnswers(c, reqs, oks)
  {
    if IdleMeansFull(c) {
      forall states, reqs, oks |
        IsRun(c, states, reqs, oks) && NoBatch(states, reqs) && NondecreasingClock(reqs)
        ensures SameAnswers(c, reqs, oks)
      {
        forall i | 0 <= i < |reqs| ensures oks[i] == RefAnswer(c, RefAfter(c, reqs[..i]), reqs[i]) {
          RunSimulates(c, states, reqs, oks, i);
        }
      }
    } else {
      IdleEvictionObservable(c, SWEEP_THRESHOLD);
    }
  }
}

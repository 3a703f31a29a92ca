/**
 The per-key token-bucket limiter with bounded memory
 (internal/adapters/inbound/grpc/ratelimit.go).

 Instants are integer nanoseconds since the zero time of the source's clock, so
 the initial lastSweep is 0.  Rates and tokens are real numbers.
 */
module RateLimiting {

  type Key = string

  const SECOND: int := 1_000_000_000
  const SWEEP_THRESHOLD: int := 10_000
  const IDLE_EVICT_AFTER: int := 600 * SECOND
  const MAX_BUCKETS: int := 2 * SWEEP_THRESHOLD
  const EVICT_LOW_WATER: int := MAX_BUCKETS - MAX_BUCKETS / 10
  const SWEEP_INTERVAL: int := SECOND
  const MAX_DURATION: int := 0x7fff_ffff_ffff_ffff

  // ---------------------------------------------------------------- arithmetic

  /** The distance between two instants, saturating at the range of a 64-bit duration. */
  function Sub(t: int, u: int): int {
    if t - u > MAX_DURATION then MAX_DURATION
    else if t - u < -MAX_DURATION - 1 then -MAX_DURATION - 1
    else t - u
  }

  function Seconds(d: int): real {
    d as real / SECOND as real
  }

  datatype Config = Config(rate: real, burst: real) {
    predicate Valid() { rate > 0.0 && burst >= 1.0 }

    /** The tokens earned in d nanoseconds. */
    function Earned(d: int): real { Seconds(d) * rate }
  }

  datatype Bucket = Bucket(tokens: real, last: int)

  datatype State = State(buckets: map<Key, Bucket>, lastSweep: int)

  datatype Request = Request(key: Key, cost: real, at: int)

  const INITIAL := State(map[], 0)

  function ClampCost(c: Config, cost: real): real {
    var atLeastOne := if cost < 1.0 then 1.0 else cost;
    if atLeastOne > c.burst then c.burst else atLeastOne
  }

  /** Lazy refill: credit the elapsed time, up to the burst ceiling. */
  function Refill(c: Config, b: Bucket, t: int): Bucket {
    var elapsed := Sub(t, b.last);
    if elapsed > 0 then
      var credited := b.tokens + c.Earned(elapsed);
      Bucket(if credited < c.burst then credited else c.burst, t)
    else b
  }

  function Charge(b: Bucket, cost: real): Bucket {
    if b.tokens >= cost then b.(tokens := b.tokens - cost) else b
  }

  // ------------------------------------------------------------------ eviction

  predicate Idle(b: Bucket, now: int) {
    Sub(now, b.last) > IDLE_EVICT_AFTER
  }

  function Swept(m: map<Key, Bucket>, now: int): map<Key, Bucket> {
    map k | k in m && !Idle(m[k], now) :: m[k]
  }

  function AfterSweep(s: State, t: int): State {
    if |s.buckets| >= SWEEP_THRESHOLD && Sub(t, s.lastSweep) >= SWEEP_INTERVAL
    then State(Swept(s.buckets, t), t) else s
  }

  ghost predicate SubMap(small: map<Key, Bucket>, big: map<Key, Bucket>) {
    forall k :: k in small ==> k in big && small[k] == big[k]
  }

  /** What a batch eviction may leave: any buckets at all, down to the low-water mark. */
  ghost predicate BatchEvicted(before: map<Key, Bucket>, after: map<Key, Bucket>) {
    SubMap(after, before) && |after| == EVICT_LOW_WATER
  }

  ghost predicate MakesRoom(before: map<Key, Bucket>, after: map<Key, Bucket>) {
    if |before| >= MAX_BUCKETS then BatchEvicted(before, after) else after == before
  }

  // ------------------------------------------------------------- one admission

  predicate IsNewKey(s: State, q: Request) {
    q.key !in s.buckets
  }

  predicate BatchFires(s: State, q: Request) {
    IsNewKey(s, q) && |AfterSweep(s, q.at).buckets| >= MAX_BUCKETS
  }

  /** The limiter may go from s to s' on request q, answering ok. */
  ghost predicate Allows(c: Config, s: State, q: Request, ok: bool, s': State) {
    var cost := ClampCost(c, q.cost);
    if IsNewKey(s, q) then
      var swept := AfterSweep(s, q.at);
      var room := s'.buckets - {q.key};
      var b := Bucket(c.burst, q.at);
      && MakesRoom(swept.buckets, room)
      && s'.lastSweep == swept.lastSweep
      && s'.buckets == room[q.key := Charge(b, cost)]
      && ok == (b.tokens >= cost)
    else
      var b := Refill(c, s.buckets[q.key], q.at);
      && s' == s.(buckets := s.buckets[q.key := Charge(b, cost)])
      && ok == (b.tokens >= cost)
  }

  // ------------------------------------------------------------ implementation

  lemma NewKeyAllowed(c: Config, s: State, q: Request, room: map<Key, Bucket>)
    requires IsNewKey(s, q) && MakesRoom(AfterSweep(s, q.at).buckets, room)
    ensures var b := Bucket(c.burst, q.at);
            Allows(c, s, q, b.tokens >= ClampCost(c, q.cost),
                   State(room[q.key := Charge(b, ClampCost(c, q.cost))], AfterSweep(s, q.at).lastSweep))
  {
    var b := Charge(Bucket(c.burst, q.at), ClampCost(c, q.cost));
    assert room[q.key := b] - {q.key} == room;
  }

  class RateLimiter {
    const rate: real
    const burst: real
    var buckets: map<Key, Bucket>
    var lastSweep: int

    function Cfg(): Config { Config(rate, burst) }

    function View(): State reads this { State(buckets, lastSweep) }

    constructor (ratePerSec: real, burst: real)
      ensures Cfg().Valid()
      ensures ratePerSec > 0.0 ==> rate == ratePerSec
      ensures burst >= 1.0 ==> this.burst == burst
      ensures View() == INITIAL
    {
      this.rate := if ratePerSec <= 0.0 then 1.0 else ratePerSec;
      this.burst := if burst < 1.0 then 1.0 else burst;
      buckets, lastSweep := map[], 0;
    }

    method AllowN(key: Key, cost: real, t: int) returns (ok: bool)
      modifies this
      ensures Allows(Cfg(), old(View()), Request(key, cost, t), ok, View())
    {
      ghost var s, q := View(), Request(key, cost, t);
      var cost' := if cost < 1.0 then 1.0 else cost;
      if cost' > burst {
        cost' := burst;
      }
      var b;
      if key !in buckets {
        MakeRoom(t);
        NewKeyAllowed(Cfg(), s, q, buckets);
        b := Bucket(burst, t);
      } else {
        b := Refill(Cfg(), buckets[key], t);
      }
      ok := b.tokens >= cost';
      buckets := buckets[key := Charge(b, cost')];
    }

    /** The evictions that precede the admission of a key not tracked so far. */
    method MakeRoom(t: int)
      modifies this
      ensures lastSweep == AfterSweep(old(View()), t).lastSweep
      ensures MakesRoom(AfterSweep(old(View()), t).buckets, buckets)
    {
      if |buckets| >= SWEEP_THRESHOLD && Sub(t, lastSweep) >= SWEEP_INTERVAL {
        EvictIdle(t);
        lastSweep := t;
      }
      if |buckets| >= MAX_BUCKETS {
        EvictBatch();
      }
    }

    method EvictIdle(now: int)
      modifies this`buckets
      ensures buckets == Swept(old(buckets), now)
    {
      var todo := buckets.Keys;
      while todo != {}
        invariant todo <= buckets.Keys <= old(buckets).Keys
        invariant forall k :: k in buckets ==> buckets[k] == old(buckets)[k]
        invariant forall k :: k in old(buckets) && k !in todo ==>
                    (k in buckets <==> !Idle(old(buckets)[k], now))
        decreases |todo|
      {
        var key :| key in todo;
        todo := todo - {key};
        if Idle(buckets[key], now) {
          buckets := buckets - {key};
        }
      }
    }

    method EvictBatch()
      requires |buckets| >= MAX_BUCKETS
      modifies this`buckets
      ensures BatchEvicted(old(buckets), buckets)
    {
      var todo := buckets.Keys;
      while todo != {}
        invariant todo <= buckets.Keys
        invariant SubMap(buckets, old(buckets))
        invariant EVICT_LOW_WATER <= |buckets|
        invariant |buckets.Keys - todo| == 0
        decreases |todo|
      {
        var key :| key in todo;
        if |buckets| <= EVICT_LOW_WATER {
          return;
        }
        todo := todo - {key};
        ghost var keys := buckets.Keys;
        buckets := buckets - {key};
        assert buckets.Keys == keys - {key};
      }
      assert false; // the map cannot run out of keys above the low-water mark
    }
  }
}

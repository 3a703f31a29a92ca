/**
 The idempotency stores and the run of one delivery over them
 (internal/adapters/inbound/jobs/idempotency.go and idempotency_redis.go).
 */
module JobStores {
  import opened Prelude
  import opened Text

  type Key = string

  // ------------------------------------------------------------- process-local

  datatype KeyState = InProgress | Completed

  type States = map<Key, KeyState>

  predicate Claimable(m: States, key: Key) { key !in m }

  function Claimed(m: States, key: Key): States {
    if Claimable(m, key) then m[key := InProgress] else m
  }

  function Released(m: States, key: Key): States {
    if key in m && m[key] == Completed then m else m - {key}
  }

  class MemoryIdempotencyStore {
    var states: States

    constructor ()
      ensures states == map[]
    {
      states := map[];
    }

    method Claim(key: Key) returns (r: Result<bool>)
      modifies this
      ensures Blank(key) ==> r == Err(Invalid) && states == old(states)
      ensures !Blank(key) ==> r == Ok(Claimable(old(states), key)) && states == Claimed(old(states), key)
      ensures !Blank(key) ==>
                && r == Ok(key !in old(states))
                && states == if key in old(states) then old(states) else old(states)[key := InProgress]
    {
      TrimSpaceEmpty(key);
      if TrimSpace(key) == "" {
        return Err(Invalid);
      }
      if key in states {
        return Ok(false);
      }
      states := states[key := InProgress];
      return Ok(true);
    }

    method Complete(key: Key) returns (r: Result<()>)
      modifies this
      ensures Blank(key) ==> r == Err(Invalid) && states == old(states)
      ensures !Blank(key) ==> r == Ok(()) && states == old(states)[key := Completed]
    {
      TrimSpaceEmpty(key);
      if TrimSpace(key) == "" {
        return Err(Invalid);
      }
      states := states[key := Completed];
      return Ok(());
    }

    method Release(key: Key) returns (r: Result<()>)
      modifies this
      ensures Blank(key) ==> r == Err(Invalid) && states == old(states)
      ensures !Blank(key) ==> r == Ok(()) && states == Released(old(states), key)
      ensures !Blank(key) ==>
                if key in old(states) && old(states)[key] == Completed then states == old(states)
                else states == old(states) - {key}
    {
      TrimSpaceEmpty(key);
      if TrimSpace(key) == "" {
        return Err(Invalid);
      }
      if key in states && states[key] == Completed {
        return Ok(());
      }
      states := states - {key};
      return Ok(());
    }
  }

  /** What the job function does with the task it is given. */
  datatype JobOutcome = Returns | Fails | Panics

  datatype Delivery = Rejected | Duplicate | Done | Failed | Panicked

  /** One delivery, run to its end with no other worker in between. */
  method Deliver(store: MemoryIdempotencyStore, key: Key, job: JobOutcome) returns (d: Delivery)
    modifies store
    ensures Blank(key) ==> d == Rejected && store.states == old(store.states)
    ensures !Blank(key) && key in old(store.states) ==> d == Duplicate && store.states == old(store.states)
    ensures !Blank(key) && key !in old(store.states) ==>
              match job
              case Returns => d == Done && store.states == old(store.states)[key := Completed]
              case Fails => d == Failed && store.states == old(store.states)
              case Panics => d == Panicked && store.states == old(store.states)
  {
    var claim := store.Claim(key);
    if claim.Err? {
      return Rejected;
    }
    if !claim.value {
      return Duplicate;
    }
    var completed := false;
    match job {
      case Fails =>
        completed := true;
        var ignored := store.Release(key);
        d := Failed;
      case Panics =>
        d := Panicked;
      case Returns =>
        var r := store.Complete(key);
        if r.Ok? {
          completed := true;
        }
        d := if r.Ok? then Done else Failed;
    }
    // The deferred release: it also runs while a panic unwinds.
    if !completed {
      var ignored := store.Release(key);
    }
  }

  // -------------------------------------------------------- shared, with expiry

  const CLAIM_TTL: int := 15 * 60
  const COMPLETE_TTL: int := 24 * 60 * 60

  /** A stored value and the instant, in seconds, at which it ceases to exist. */
  datatype Entry = Entry(state: KeyState, expires: int)

  type Entries = map<Key, Entry>

  predicate Live(m: Entries, key: Key, now: int) {
    key in m && now < m[key].expires
  }

  /** SET NX with the claim expiry; it succeeds only when no live value is there. */
  function SetNX(m: Entries, key: Key, now: int): Entries {
    if Live(m, key, now) then m else m[key := Entry(InProgress, now + CLAIM_TTL)]
  }

  function SetDone(m: Entries, key: Key, now: int): Entries {
    m[key := Entry(Completed, now + COMPLETE_TTL)]
  }

  /** The release script: check for a live done value and delete otherwise, in one step. */
  function ReleaseScript(m: Entries, key: Key, now: int): Entries {
    if Live(m, key, now) && m[key].state == Completed then m else m - {key}
  }

  /** Where a call to the shared store may break: not at all, before or after taking effect. */
  datatype Fault = NoFault | Lost | Unanswered

  class RedisIdempotencyStore {
    var entries: Entries

    constructor ()
      ensures entries == map[]
    {
      entries := map[];
    }

    method Claim(key: Key, now: int, fault: Fault) returns (r: Result<bool>)
      modifies this
      ensures Blank(key) ==> r == Err(Invalid) && entries == old(entries)
      ensures !Blank(key) ==>
                && entries == (if fault == Lost then old(entries) else SetNX(old(entries), key, now))
                && r == (if fault == NoFault then Ok(!Live(old(entries), key, now)) else Err(Internal))
      ensures !Blank(key) && fault != Lost ==>
                if key in old(entries) && now < old(entries)[key].expires then entries == old(entries)
                else entries == old(entries)[key := Entry(InProgress, now + 15 * 60)]
      ensures !Blank(key) && fault == NoFault ==>
                (r == Ok(true) <==> !(key in old(entries) && now < old(entries)[key].expires))
    {
      TrimSpaceEmpty(key);
      if TrimSpace(key) == "" {
        return Err(Invalid);
      }
      var free := !Live(entries, key, now);
      if fault != Lost {
        entries := SetNX(entries, key, now);
      }
      return if fault == NoFault then Ok(free) else Err(Internal);
    }

    method Complete(key: Key, now: int, fault: Fault) returns (r: Result<()>)
      modifies this
      ensures Blank(key) ==> r == Err(Invalid) && entries == old(entries)
      ensures !Blank(key) ==>
                && entries == (if fault == Lost then old(entries) else SetDone(old(entries), key, now))
                && r == (if fault == NoFault then Ok(()) else Err(Internal))
      ensures !Blank(key) && fault != Lost ==> entries == old(entries)[key := Entry(Completed, now + 24 * 60 * 60)]
    {
      TrimSpaceEmpty(key);
      if TrimSpace(key) == "" {
        return Err(Invalid);
      }
      if fault != Lost {
        entries := SetDone(entries, key, now);
      }
      return if fault == NoFault then Ok(()) else Err(Internal);
    }

    method Release(key: Key, now: int, fault: Fault) returns (r: Result<()>)
      modifies this
      ensures Blank(key) ==> r == Err(Invalid) && entries == old(entries)
      ensures !Blank(key) ==>
                && entries == (if fault == Lost then old(entries) else ReleaseScript(old(entries), key, now))
                && r == (if fault == NoFault then Ok(()) else Err(Internal))
      ensures !Blank(key) && fault != Lost ==>
                if key in old(entries) && now < old(entries)[key].expires && old(entries)[key].state == Completed
                then entries == old(entries) else entries == old(entries) - {key}
    {
      TrimSpaceEmpty(key);
      if TrimSpace(key) == "" {
        return Err(Invalid);
      }
      if fault != Lost {
        entries := ReleaseScript(entries, key, now);
      }
      return if fault == NoFault then Ok(()) else Err(Internal);
    }
  }
}

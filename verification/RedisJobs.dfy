/**
 Any number of workers, on any number of replicas, over the shared store: claims
 expire, workers crash, and calls to the store break.  A claim carries no owner.
 */
module RedisJobs {
  import opened JobStores
  import opened Text

  type Worker = nat

  datatype Phase = Running | Succeeded | Releasing

  /** since is the instant of the claim. */
  datatype Hold = Hold(key: Key, phase: Phase, since: int)

  datatype World = World(
    now: int,
    entries: Entries,
    workers: map<Worker, Hold>,
    succeeded: multiset<Key>,  // jobs that returned
    recorded: multiset<Key>,   // ... and whose Complete was answered
    unrecorded: multiset<Key>) // ... and whose worker crashed, or saw Complete fail, before that

  const START := World(0, map[], map[], multiset{}, multiset{}, multiset{})

  datatype Event =
    | Tick(seconds: nat)
    | Deliver(w: Worker, key: Key, fault: Fault)
    | JobReturns(w: Worker)
    | JobFails(w: Worker) // by an error or by a panic
    | Complete(w: Worker, fault: Fault)
    | Release(w: Worker, fault: Fault)
    | Crash(w: Worker)

  predicate In(s: World, w: Worker, phase: Phase) {
    w in s.workers && s.workers[w].phase == phase
  }

  predicate Enabled(s: World, e: Event) {
    match e
    case Tick(d) => true
    case Deliver(w, key, fault) => w !in s.workers
    case JobReturns(w) => In(s, w, Running)
    case JobFails(w) => In(s, w, Running)
    case Complete(w, fault) => In(s, w, Succeeded)
    case Release(w, fault) => In(s, w, Releasing)
    case Crash(w) => w in s.workers
  }

  function Next(s: World, e: Event): World
    requires Enabled(s, e)
  {
    match e
    case Tick(d) => s.(now := s.now + d)
    case Deliver(w, key, fault) =>
      if Blank(key) || fault == Lost then s
      else s.(entries := SetNX(s.entries, key, s.now),
              workers := if fault == NoFault && !Live(s.entries, key, s.now)
                         then s.workers[w := Hold(key, Running, s.now)] else s.workers)
    case JobReturns(w) =>
      var key := s.workers[w].key;
      s.(workers := s.workers[w := s.workers[w].(phase := Succeeded)], succeeded := s.succeeded + multiset{key})
    case JobFails(w) => s.(workers := s.workers[w := s.workers[w].(phase := Releasing)])
    case Complete(w, fault) =>
      var key := s.workers[w].key;
      var entries := if fault == Lost then s.entries else SetDone(s.entries, key, s.now);
      if fault == NoFault
      then s.(entries := entries, workers := s.workers - {w}, recorded := s.recorded + multiset{key})
      else s.(entries := entries, workers := s.workers[w := s.workers[w].(phase := Releasing)],
              unrecorded := s.unrecorded + multiset{key})
    case Release(w, fault) =>
      s.(entries := if fault == Lost then s.entries else ReleaseScript(s.entries, s.workers[w].key, s.now),
         workers := s.workers - {w})
    case Crash(w) =>
      s.(workers := s.workers - {w},
         unrecorded := s.unrecorded + if In(s, w, Succeeded) then multiset{s.workers[w].key} else multiset{})
  }

  ghost predicate IsRunFrom(start: World, ws: seq<World>, es: seq<Event>) {
    && |ws| == |es| + 1 && ws[0] == start
    && forall i :: 0 <= i < |es| ==> Enabled(ws[i], es[i]) && ws[i + 1] == Next(ws[i], es[i])
  }

  // ---------------------------------------------------------- timing and safety

  ghost predicate Holds(s: World, w: Worker, key: Key) {
    w in s.workers && s.workers[w].key == key
  }

  /** No two workers are between claiming and letting go of one key. */
  ghost predicate Exclusive(s: World) {
    forall w, v, key :: Holds(s, w, key) && Holds(s, v, key) ==> w == v
  }

  /** No two workers are running the job of one key. */
  ghost predicate NoDoubleRun(s: World) {
    forall w, v, key :: Holds(s, w, key) && Holds(s, v, key) && In(s, w, Running) && In(s, v, Running) ==> w == v
  }

  /** Every worker still at work on a key is within the lifetime of the value it stored. */
  ghost predicate InTime(s: World) {
    forall w :: w in s.workers ==> Live(s.entries, s.workers[w].key, s.now)
  }

  /** The value a worker stored is still where it put it, live or expired. */
  ghost predicate Backed(s: World, w: Worker)
    requires w in s.workers
  {
    var h := s.workers[w];
    && h.key in s.entries && !Blank(h.key) && h.since <= s.now
    && s.entries[h.key].expires >= h.since + CLAIM_TTL
    && (!h.phase.Releasing? ==> s.entries[h.key] == Entry(InProgress, h.since + CLAIM_TTL))
  }

  ghost predicate Inv(s: World) {
    Exclusive(s) && forall w :: w in s.workers ==> Backed(s, w)
  }

  /** Every worker at work claimed its key less than CLAIM_TTL ago. */
  ghost predicate Punctual(s: World) {
    forall w :: w in s.workers ==> s.now < s.workers[w].since + CLAIM_TTL
  }

  lemma OthersElsewhere(s: World, e: Event, w: Worker)
    requires Inv(s) && InTime(s) && Enabled(s, e) && !e.Tick? && w in s.workers && w != e.w
    ensures w in Next(s, e).workers && Next(s, e).workers[w] == s.workers[w]
    ensures var key := s.workers[w].key; key in Next(s, e).entries && Next(s, e).entries[key] == s.entries[key]
  {
    if e.w in s.workers {
      assert !(Holds(s, w, s.workers[e.w].key) && Holds(s, e.w, s.workers[e.w].key));
    }
  }

  lemma StepExclusive(s: World, e: Event)
    requires Inv(s) && InTime(s) && Enabled(s, e)
    ensures Exclusive(Next(s, e))
  {
    var s' := Next(s, e);
    forall w, v, key | Holds(s', w, key) && Holds(s', v, key) ensures w == v {
      assert Holds(s, w, key) || e.Deliver?;
      assert Holds(s, v, key) || e.Deliver?;
    }
  }

  lemma StepInv(s: World, e: Event)
    requires Inv(s) && InTime(s) && Enabled(s, e)
    ensures Inv(Next(s, e))
    ensures !e.Tick? ==> InTime(Next(s, e))
  {
    var s' := Next(s, e);
    StepExclusive(s, e);
    forall w | w in s'.workers ensures Backed(s', w) && (!e.Tick? ==> Live(s'.entries, s'.workers[w].key, s'.now)) {
      if !e.Tick? && w != e.w {
        OthersElsewhere(s, e, w);
        assert Backed(s, w);
      } else if w in s.workers {
        assert Backed(s, w);
      }
    }
  }

  lemma {:induction false} RunInv(start: World, ws: seq<World>, es: seq<Event>, n: nat)
    requires IsRunFrom(start, ws, es) && Inv(start) && n < |ws|
    requires forall i :: 0 <= i < n ==> InTime(ws[i])
    ensures Inv(ws[n])
  {
    if n == 0 {
    } else {
      RunInv(start, ws, es, n - 1);
      StepInv(ws[n - 1], es[n - 1]);
    }
  }

  /** While every worker lets go or crashes within CLAIM_TTL of its claim, no key is ever run twice at once. */
  lemma {:induction false} PunctualRunsExclude(ws: seq<World>, es: seq<Event>, n: nat)
    requires IsRunFrom(START, ws, es) && n < |ws|
    requires forall i :: 0 <= i < n ==> Punctual(ws[i])
    ensures Inv(ws[n]) && Exclusive(ws[n]) && NoDoubleRun(ws[n])
    ensures Punctual(ws[n]) ==> InTime(ws[n])
  {
    if n == 0 {
    } else {
      PunctualRunsExclude(ws, es, n - 1);
      StepInv(ws[n - 1], es[n - 1]);
    }
  }

  predicate NoTick(es: seq<Event>) {
    forall i :: 0 <= i < |es| ==> !es[i].Tick?
  }

  // ----------------------------------------------- the timing is exactly needed

  lemma {:induction false} QuietRun(start: World, ws: seq<World>, es: seq<Event>, n: nat)
    requires IsRunFrom(start, ws, es) && Inv(start) && InTime(start) && n < |ws|
    requires NoTick(es)
    ensures Inv(ws[n]) && InTime(ws[n])
  {
    if n == 0 {
    } else {
      QuietRun(start, ws, es, n - 1);
      StepInv(ws[n - 1], es[n - 1]);
    }
  }

  /** A run from the next state, begun one step earlier. */
  lemma Earlier(s: World, e: Event, ws: seq<World>, es: seq<Event>) returns (ws': seq<World>, es': seq<Event>)
    requires Enabled(s, e) && !e.Tick? && IsRunFrom(Next(s, e), ws, es) && NoTick(es)
    ensures IsRunFrom(s, ws', es') && NoTick(es') && ws'[|es'|] == ws[|es|]
  {
    ws', es' := [s] + ws, [e] + es;
    hide Enabled, Next;
    forall i | 0 <= i < |es'| ensures Enabled(ws'[i], es'[i]) && ws'[i + 1] == Next(ws'[i], es'[i]) {
      assert i > 0 ==> es'[i] == es[i - 1] && ws'[i] == ws[i - 1];
      assert ws'[i + 1] == ws[i];
    }
  }

  lemma NoMoreSteps(s: World) returns (ws: seq<World>, es: seq<Event>)
    ensures IsRunFrom(s, ws, es) && NoTick(es) && ws[|es|] == s
  {
    ws, es := [s], [];
  }

  /** A worker that lets go late deletes the value of another, and a third gets in. */
  lemma LateReleaseBreaks(s: World, w: Worker, y: Worker, z: Worker, key: Key) returns (ws: seq<World>, es: seq<Event>)
    requires !Blank(key) && key in s.entries && s.entries[key].state == InProgress
    requires Holds(s, w, key) && In(s, w, Releasing) && Holds(s, y, key) && In(s, y, Running) && z !in s.workers
    ensures IsRunFrom(s, ws, es) && NoTick(es)
    ensures !NoDoubleRun(ws[|es|])
  {
    var s1 := Next(s, Release(w, NoFault));
    var s2 := Next(s1, Deliver(z, key, NoFault));
    assert Holds(s2, y, key) && Holds(s2, z, key) && In(s2, y, Running) && In(s2, z, Running);
    hide NoDoubleRun, Next;
    ws, es := NoMoreSteps(s2);
    ws, es := Earlier(s1, Deliver(z, key, NoFault), ws, es);
    ws, es := Earlier(s, Release(w, NoFault), ws, es);
  }

  /** The same when the worker has first to fail at recording its success. */
  lemma LateWorkerBreaks(s: World, w: Worker, y: Worker, z: Worker, key: Key) returns (ws: seq<World>, es: seq<Event>)
    requires !Blank(key) && key in s.entries && s.entries[key].state == InProgress
    requires Holds(s, w, key) && Holds(s, y, key) && In(s, y, Running) && w != y && z !in s.workers
    ensures IsRunFrom(s, ws, es) && NoTick(es)
    ensures !NoDoubleRun(ws[|es|])
  {
    if In(s, w, Running) {
      ws, es := NoMoreSteps(s);
    } else if In(s, w, Releasing) {
      ws, es := LateReleaseBreaks(s, w, y, z, key);
    } else {
      ws, es := LateReleaseBreaks(Next(s, Complete(w, Lost)), w, y, z, key);
      hide Next;
      ws, es := Earlier(s, Complete(w, Lost), ws, es);
    }
  }

  /** Once a value of a worker at work has expired, two workers can come to run the job at once. */
  lemma OverstayBreaks(s: World, w: Worker, y: Worker, z: Worker) returns (ws: seq<World>, es: seq<Event>)
    requires Inv(s) && w in s.workers && !Live(s.entries, s.workers[w].key, s.now)
    requires y !in s.workers && z !in s.workers && y != z
    ensures IsRunFrom(s, ws, es) && NoTick(es)
    ensures !NoDoubleRun(ws[|es|])
  {
    var key := s.workers[w].key;
    ws, es := LateWorkerBreaks(Next(s, Deliver(y, key, NoFault)), w, y, z, key);
    hide Next;
    ws, es := Earlier(s, Deliver(y, key, NoFault), ws, es);
  }

  lemma FreshWorkers(workers: set<Worker>) returns (y: Worker, z: Worker)
    ensures y !in workers && z !in workers && y != z
  {
    var top := UpperBound(workers);
    y, z := top + 1, top + 2;
  }

  lemma {:induction false} UpperBound(ws: set<Worker>) returns (top: nat)
    ensures forall w :: w in ws ==> w <= top
    decreases ws
  {
    if ws == {} {
      top := 0;
    } else {
      var w :| w in ws;
      var rest := UpperBound(ws - {w});
      top := if w > rest then w else rest;
      assert forall v :: v in ws ==> v == w || v in ws - {w};
    }
  }

  ghost predicate SafeAtThisInstant(s: World) {
    forall ws, es ::
      IsRunFrom(s, ws, es) && NoTick(es) ==> NoDoubleRun(ws[|es|])
  }

  /**
   The exact timing assumption: at any moment, no interleaving of the next steps can run
   a key twice if and only if every worker at work is within the lifetime of its value.
   */
  lemma SafeIffInTime(s: World)
    requires Inv(s)
    ensures SafeAtThisInstant(s) <==> InTime(s)
  {
    if InTime(s) {
      forall ws, es | IsRunFrom(s, ws, es) && NoTick(es)
        ensures NoDoubleRun(ws[|es|])
      {
        QuietRun(s, ws, es, |es|);
      }
    } else {
      var w :| w in s.workers && !Live(s.entries, s.workers[w].key, s.now);
      var y, z := FreshWorkers(s.workers.Keys);
      var ws, es := OverstayBreaks(s, w, y, z);
    }
  }

  lemma {:induction false} SafeRunsAreInTime(ws: seq<World>, es: seq<Event>, n: nat)
    requires IsRunFrom(START, ws, es) && n <= |ws|
    requires forall i :: 0 <= i < n ==> SafeAtThisInstant(ws[i])
    ensures forall i :: 0 <= i < n ==> InTime(ws[i])
  {
    if n == 0 {
    } else {
      SafeRunsAreInTime(ws, es, n - 1);
      RunInv(START, ws, es, n - 1);
      SafeIffInTime(ws[n - 1]);
    }
  }

  /** The same over every run of the system: never unsafe if and only if no worker is ever late. */
  lemma RunSafeIffInTime(ws: seq<World>, es: seq<Event>)
    requires IsRunFrom(START, ws, es)
    ensures (forall n :: 0 <= n < |ws| ==> SafeAtThisInstant(ws[n])) <==> (forall n :: 0 <= n < |ws| ==> InTime(ws[n]))
  {
    if forall n :: 0 <= n < |ws| ==> InTime(ws[n]) {
      forall n | 0 <= n < |ws| ensures SafeAtThisInstant(ws[n]) {
        RunInv(START, ws, es, n);
        SafeIffInTime(ws[n]);
      }
    }
    if forall n :: 0 <= n < |ws| ==> SafeAtThisInstant(ws[n]) {
      SafeRunsAreInTime(ws, es, |ws|);
    }
  }

  /** Such a run exists: a job takes as long as its claim lives, and a redelivery runs it a second time. */
  lemma LateRunExists(key: Key) returns (ws: seq<World>, es: seq<Event>)
    requires !Blank(key)
    ensures es == [Deliver(0, key, NoFault), Tick(CLAIM_TTL), Deliver(1, key, NoFault)]
    ensures IsRunFrom(START, ws, es) && !NoDoubleRun(ws[|es|])
  {
    es := [Deliver(0, key, NoFault), Tick(CLAIM_TTL), Deliver(1, key, NoFault)];
    var s1 := Next(START, es[0]);
    var s2 := Next(s1, es[1]);
    var s3 := Next(s2, es[2]);
    ws := [START, s1, s2, s3];
    assert Holds(s3, 0, key) && Holds(s3, 1, key) && In(s3, 0, Running) && In(s3, 1, Running);
  }

  // ------------------------------------------------------- counting the successes

  /** No done value has expired. */
  ghost predicate DoneKept(s: World) {
    forall key :: key in s.entries && s.entries[key].state == Completed ==> Live(s.entries, key, s.now)
  }

  ghost predicate AwaitsRecord(s: World, w: Worker, key: Key) { Holds(s, w, key) && In(s, w, Succeeded) }

  ghost predicate Awaiting(s: World, key: Key) {
    exists w :: AwaitsRecord(s, w, key)
  }

  ghost predicate Counted(s: World, key: Key) {
    && s.succeeded[key] == s.recorded[key] + s.unrecorded[key] + (if Awaiting(s, key) then 1 else 0)
    && s.recorded[key] <= 1
    && (s.recorded[key] == 1 ==> Done(s, key))
  }

  predicate Done(s: World, key: Key) { key in s.entries && s.entries[key].state == Completed }

  lemma AwaitingMeansInProgress(s: World, key: Key)
    requires Inv(s) && Awaiting(s, key)
    ensures key in s.entries && s.entries[key].state == InProgress
  {
  }

  /** A done value that counts survives the step of any store operation. */
  lemma StepDone(s: World, e: Event, key: Key)
    requires DoneKept(s) && Enabled(s, e) && Done(s, key)
    ensures Done(Next(s, e), key)
  {
  }

  /** Only the worker of the step changes. */
  lemma OtherWorkers(s: World, e: Event, v: Worker)
    requires Enabled(s, e) && (e.Tick? || v != e.w)
    ensures v in Next(s, e).workers <==> v in s.workers
    ensures v in s.workers ==> Next(s, e).workers[v] == s.workers[v]
  {
  }

  /** A step that neither starts nor ends a wait for the record changes no count. */
  predicate Uncounted(s: World, e: Event) {
    || e.Tick? || e.Deliver? || e.JobFails? || e.Release?
    || (e.Crash? && !In(s, e.w, Succeeded))
  }

  lemma UncountedWorker(s: World, e: Event, key: Key)
    requires Enabled(s, e) && Uncounted(s, e) && !e.Tick?
    ensures !AwaitsRecord(s, e.w, key) && !AwaitsRecord(Next(s, e), e.w, key)
  {
  }

  lemma UncountedStep(s: World, e: Event, key: Key)
    requires DoneKept(s) && Enabled(s, e) && Uncounted(s, e) && Counted(s, key)
    ensures Counted(Next(s, e), key)
  {
    var s' := Next(s, e);
    forall w ensures AwaitsRecord(s', w, key) <==> AwaitsRecord(s, w, key) {
      if !e.Tick? {
        UncountedWorker(s, e, key);
      }
      if e.Tick? || w != e.w {
        OtherWorkers(s, e, w);
      }
    }
    if Done(s, key) {
      StepDone(s, e, key);
    }
    hide AwaitsRecord, DoneKept, Done;
  }

  /** A step at another key changes nothing about this one. */
  lemma OtherKeyStep(s: World, e: Event, key: Key)
    requires DoneKept(s) && Enabled(s, e) && !Uncounted(s, e) && !Holds(s, e.w, key) && Counted(s, key)
    ensures Counted(Next(s, e), key)
  {
    var s' := Next(s, e);
    forall w ensures AwaitsRecord(s', w, key) <==> AwaitsRecord(s, w, key) {
      if w != e.w {
        OtherWorkers(s, e, w);
      }
    }
    if Done(s, key) {
      StepDone(s, e, key);
    }
    hide DoneKept, Done;
  }

  lemma ReturnsStep(s: World, w: Worker, key: Key)
    requires Inv(s) && Enabled(s, JobReturns(w)) && Holds(s, w, key) && Counted(s, key)
    ensures Counted(Next(s, JobReturns(w)), key)
  {
    assert AwaitsRecord(Next(s, JobReturns(w)), w, key);
    forall v ensures !AwaitsRecord(s, v, key) {
      assert AwaitsRecord(s, v, key) ==> Holds(s, v, key) && v != w;
    }
    hide AwaitsRecord, Inv;
  }

  /** The wait of a worker ends: no one else waits, and nothing was recorded before. */
  lemma EndsWait(s: World, e: Event, key: Key)
    requires Inv(s) && (e.Complete? || e.Crash?) && Enabled(s, e) && AwaitsRecord(s, e.w, key) && Counted(s, key)
    ensures Awaiting(s, key) && !Awaiting(Next(s, e), key) && s.recorded[key] == 0
  {
    AwaitingMeansInProgress(s, key);
    forall v ensures !AwaitsRecord(Next(s, e), v, key) {
      if v != e.w && v in s.workers {
        OtherWorkers(s, e, v);
        assert AwaitsRecord(s, v, key) ==> Holds(s, v, key);
      }
    }
  }

  lemma EndStep(s: World, e: Event, key: Key)
    requires Inv(s) && (e.Complete? || e.Crash?) && Enabled(s, e) && AwaitsRecord(s, e.w, key) && Counted(s, key)
    ensures Counted(Next(s, e), key)
  {
    EndsWait(s, e, key);
    hide Inv, Awaiting;
  }

  lemma StepCounted(s: World, e: Event, key: Key)
    requires Inv(s) && InTime(s) && DoneKept(s) && Enabled(s, e) && Counted(s, key)
    ensures Counted(Next(s, e), key)
  {
    hide Inv, InTime, DoneKept, Counted, Next;
    if Uncounted(s, e) {
      UncountedStep(s, e, key);
    } else if !Holds(s, e.w, key) {
      OtherKeyStep(s, e, key);
    } else if e.JobReturns? {
      ReturnsStep(s, e.w, key);
    } else {
      EndStep(s, e, key);
    }
  }

  lemma {:induction false} RunCounted(ws: seq<World>, es: seq<Event>, n: nat, key: Key)
    requires IsRunFrom(START, ws, es) && n < |ws|
    requires forall i :: 0 <= i < n ==> InTime(ws[i]) && DoneKept(ws[i])
    ensures Counted(ws[n], key)
  {
    if n == 0 {
    } else {
      RunCounted(ws, es, n - 1, key);
      RunInv(START, ws, es, n - 1);
      StepCounted(ws[n - 1], es[n - 1], key);
    }
  }

  /**
   Until a done value expires, timely workers see the job of a key return at most once,
   plus the times it returned without that being recorded.
   */
  lemma SuccessesBounded(ws: seq<World>, es: seq<Event>, n: nat, key: Key)
    requires IsRunFrom(START, ws, es) && n < |ws|
    requires forall i :: 0 <= i < n ==> Punctual(ws[i]) && DoneKept(ws[i])
    ensures ws[n].succeeded[key] <= 1 + ws[n].unrecorded[key]
  {
    forall i | 0 <= i < n ensures InTime(ws[i]) {
      PunctualRunsExclude(ws, es, i);
    }
    RunCounted(ws, es, n, key);
    RunInv(START, ws, es, n);
    if Awaiting(ws[n], key) {
      AwaitingMeansInProgress(ws[n], key);
    }
  }

  // -------------------------------------------------- how long things are remembered

  /** The key is done, at least until the given instant. */
  predicate DoneUntil(s: World, key: Key, until: int) {
    key in s.entries && s.entries[key].state == Completed && s.entries[key].expires >= until
  }

  lemma StepKeepsDone(s: World, e: Event, key: Key, until: int)
    requires Enabled(s, e) && DoneUntil(s, key, until) && s.now < until <= s.now + 24 * 60 * 60
    ensures s.now <= Next(s, e).now
    ensures Next(s, e).now <= until ==> DoneUntil(Next(s, e), key, until)
    ensures e.Deliver? && e.key == key ==> Next(s, e).workers == s.workers
  {
  }

  lemma StepClock(s: World, e: Event)
    requires Enabled(s, e)
    ensures s.now <= Next(s, e).now
  {
  }

  lemma {:induction false} RunKeepsDone(
    start: World, ws: seq<World>, es: seq<Event>, i: nat, j: nat, key: Key, until: int)
    requires IsRunFrom(start, ws, es) && i <= j < |ws| && DoneUntil(ws[i], key, until)
    requires ws[j].now < until <= ws[i].now + 24 * 60 * 60
    ensures DoneUntil(ws[j], key, until) && ws[i].now <= ws[j].now
    decreases j
  {
    hide DoneUntil, Enabled, Next;
    if i == j {
    } else {
      StepClock(ws[j - 1], es[j - 1]);
      RunKeepsDone(start, ws, es, i, j - 1, key, until);
      StepKeepsDone(ws[j - 1], es[j - 1], key, until);
    }
  }

  /** Recording the success of a job starts twenty-four hours, counted in seconds. */
  lemma CompleteLasts(s: World, w: Worker, fault: Fault)
    requires Enabled(s, Complete(w, fault)) && fault != Lost
    ensures DoneUntil(Next(s, Complete(w, fault)), s.workers[w].key, s.now + 24 * 60 * 60)
    ensures Next(s, Complete(w, fault)).now == s.now
  {
  }

  /**
   Whatever workers do, in time or not: for twenty-four hours after a completion has reached
   the store, the key is done and live, and no delivery of it starts a worker.
   */
  lemma DoneSuppresses(ws: seq<World>, es: seq<Event>, i: nat, j: nat)
    requires IsRunFrom(START, ws, es) && i < j < |ws| && es[i].Complete? && es[i].fault != Lost
    requires ws[j].now < ws[i].now + 24 * 60 * 60
    ensures es[i].w in ws[i].workers
    ensures var key := ws[i].workers[es[i].w].key;
            && key in ws[j].entries && ws[j].entries[key].state == Completed && ws[j].now < ws[j].entries[key].expires
            && (j < |es| && es[j].Deliver? && es[j].key == key ==> ws[j + 1].workers == ws[j].workers)
  {
    hide Next;
    var key, until := ws[i].workers[es[i].w].key, ws[i].now + 24 * 60 * 60;
    CompleteLasts(ws[i], es[i].w, es[i].fault);
    RunKeepsDone(START, ws, es, i + 1, j, key, until);
    if j < |es| {
      StepKeepsDone(ws[j], es[j], key, until);
    }
  }

  /** A claim keeps others out for fifteen minutes, unless it is let go or completed by then. */
  lemma ClaimSuppresses(s: World, w: Worker, key: Key, e: Event)
    requires Enabled(s, Deliver(w, key, NoFault)) && !Blank(key)
    requires !(key in s.entries && s.now < s.entries[key].expires)
    ensures var s' := Next(s, Deliver(w, key, NoFault));
            && w in s'.workers && s'.workers[w] == Hold(key, Running, s.now)
            && key in s'.entries && s'.entries[key] == Entry(InProgress, s.now + 15 * 60)
            && (e.Deliver? && e.key == key && Enabled(s'.(now := s.now + 15 * 60 - 1), e) ==>
                  Next(s'.(now := s.now + 15 * 60 - 1), e).workers == s'.workers)
  {
  }

  /** After twenty-four hours a redelivery runs the job again: the window ends where it is said to end. */
  lemma DoneIsForgotten(s: World, w: Worker, key: Key)
    requires Enabled(s, Deliver(w, key, NoFault)) && !Blank(key)
    requires key in s.entries && s.entries[key].expires <= s.now
    ensures w in Next(s, Deliver(w, key, NoFault)).workers
  {
  }
}

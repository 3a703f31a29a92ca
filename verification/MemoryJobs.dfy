/** Any number of workers over one process-local store, in every interleaving. */
module MemoryJobs {
  import opened JobStores
  import opened Text

  type Worker = nat

  /** A worker with a claim: running the job, returned from it, or about to let go. */
  datatype Phase = Running(key: Key) | Succeeded(key: Key) | Releasing(key: Key)

  datatype World = World(states: States, workers: map<Worker, Phase>, succeeded: multiset<Key>)

  const START := World(map[], map[], multiset{})

  datatype Event =
    | Deliver(w: Worker, key: Key)
    | JobReturns(w: Worker)
    | JobFails(w: Worker)
    | JobPanics(w: Worker)
    | Complete(w: Worker)
    | Release(w: Worker)

  predicate Enabled(s: World, e: Event) {
    match e
    case Deliver(w, key) => w !in s.workers
    case JobReturns(w) => w in s.workers && s.workers[w].Running?
    case JobFails(w) => w in s.workers && s.workers[w].Running?
    case JobPanics(w) => w in s.workers && s.workers[w].Running?
    case Complete(w) => w in s.workers && s.workers[w].Succeeded?
    case Release(w) => w in s.workers && s.workers[w].Releasing?
  }

  function Next(s: World, e: Event): World
    requires Enabled(s, e)
  {
    match e
    case Deliver(w, key) =>
      if Blank(key) || !Claimable(s.states, key) then s
      else s.(states := Claimed(s.states, key), workers := s.workers[w := Running(key)])
    case JobReturns(w) =>
      var key := s.workers[w].key;
      s.(workers := s.workers[w := Succeeded(key)], succeeded := s.succeeded + multiset{key})
    case JobFails(w) => s.(workers := s.workers[w := Releasing(s.workers[w].key)])
    case JobPanics(w) => s.(workers := s.workers[w := Releasing(s.workers[w].key)])
    case Complete(w) =>
      s.(states := s.states[s.workers[w].key := Completed], workers := s.workers - {w})
    case Release(w) =>
      s.(states := Released(s.states, s.workers[w].key), workers := s.workers - {w})
  }

  ghost predicate IsRun(ws: seq<World>, es: seq<Event>) {
    && |ws| == |es| + 1 && ws[0] == START
    && forall i :: 0 <= i < |es| ==> Enabled(ws[i], es[i]) && ws[i + 1] == Next(ws[i], es[i])
  }

  ghost predicate Holds(s: World, w: Worker, key: Key) {
    w in s.workers && s.workers[w].key == key
  }

  /** A key is in progress exactly when one worker holds it. */
  ghost predicate InProgressMeansHeld(s: World) {
    && (forall w, v, key :: Holds(s, w, key) && Holds(s, v, key) ==> w == v)
    && (forall w :: w in s.workers ==> !Blank(s.workers[w].key))
    && (forall key :: (key in s.states && s.states[key] == InProgress) <==> exists w :: Holds(s, w, key))
  }

  /** The job of a key has succeeded once if the key is completed or about to be, and not at all otherwise. */
  ghost predicate SuccessesMatch(s: World) {
    && (forall key :: s.succeeded[key] <= 1)
    && (forall key :: key !in s.states ==> s.succeeded[key] == 0)
    && (forall key :: key in s.states && s.states[key] == Completed ==> s.succeeded[key] == 1)
    && (forall w :: w in s.workers ==> s.succeeded[s.workers[w].key] == if s.workers[w].Succeeded? then 1 else 0)
  }

  ghost predicate Inv(s: World) { InProgressMeansHeld(s) && SuccessesMatch(s) }

  /** A claim adds one holder of a key that nobody held. */
  lemma ClaimHeld(s: World, w: Worker, key: Key)
    requires InProgressMeansHeld(s) && w !in s.workers && !Blank(key) && Claimable(s.states, key)
    ensures InProgressMeansHeld(s.(states := Claimed(s.states, key), workers := s.workers[w := Running(key)]))
  {
    var s' := s.(states := Claimed(s.states, key), workers := s.workers[w := Running(key)]);
    assert forall v :: !Holds(s, v, key);
    assert forall v, k :: Holds(s', v, k) <==> Holds(s, v, k) || (v == w && k == key);
    assert Holds(s', w, key);
    forall k | k in s'.states && s'.states[k] == InProgress && k != key ensures exists v :: Holds(s', v, k) {
      assert k in s.states && s.states[k] == InProgress;
      var v :| Holds(s, v, k);
      assert Holds(s', v, k);
    }
  }

  /** Only the phase of a worker changes. */
  lemma PhaseHeld(s: World, w: Worker, phase: Phase, succeeded: multiset<Key>)
    requires InProgressMeansHeld(s) && w in s.workers && phase.key == s.workers[w].key
    ensures InProgressMeansHeld(s.(workers := s.workers[w := phase], succeeded := succeeded))
  {
    var s' := s.(workers := s.workers[w := phase], succeeded := succeeded);
    assert forall v, k :: Holds(s', v, k) <==> Holds(s, v, k);
  }

  /** A worker lets go of its key, which is no longer in progress. */
  lemma LetGoHeld(s: World, w: Worker, states: States)
    requires InProgressMeansHeld(s) && w in s.workers
    requires forall k :: k != s.workers[w].key ==>
               (k in states <==> k in s.states) && (k in states ==> states[k] == s.states[k])
    requires s.workers[w].key in states ==> states[s.workers[w].key] != InProgress
    ensures InProgressMeansHeld(s.(states := states, workers := s.workers - {w}))
  {
    var s' := s.(states := states, workers := s.workers - {w});
    assert Holds(s, w, s.workers[w].key);
    forall v, k ensures Holds(s', v, k) <==> Holds(s, v, k) && k != s.workers[w].key {
      if Holds(s, v, k) && k == s.workers[w].key {
        assert v == w;
      }
    }
  }

  lemma StepHeld(s: World, e: Event)
    requires Inv(s) && Enabled(s, e)
    ensures InProgressMeansHeld(Next(s, e))
  {
    match e {
      case Deliver(w, key) =>
        if !Blank(key) && Claimable(s.states, key) { ClaimHeld(s, w, key); }
      case JobReturns(w) => PhaseHeld(s, w, Succeeded(s.workers[w].key), Next(s, e).succeeded);
      case JobFails(w) => PhaseHeld(s, w, Releasing(s.workers[w].key), s.succeeded);
      case JobPanics(w) => PhaseHeld(s, w, Releasing(s.workers[w].key), s.succeeded);
      case Complete(w) => LetGoHeld(s, w, Next(s, e).states);
      case Release(w) =>
        assert Holds(s, w, s.workers[w].key);
        LetGoHeld(s, w, Next(s, e).states);
    }
  }

  lemma StepSuccesses(s: World, e: Event)
    requires Inv(s) && Enabled(s, e)
    ensures SuccessesMatch(Next(s, e))
  {
    if !e.Deliver? {
      forall w | w in s.workers && w != e.w ensures s.workers[w].key != s.workers[e.w].key {
        assert !(Holds(s, w, s.workers[e.w].key) && Holds(s, e.w, s.workers[e.w].key));
      }
      assert Holds(s, e.w, s.workers[e.w].key);
    } else {
      forall w | w in s.workers ensures s.workers[w].key in s.states {
        assert Holds(s, w, s.workers[w].key);
      }
    }
  }

  lemma {:induction false} RunInv(ws: seq<World>, es: seq<Event>, n: nat)
    requires IsRun(ws, es) && n < |ws|
    ensures Inv(ws[n])
  {
    if n == 0 {
    } else {
      RunInv(ws, es, n - 1);
      StepHeld(ws[n - 1], es[n - 1]);
      StepSuccesses(ws[n - 1], es[n - 1]);
    }
  }

  /** In every interleaving the job succeeds at most once for a key, and no two workers hold one. */
  lemma ExactlyOnce(ws: seq<World>, es: seq<Event>, n: nat, key: Key)
    requires IsRun(ws, es) && n < |ws|
    ensures ws[n].succeeded[key] <= 1
    ensures (key in ws[n].states && ws[n].states[key] == InProgress) <==> exists w :: Holds(ws[n], w, key)
    ensures forall w, v :: Holds(ws[n], w, key) && Holds(ws[n], v, key) ==> w == v
  {
    RunInv(ws, es, n);
  }

  lemma CompletedStep(s: World, e: Event, key: Key)
    requires Inv(s) && Enabled(s, e) && key in s.states && s.states[key] == Completed
    ensures key in Next(s, e).states && Next(s, e).states[key] == Completed
  {
    if !e.Deliver? {
      assert !Holds(s, e.w, key);
    }
    hide SuccessesMatch;
  }

  lemma CompletedIsFree(s: World, key: Key)
    requires Inv(s) && key in s.states && s.states[key] == Completed
    ensures s.succeeded[key] == 1 && forall w :: !Holds(s, w, key)
  {
  }

  /** Once completed, a key stays completed, is held by nobody, and has succeeded exactly once. */
  lemma {:induction false} CompletedForever(ws: seq<World>, es: seq<Event>, i: nat, j: nat, key: Key)
    requires IsRun(ws, es) && i <= j < |ws|
    requires key in ws[i].states && ws[i].states[key] == Completed
    ensures key in ws[j].states && ws[j].states[key] == Completed && ws[j].succeeded[key] == 1
    ensures forall w :: !Holds(ws[j], w, key)
    decreases j
  {
    hide Inv, Next, Enabled, Holds;
    RunInv(ws, es, j);
    if i == j {
    } else {
      CompletedForever(ws, es, i, j - 1, key);
      RunInv(ws, es, j - 1);
      CompletedStep(ws[j - 1], es[j - 1], key);
    }
    CompletedIsFree(ws[j], key);
  }

  /** After a failed or panicking run lets go, the key can be claimed afresh. */
  lemma FailureLeavesClaimable(ws: seq<World>, es: seq<Event>, n: nat, w: Worker, v: Worker)
    requires IsRun(ws, es) && n < |es| && es[n] == Release(w)
    requires v !in ws[n + 1].workers
    ensures var key := ws[n].workers[w].key;
            && Claimable(ws[n + 1].states, key) && ws[n + 1].succeeded[key] == 0
            && Holds(Next(ws[n + 1], Deliver(v, key)), v, key)
  {
    RunInv(ws, es, n);
    assert Holds(ws[n], w, ws[n].workers[w].key);
    RunInv(ws, es, n + 1);
  }

  /** A delivery starts its worker exactly when the key is not blank and nothing is stored for it. */
  lemma DeliveryRunsIff(s: World, w: Worker, key: Key)
    requires Enabled(s, Deliver(w, key))
    ensures var s' := Next(s, Deliver(w, key));
            && (w in s'.workers <==> TrimSpace(key) != "" && key !in s.states)
            && (w in s'.workers ==> s' == s.(states := s.states[key := InProgress],
                                             workers := s.workers[w := Running(key)]))
            && (w !in s'.workers ==> s' == s)
  {
    TrimSpaceEmpty(key);
    hide Blank, TrimSpace;
  }

  /** From a delivery of a new key to its completion: the job runs, succeeds once, and the key is completed. */
  lemma JobRunsThrough(s: World, w: Worker, key: Key)
    requires w !in s.workers && !Blank(key) && key !in s.states && s.succeeded[key] == 0
    ensures var s1 := Next(s, Deliver(w, key));
            Enabled(s1, JobReturns(w)) &&
            var s2 := Next(s1, JobReturns(w));
            Enabled(s2, Complete(w)) &&
            var s3 := Next(s2, Complete(w));
            s3.workers == s.workers && s3.states == s.states[key := Completed] && s3.succeeded[key] == 1
  {
    var s1 := Next(s, Deliver(w, key));
    var s3 := Next(Next(s1, JobReturns(w)), Complete(w));
    assert s3.workers == s.workers;
    assert s3.states == s.states[key := Completed];
    hide Blank;
  }
}

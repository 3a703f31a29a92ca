/**
 When a stream handler of the interview broker can find its channel closed while it is
 still in its loop (internal/adapters/inbound/grpc/interview.go).

 The handler only subscribes ids made for a new interview; what follows is about the
 broker's own operations, which accept any id at any time.
 */
module BrokerStreams {
  import opened InterviewBroker

  /** An entry of the map is the subscription of a stream with that id. */
  ghost predicate Entitled(s: World) {
    && |s.subs| == |s.streams|
    && forall id, n: Sub :: Mapped(s, id, n) ==> n < |s.streams| && s.streams[n].id == id
  }

  ghost predicate IsRunFrom(s: World, ws: seq<World>, es: seq<Event>) {
    && |ws| == |es| + 1 && ws[0] == s
    && forall i :: 0 <= i < |es| ==> Enabled(ws[i], es[i]) && ws[i + 1] == Next(ws[i], es[i])
  }

  ghost predicate NoSubscribe(es: seq<Event>) {
    forall i :: 0 <= i < |es| ==> !es[i].Subscribe?
  }

  /** No stream that is in its loop has a closed channel. */
  ghost predicate AllOpen(s: World) {
    forall h: nat :: At(s, h, Looping) && h < |s.subs| ==> !s.subs[h].chClosed
  }

  /** However the present streams and publishers go on, no channel is closed under a stream in its loop. */
  ghost predicate StaysOpen(s: World) {
    forall ws, es :: IsRunFrom(s, ws, es) && NoSubscribe(es) ==> AllOpen(ws[|es|])
  }

  /** A stream of this id that has yet to unsubscribe it. */
  predicate Live(s: World, k: nat, id: Id) {
    k < |s.streams| && s.streams[k].id == id && (s.streams[k].handler.Looping? || s.streams[k].handler.Leaving?)
  }

  /** Another stream will unsubscribe the id under which h is in the map. */
  ghost predicate Contested(s: World, h: nat, k: nat) {
    At(s, h, Looping) && Mapped(s, s.streams[h].id, h) && k != h && Live(s, k, s.streams[h].id)
  }

  /** Every stream in its loop has an open channel that nobody else is about to close. */
  ghost predicate Uncontested(s: World) {
    && AllOpen(s)
    && (forall h: nat, k: nat :: At(s, h, Looping) ==> !Torn(s, k, h))
    && (forall h: nat, k: nat :: !Contested(s, h, k))
  }

  // ------------------------------------------------------------------- invariant

  lemma StepEntitled(s: World, e: Event)
    requires Entitled(s) && Enabled(s, e)
    ensures Entitled(Next(s, e))
  {
    var s' := Next(s, e);
    forall id, n: Sub | Mapped(s', id, n) ensures n < |s'.streams| && s'.streams[n].id == id {
      assert Mapped(s, id, n) || (e == Subscribe(id) && n == |s.streams|);
    }
  }

  lemma {:induction false} RunEntitled(requested: int, ws: seq<World>, es: seq<Event>, n: nat)
    requires IsRun(requested, ws, es) && n < |ws|
    ensures Entitled(ws[n])
  {
    if n == 0 {
    } else {
      RunEntitled(requested, ws, es, n - 1);
      StepEntitled(ws[n - 1], es[n - 1]);
    }
  }

  // -------------------------------------------------------------- safe direction

  /** A step keeps the id of every stream, and no handler comes back to its loop. */
  lemma StepStreams(s: World, e: Event, h: nat)
    requires Enabled(s, e) && h < |Next(s, e).streams|
    ensures h < |s.streams| ==> Next(s, e).streams[h].id == s.streams[h].id
    ensures h >= |s.streams| ==> h == |s.streams| && e == Subscribe(Next(s, e).streams[h].id)
    ensures h < |s.streams| && At(Next(s, e), h, Looping) ==> At(s, h, Looping)
  {
  }

  /** A stream that has yet to unsubscribe its id was so before, unless it is the latest. */
  lemma StepLive(s: World, e: Event, k: nat, id: Id)
    requires Enabled(s, e) && !e.Subscribe? && Live(Next(s, e), k, id)
    ensures Live(s, k, id)
  {
  }

  /** Steps other than subscribing add no contender. */
  lemma StepNotContested(s: World, e: Event, h: nat, k: nat)
    requires Enabled(s, e) && !e.Subscribe? && Contested(Next(s, e), h, k)
    ensures Contested(s, h, k)
  {
    var s' := Next(s, e);
    StepStreams(s, e, h);
    StepMapped(s, e, s'.streams[h].id, h);
    StepLive(s, e, k, s'.streams[h].id);
    hide Next, Mapped, Live;
  }

  lemma StepUncontested(s: World, e: Event)
    requires Inv(s) && Entitled(s) && Uncontested(s) && Enabled(s, e) && !e.Subscribe?
    ensures Uncontested(Next(s, e))
  {
    var s' := Next(s, e);
    forall h: nat, k: nat ensures !Contested(s', h, k) {
      if Contested(s', h, k) {
        StepNotContested(s, e, h, k);
      }
    }
    forall h: nat, k: nat | At(s', h, Looping) ensures !Torn(s', k, h) {
      StepStreams(s, e, h);
      assert At(s, k, Leaving) && Mapped(s, s.streams[k].id, h) ==> Contested(s, h, k);
      if Torn(s', k, h) {
        StepTorn(s, e, k, h);
      }
    }
    forall h: nat | At(s', h, Looping) && h < |s'.subs| ensures !s'.subs[h].chClosed {
      StepStreams(s, e, h);
      assert e.Close? ==> !Torn(s, e.h, h);
      if s'.subs[h].chClosed {
        StepClosed(s, e, h);
      }
    }
    hide Next, Torn, Contested, Inv;
  }

  lemma {:induction false} QuietRun(s: World, ws: seq<World>, es: seq<Event>, n: nat)
    requires Inv(s) && Entitled(s) && Uncontested(s) && IsRunFrom(s, ws, es) && NoSubscribe(es) && n < |ws|
    ensures Inv(ws[n]) && Entitled(ws[n]) && Uncontested(ws[n])
  {
    if n == 0 {
    } else {
      QuietRun(s, ws, es, n - 1);
      StepInv(ws[n - 1], es[n - 1]);
      StepEntitled(ws[n - 1], es[n - 1]);
      StepUncontested(ws[n - 1], es[n - 1]);
    }
  }

  // ---------------------------------------------------------- breaking direction

  /** One more step in front of a run that breaks the promise. */
  lemma BreaksEarlier(s: World, e: Event)
    requires Enabled(s, e) && !e.Subscribe? && !StaysOpen(Next(s, e))
    ensures !StaysOpen(s)
  {
    var ws, es :| IsRunFrom(Next(s, e), ws, es) && NoSubscribe(es) && !AllOpen(ws[|es|]);
    var ws', es' := [s] + ws, [e] + es;
    forall i | 0 <= i < |es'| ensures Enabled(ws'[i], es'[i]) && ws'[i + 1] == Next(ws'[i], es'[i]) {
      assert i > 0 ==> es'[i] == es[i - 1] && ws'[i] == ws[i - 1];
      assert ws'[i + 1] == ws[i];
    }
    assert IsRunFrom(s, ws', es') && NoSubscribe(es') && ws'[|es'|] == ws[|es|];
  }

  lemma BreaksNow(s: World)
    requires !AllOpen(s)
    ensures !StaysOpen(s)
  {
    var ws, es: seq<Event> := [s], [];
    assert IsRunFrom(s, ws, es) && NoSubscribe(es) && ws[|es|] == s;
  }

  lemma TornBreaks(s: World, h: nat, k: nat)
    requires Inv(s) && At(s, h, Looping) && Torn(s, k, h)
    ensures !StaysOpen(s)
  {
    var s' := Next(s, Close(k));
    assert At(s', h, Looping) && s'.subs[h].chClosed;
    BreaksNow(s');
    BreaksEarlier(s, Close(k));
  }

  lemma LeavingBreaks(s: World, h: nat, k: nat)
    requires Inv(s) && Contested(s, h, k) && s.streams[k].handler.Leaving?
    ensures !StaysOpen(s)
  {
    var s' := Next(s, Unsubscribe(k));
    StepInv(s, Unsubscribe(k));
    assert At(s', h, Looping) && Torn(s', k, h);
    TornBreaks(s', h, k);
    BreaksEarlier(s, Unsubscribe(k));
  }

  lemma ContestedBreaks(s: World, h: nat, k: nat)
    requires Inv(s) && Contested(s, h, k)
    ensures !StaysOpen(s)
  {
    if s.streams[k].handler.Leaving? {
      LeavingBreaks(s, h, k);
    } else {
      var s' := Next(s, Cancel(k));
      StepInv(s, Cancel(k));
      assert Contested(s', h, k) && s'.streams[k].handler.Leaving?;
      LeavingBreaks(s', h, k);
      BreaksEarlier(s, Cancel(k));
    }
  }

  /** The exact condition, at any state: no stream in its loop has a closed, doomed or contested channel. */
  lemma StaysOpenIff(s: World)
    requires Inv(s) && Entitled(s)
    ensures StaysOpen(s) <==> Uncontested(s)
  {
    if Uncontested(s) {
      forall ws, es | IsRunFrom(s, ws, es) && NoSubscribe(es) ensures AllOpen(ws[|es|]) {
        QuietRun(s, ws, es, |es|);
      }
    } else if !AllOpen(s) {
      BreaksNow(s);
    } else if h: nat, k: nat :| At(s, h, Looping) && Torn(s, k, h) {
      TornBreaks(s, h, k);
    } else {
      var h: nat, k: nat :| Contested(s, h, k);
      ContestedBreaks(s, h, k);
    }
  }

  // ------------------------------------------------------------------ whole runs

  /** What a caller can check before it subscribes an id. */
  predicate Vacant(s: World, id: Id) {
    forall k :: 0 <= k < |s.streams| ==> !Live(s, k, id)
  }

  /** Subscribing keeps every stream safe exactly when no earlier stream of the id has yet to unsubscribe. */
  lemma SubscribeUncontestedIff(s: World, id: Id)
    requires Inv(s) && Entitled(s) && Uncontested(s)
    ensures Uncontested(Next(s, Subscribe(id))) <==> Vacant(s, id)
  {
    var s', latest := Next(s, Subscribe(id)), |s.streams|;
    assert At(s', latest, Looping) && Mapped(s', id, latest) && s'.streams[latest].id == id;
    if !Vacant(s, id) {
      var k :| 0 <= k < |s.streams| && Live(s, k, id);
      assert Contested(s', latest, k);
    } else {
      forall h: nat, k: nat ensures !Contested(s', h, k) {
        if Contested(s', h, k) {
          if h == latest {
            assert Live(s, k, id);
          } else {
            assert s.streams[h].id != id;
            assert Contested(s, h, k);
          }
        }
      }
      forall h: nat, k: nat | At(s', h, Looping) ensures !Torn(s', k, h) {
        assert Torn(s', k, h) ==> Torn(s, k, h);
      }
    }
  }

  /** Every subscription of the run finds its id vacant. */
  ghost predicate VacantSubscribes(ws: seq<World>, es: seq<Event>, n: nat)
    requires n <= |es| < |ws|
  {
    forall i :: 0 <= i < n && es[i].Subscribe? ==> Vacant(ws[i], es[i].id)
  }

  lemma {:induction false} RunUncontested(requested: int, ws: seq<World>, es: seq<Event>, n: nat)
    requires IsRun(requested, ws, es) && n <= |es| && VacantSubscribes(ws, es, n)
    ensures Uncontested(ws[n])
  {
    if n == 0 {
    } else {
      RunUncontested(requested, ws, es, n - 1);
      RunInv(requested, ws, es, n - 1);
      RunEntitled(requested, ws, es, n - 1);
      var s, e := ws[n - 1], es[n - 1];
      if e.Subscribe? {
        SubscribeUncontestedIff(s, e.id);
      } else {
        StepUncontested(s, e);
      }
    }
  }

  /**
   In every run, channels stay open under the streams in their loops, whatever comes before
   the next subscription, if and only if each subscription finds its id vacant.
   */
  lemma RunStaysOpenIff(requested: int, ws: seq<World>, es: seq<Event>)
    requires IsRun(requested, ws, es)
    ensures (forall n :: 0 <= n < |ws| ==> StaysOpen(ws[n])) <==> VacantSubscribes(ws, es, |es|)
  {
    forall n | 0 <= n < |ws| ensures StaysOpen(ws[n]) <==> Uncontested(ws[n]) {
      RunInv(requested, ws, es, n);
      RunEntitled(requested, ws, es, n);
      StaysOpenIff(ws[n]);
    }
    if VacantSubscribes(ws, es, |es|) {
      forall n | 0 <= n < |ws| ensures Uncontested(ws[n]) {
        RunUncontested(requested, ws, es, n);
      }
    } else {
      var i :| 0 <= i < |es| && es[i].Subscribe? && !Vacant(ws[i], es[i].id);
      RunInv(requested, ws, es, i);
      RunEntitled(requested, ws, es, i);
      assert ws[i + 1] == Next(ws[i], es[i]) && es[i] == Subscribe(es[i].id);
      if Uncontested(ws[i]) {
        SubscribeUncontestedIff(ws[i], es[i].id);
        assert !StaysOpen(ws[i + 1]);
      } else {
        assert !StaysOpen(ws[i]);
      }
    }
  }

  // ------------------------------------------------------------------- fresh ids

  /** Every interview id is subscribed at most once. */
  ghost predicate FreshIds(es: seq<Event>) {
    forall i, j :: 0 <= i < j < |es| && es[i].Subscribe? && es[j].Subscribe? ==> es[i].id != es[j].id
  }

  ghost predicate StreamsComeFrom(s: World, es: seq<Event>, n: nat)
    requires n <= |es|
  {
    forall h :: 0 <= h < |s.streams| ==> exists i :: 0 <= i < n && es[i] == Subscribe(s.streams[h].id)
  }

  lemma {:induction false} RunComesFrom(requested: int, ws: seq<World>, es: seq<Event>, n: nat)
    requires IsRun(requested, ws, es) && n < |ws|
    ensures StreamsComeFrom(ws[n], es, n)
  {
    if n == 0 {
    } else {
      RunComesFrom(requested, ws, es, n - 1);
      var s := ws[n - 1];
      forall h | 0 <= h < |ws[n].streams|
        ensures exists i :: 0 <= i < n && es[i] == Subscribe(ws[n].streams[h].id)
      {
        StepStreams(s, es[n - 1], h);
        hide Next, Enabled;
        if h < |s.streams| {
          var i :| 0 <= i < n - 1 && es[i] == Subscribe(s.streams[h].id);
        } else {
          assert es[n - 1] == Subscribe(ws[n].streams[h].id);
        }
      }
    }
  }

  lemma FreshIsVacant(requested: int, ws: seq<World>, es: seq<Event>, n: nat)
    requires IsRun(requested, ws, es) && n <= |es| && FreshIds(es)
    ensures VacantSubscribes(ws, es, n)
  {
    forall i | 0 <= i < n && es[i].Subscribe? ensures Vacant(ws[i], es[i].id) {
      RunComesFrom(requested, ws, es, i);
    }
  }

  lemma ReadsClosed(s: World, e: Event, h: nat)
    requires Enabled(s, e) && Uncontested(s) && h < |Next(s, e).streams| && Next(s, e).streams[h].sawClosed
    ensures h < |s.streams| && s.streams[h].sawClosed
  {
    assert At(s, h, Looping) && h < |s.subs| ==> !s.subs[h].chClosed;
  }

  lemma {:induction false} NeverSawClosed(requested: int, ws: seq<World>, es: seq<Event>, n: nat, h: nat)
    requires IsRun(requested, ws, es) && n < |ws| && VacantSubscribes(ws, es, n) && h < |ws[n].streams|
    ensures !ws[n].streams[h].sawClosed
  {
    if n == 0 {
    } else {
      var s := ws[n - 1];
      RunUncontested(requested, ws, es, n - 1);
      if h < |s.streams| {
        NeverSawClosed(requested, ws, es, n - 1, h);
      }
      if ws[n].streams[h].sawClosed {
        ReadsClosed(s, es[n - 1], h);
      }
      hide Next, Enabled, Uncontested;
    }
  }

  /** The handler subscribes only new interviews, so none of its streams ever reads from a closed channel. */
  lemma StreamsStayOpen(requested: int, ws: seq<World>, es: seq<Event>, n: nat, h: nat)
    requires IsRun(requested, ws, es) && n < |ws| && FreshIds(es) && h < |ws[n].streams|
    ensures !ws[n].streams[h].sawClosed && ws[n].streams[h].empty == 0
    ensures ws[n].streams[h].handler.Looping? ==> h < |ws[n].subs| && !ws[n].subs[h].chClosed
  {
    FreshIsVacant(requested, ws, es, n);
    NeverSawClosed(requested, ws, es, n, h);
    RunUncontested(requested, ws, es, n);
    DeliversInOrder(requested, ws, es, n, h);
    RunInv(requested, ws, es, n);
    assert Flow(ws[n].capacity, ws[n].subs[h], ws[n].streams[h]);
    assert At(ws[n], h, Looping) ==> !ws[n].subs[h].chClosed;
  }

  // ------------------------------------------------------------- an id used twice

  function Opened(): Subscription { Subscription([], false, false, [], []) }

  function Twice(id: Id, first: Handler, empty: nat): seq<Stream> {
    [Stream(id, first, [], 0, false), Stream(id, Looping, [], empty, empty > 0)]
  }

  function ReuseWorlds(id: Id): seq<World> {
    var closed := Opened().(chClosed := true, doneClosed := true);
    [Start(0),
     World(4, map[id := 0], [Opened()], [Stream(id, Looping, [], 0, false)], map[], false),
     World(4, map[id := 1], [Opened(), Opened()], Twice(id, Looping, 0), map[], false),
     World(4, map[id := 1], [Opened(), Opened()], Twice(id, Leaving, 0), map[], false),
     World(4, map[], [Opened(), Opened()], Twice(id, Tearing(1), 0), map[], false),
     World(4, map[], [Opened(), closed], Twice(id, Gone, 0), map[], false),
     World(4, map[], [Opened(), closed], Twice(id, Gone, 1), map[], false)]
  }

  function ReuseEvents(id: Id): seq<Event> {
    [Subscribe(id), Subscribe(id), Cancel(0), Unsubscribe(0), Close(0), Receive(1, true)]
  }

  lemma ReuseStep(id: Id, i: nat)
    requires i < 6
    ensures Enabled(ReuseWorlds(id)[i], ReuseEvents(id)[i])
    ensures ReuseWorlds(id)[i + 1] == Next(ReuseWorlds(id)[i], ReuseEvents(id)[i])
  {
    match i
    case 0 => assert map[][id := 0] == map[id := 0];
    case 1 => assert map[id := 0][id := 1] == map[id := 1];
    case 2 =>
    case 3 => assert map[id := 1] - {id} == map[];
    case 4 =>
    case 5 =>
  }

  /**
   Subscribing an id while its first stream is in its loop: that stream's exit closes the
   second one's channel, which goes on looping over empty frames while no message reaches it.
   */
  lemma ReusedIdStarvesStream(id: Id)
    ensures IsRun(0, ReuseWorlds(id), ReuseEvents(id))
    ensures var last := ReuseWorlds(id)[6];
            At(last, 1, Looping) && last.subs[1].chClosed && last.streams[1].empty == 1 && id !in last.channels
  {
    forall i | 0 <= i < 6
      ensures Enabled(ReuseWorlds(id)[i], ReuseEvents(id)[i])
      ensures ReuseWorlds(id)[i + 1] == Next(ReuseWorlds(id)[i], ReuseEvents(id)[i])
    {
      ReuseStep(id, i);
    }
  }
}

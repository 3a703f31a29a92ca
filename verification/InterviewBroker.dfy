/**
 The broker that carries questions and report cards from SubmitAnswer to an open
 StartInterview stream (internal/adapters/inbound/grpc/interview.go).

 Each critical section is one step.  A Go channel is a bounded queue with a closed
 flag; sending on a closed channel, or closing one twice, panics.
 */
module InterviewBroker {

  type Id = string

  datatype Msg = Msg(text: string, isReport: bool)

  type Sub = nat

  /** accepted and received record every message that ever went in and came out. */
  datatype Subscription = Subscription(
    queue: seq<Msg>, chClosed: bool, doneClosed: bool, accepted: seq<Msg>, received: seq<Msg>)

  /** A publisher between looking up the subscription and sending to it. */
  datatype Publisher = Publisher(sub: Sub, msg: Msg)

  /** A stream handler: in its loop, leaving it, between unsubscribe's two locks, or gone. */
  datatype Handler = Looping | Leaving | Tearing(sub: Sub) | Gone

  /**
   sent are the messages carried, empty counts the frames without one, sawClosed tells of a read
   that found the channel closed.
   */
  datatype Stream = Stream(id: Id, handler: Handler, sent: seq<Msg>, empty: nat, sawClosed: bool)

  /** subs and streams grow together: stream h reads the channel of subscription h. */
  datatype World = World(
    capacity: nat,
    channels: map<Id, Sub>,
    subs: seq<Subscription>,
    streams: seq<Stream>,
    publishers: map<nat, Publisher>,
    panicked: bool)

  function Capacity(requested: int): nat { if requested <= 0 then 4 else requested }

  function Start(requested: int): World { World(Capacity(requested), map[], [], [], map[], false) }

  datatype Event =
    | Subscribe(id: Id)
    | Lookup(p: nat, id: Id, msg: Msg)
    | Send(p: nat)
    | Receive(h: nat, delivered: bool) // delivered: stream.Send succeeded
    | Cancel(h: nat)
    | Unsubscribe(h: nat)
    | Close(h: nat)

  predicate At(s: World, h: nat, handler: Handler) {
    h < |s.streams| && s.streams[h].handler == handler
  }

  predicate Enabled(s: World, e: Event) {
    match e
    case Subscribe(id) => true
    case Lookup(p, id, msg) => p !in s.publishers
    case Send(p) => p in s.publishers && s.publishers[p].sub < |s.subs|
    case Receive(h, delivered) =>
      At(s, h, Looping) && h < |s.subs| && (s.subs[h].queue != [] || s.subs[h].chClosed)
    case Cancel(h) => At(s, h, Looping)
    case Unsubscribe(h) => At(s, h, Leaving)
    case Close(h) => h < |s.streams| && s.streams[h].handler.Tearing? && s.streams[h].handler.sub < |s.subs|
  }

  /** The send of publish: torn down, full, or queued. */
  function Offer(capacity: nat, sub: Subscription, msg: Msg): Subscription {
    if sub.doneClosed || |sub.queue| >= capacity then sub
    else sub.(queue := sub.queue + [msg], accepted := sub.accepted + [msg])
  }

  function Taken(sub: Subscription): Subscription
    requires sub.queue != []
  {
    sub.(queue := sub.queue[1..], received := sub.received + [sub.queue[0]])
  }

  function Carried(stream: Stream, msg: Msg, delivered: bool): Stream {
    stream.(sent := if delivered then stream.sent + [msg] else stream.sent,
            handler := if delivered && !msg.isReport then Looping else Leaving)
  }

  /** A closed, drained channel yields nil, which is sent as an empty frame and is no report card. */
  function CarriedNothing(stream: Stream, delivered: bool): Stream {
    if delivered then stream.(sawClosed := true, empty := stream.empty + 1)
    else stream.(sawClosed := true, handler := Leaving)
  }

  predicate OfferPanics(sub: Subscription) { !sub.doneClosed && sub.chClosed }

  predicate ClosePanics(sub: Subscription) { sub.doneClosed || sub.chClosed }

  function SetHandler(s: World, h: nat, handler: Handler): World
    requires h < |s.streams|
  {
    s.(streams := s.streams[h := s.streams[h].(handler := handler)])
  }

  function Next(s: World, e: Event): World
    requires Enabled(s, e)
  {
    match e
    case Subscribe(id) =>
      s.(channels := s.channels[id := |s.subs|],
         subs := s.subs + [Subscription([], false, false, [], [])],
         streams := s.streams + [Stream(id, Looping, [], 0, false)])
    case Lookup(p, id, msg) =>
      if id in s.channels then s.(publishers := s.publishers[p := Publisher(s.channels[id], msg)]) else s
    case Send(p) =>
      var n, msg := s.publishers[p].sub, s.publishers[p].msg;
      s.(subs := s.subs[n := Offer(s.capacity, s.subs[n], msg)],
         publishers := s.publishers - {p},
         panicked := s.panicked || OfferPanics(s.subs[n]))
    case Receive(h, delivered) =>
      var sub, stream := s.subs[h], s.streams[h];
      if sub.queue == [] then s.(streams := s.streams[h := CarriedNothing(stream, delivered)])
      else
        var msg := sub.queue[0];
        s.(subs := s.subs[h := Taken(sub)], streams := s.streams[h := Carried(stream, msg, delivered)])
    case Cancel(h) => SetHandler(s, h, Leaving)
    case Unsubscribe(h) =>
      var id := s.streams[h].id;
      if id in s.channels
      then SetHandler(s, h, Tearing(s.channels[id])).(channels := s.channels - {id})
      else SetHandler(s, h, Gone)
    case Close(h) =>
      var n := s.streams[h].handler.sub;
      SetHandler(s, h, Gone).(
        subs := s.subs[n := s.subs[n].(chClosed := true, doneClosed := true)],
        panicked := s.panicked || ClosePanics(s.subs[n]))
  }

  ghost predicate IsRun(requested: int, ws: seq<World>, es: seq<Event>) {
    && |ws| == |es| + 1 && ws[0] == Start(requested)
    && forall i :: 0 <= i < |es| ==> Enabled(ws[i], es[i]) && ws[i + 1] == Next(ws[i], es[i])
  }

  // ------------------------------------------------------------------ invariant

  ghost predicate Mapped(s: World, id: Id, n: Sub) { id in s.channels && s.channels[id] == n }

  ghost predicate Torn(s: World, h: nat, n: Sub) { At(s, h, Tearing(n)) }

  /** A subscription that can still be closed is open, and can be closed by one party only. */
  ghost predicate OneCloser(s: World) {
    && (forall id, n: Sub :: Mapped(s, id, n) ==> n < |s.subs| && !s.subs[n].chClosed)
    && (forall id, id', n: Sub :: Mapped(s, id, n) && Mapped(s, id', n) ==> id == id')
    && (forall h: nat, n: Sub :: Torn(s, h, n) ==> n < |s.subs| && !s.subs[n].chClosed)
    && (forall h: nat, h': nat, n: Sub :: Torn(s, h, n) && Torn(s, h', n) ==> h == h')
    && (forall id, h: nat, n: Sub :: Mapped(s, id, n) && Torn(s, h, n) ==> false)
  }

  /** What holds between one subscription and its stream. */
  ghost predicate Flow(capacity: nat, sub: Subscription, stream: Stream) {
    && (sub.chClosed <==> sub.doneClosed)
    && |sub.queue| <= capacity
    && sub.accepted == sub.received + sub.queue
    && stream.sent <= sub.received
    && (stream.handler.Looping? ==> stream.sent == sub.received)
    && (stream.sawClosed ==> sub.chClosed && sub.queue == [])
    && (stream.empty > 0 ==> stream.sawClosed && stream.sent == sub.accepted)
  }

  ghost predicate Inv(s: World) {
    && !s.panicked && |s.subs| == |s.streams|
    && OneCloser(s)
    && (forall n :: 0 <= n < |s.subs| ==> Flow(s.capacity, s.subs[n], s.streams[n]))
    && (forall p :: p in s.publishers ==> s.publishers[p].sub < |s.subs|)
  }

  /** An entry of the map is an old one or the latest subscription. */
  lemma StepMapped(s: World, e: Event, id: Id, n: Sub)
    requires Enabled(s, e) && Mapped(Next(s, e), id, n)
    ensures (Mapped(s, id, n) && (e.Unsubscribe? ==> s.streams[e.h].id != id)) || (e == Subscribe(id) && n == |s.subs|)
  {
  }

  /** A stream about to close a channel was so before or has just taken its entry. */
  lemma StepTorn(s: World, e: Event, h: nat, n: Sub)
    requires Enabled(s, e) && Torn(Next(s, e), h, n)
    ensures (Torn(s, h, n) && e != Close(h)) || (e == Unsubscribe(h) && Mapped(s, s.streams[h].id, n))
  {
  }

  /** A channel is closed by the stream that was about to close it, and by no one else. */
  lemma StepClosed(s: World, e: Event, n: Sub)
    requires Enabled(s, e) && n < |Next(s, e).subs| && Next(s, e).subs[n].chClosed
    ensures n < |s.subs| && (s.subs[n].chClosed || (e.Close? && Torn(s, e.h, n)))
  {
  }

  lemma StepSubs(s: World, e: Event)
    requires Enabled(s, e)
    ensures |s.subs| <= |Next(s, e).subs| && (e.Subscribe? ==> |Next(s, e).subs| == |s.subs| + 1)
  {
  }

  lemma StepCalm(s: World, e: Event)
    requires Inv(s) && Enabled(s, e)
    ensures !Next(s, e).panicked
  {
    if e.Close? {
      var n := s.streams[e.h].handler.sub;
      assert Torn(s, e.h, n) && Flow(s.capacity, s.subs[n], s.streams[n]);
    } else if e.Send? {
      var n := s.publishers[e.p].sub;
      assert Flow(s.capacity, s.subs[n], s.streams[n]);
    }
  }

  lemma StepOneCloser(s: World, e: Event)
    requires Inv(s) && Enabled(s, e)
    ensures OneCloser(Next(s, e)) && !Next(s, e).panicked
  {
    var s' := Next(s, e);
    StepCalm(s, e);
    StepSubs(s, e);
    forall id, n: Sub | Mapped(s', id, n)
      ensures (Mapped(s, id, n) && (e.Unsubscribe? ==> s.streams[e.h].id != id)) || (e == Subscribe(id)
              && n == |s.subs|)
    {
      StepMapped(s, e, id, n);
    }
    forall h: nat, n: Sub | Torn(s', h, n)
      ensures (Torn(s, h, n) && e != Close(h)) || (e == Unsubscribe(h) && Mapped(s, s.streams[h].id, n))
    {
      StepTorn(s, e, h, n);
    }
    forall n: Sub | n < |s'.subs| && s'.subs[n].chClosed
      ensures n < |s.subs| && (s.subs[n].chClosed || (e.Close? && Torn(s, e.h, n)))
    {
      StepClosed(s, e, n);
    }
    hide Next, Mapped, Torn, Flow;
  }

  lemma OfferFlow(capacity: nat, sub: Subscription, stream: Stream, msg: Msg)
    requires Flow(capacity, sub, stream)
    ensures Flow(capacity, Offer(capacity, sub, msg), stream)
  {
  }

  lemma ReceiveFlow(capacity: nat, sub: Subscription, stream: Stream, delivered: bool)
    requires Flow(capacity, sub, stream) && stream.handler.Looping? && sub.queue != []
    ensures Flow(capacity, Taken(sub), Carried(stream, sub.queue[0], delivered))
  {
    assert sub.received + sub.queue == (sub.received + [sub.queue[0]]) + sub.queue[1..];
  }

  lemma NothingFlow(capacity: nat, sub: Subscription, stream: Stream, delivered: bool)
    requires Flow(capacity, sub, stream) && stream.handler.Looping? && sub.queue == [] && sub.chClosed
    ensures Flow(capacity, sub, CarriedNothing(stream, delivered))
  {
  }

  lemma StepFlows(s: World, e: Event, n: Sub)
    requires Inv(s) && Enabled(s, e) && n < |Next(s, e).subs|
    ensures |Next(s, e).subs| == |Next(s, e).streams|
    ensures Flow(s.capacity, Next(s, e).subs[n], Next(s, e).streams[n])
  {
    if n < |s.subs| {
      assert Flow(s.capacity, s.subs[n], s.streams[n]);
      if e.Send? && n == s.publishers[e.p].sub {
        OfferFlow(s.capacity, s.subs[n], s.streams[n], s.publishers[e.p].msg);
      } else if e.Receive? && n == e.h {
        if s.subs[n].queue != [] {
          ReceiveFlow(s.capacity, s.subs[n], s.streams[n], e.delivered);
        } else {
          NothingFlow(s.capacity, s.subs[n], s.streams[n], e.delivered);
        }
      }
    }
  }

  lemma StepInv(s: World, e: Event)
    requires Inv(s) && Enabled(s, e)
    ensures Inv(Next(s, e))
  {
    StepOneCloser(s, e);
    var s' := Next(s, e);
    forall n | 0 <= n < |s'.subs| ensures |s'.subs| == |s'.streams| && Flow(s.capacity, s'.subs[n], s'.streams[n]) {
      StepFlows(s, e, n);
    }
    forall p | p in s'.publishers ensures s'.publishers[p].sub < |s'.subs| {
      assert e.Lookup? && p !in s.publishers ==> Mapped(s, e.id, s.channels[e.id]);
    }
  }

  lemma {:induction false} RunInv(requested: int, ws: seq<World>, es: seq<Event>, n: nat)
    requires IsRun(requested, ws, es) && n < |ws|
    ensures Inv(ws[n]) && ws[n].capacity == Capacity(requested)
  {
    if n == 0 {
    } else {
      RunInv(requested, ws, es, n - 1);
      StepInv(ws[n - 1], es[n - 1]);
    }
  }

  /** No interleaving sends on a closed channel or closes one twice, whatever ids are subscribed. */
  lemma NeverPanics(requested: int, ws: seq<World>, es: seq<Event>, n: nat)
    requires IsRun(requested, ws, es) && n < |ws|
    ensures !ws[n].panicked
  {
    RunInv(requested, ws, es, n);
  }

  /**
   Every stream has carried a prefix of what was accepted for it, in order, from a bounded
   queue.  It carries empty frames only after all of that, and only once its channel is closed.
   */
  lemma DeliversInOrder(requested: int, ws: seq<World>, es: seq<Event>, n: nat, h: nat)
    requires IsRun(requested, ws, es) && n < |ws| && h < |ws[n].streams|
    ensures h < |ws[n].subs|
    ensures ws[n].streams[h].sent <= ws[n].subs[h].accepted
    ensures |ws[n].subs[h].queue| <= Capacity(requested)
    ensures ws[n].streams[h].handler.Looping? ==>
              ws[n].streams[h].sent + ws[n].subs[h].queue == ws[n].subs[h].accepted
    ensures ws[n].streams[h].empty > 0 ==>
              ws[n].streams[h].sent == ws[n].subs[h].accepted && ws[n].subs[h].chClosed
  {
    RunInv(requested, ws, es, n);
    assert Flow(ws[n].capacity, ws[n].subs[h], ws[n].streams[h]);
  }

  // ------------------------------------------------------------- what goes through

  /** A send appends its message, unless at that step the channel is full or torn down. */
  lemma SendAppends(s: World, p: nat)
    requires Inv(s) && Enabled(s, Send(p))
    ensures var n, msg, s' := s.publishers[p].sub, s.publishers[p].msg, Next(s, Send(p));
            && s'.streams == s.streams && s'.channels == s.channels
            && s'.subs == if s.subs[n].chClosed || |s.subs[n].queue| >= s.capacity then s.subs
                          else s.subs[n := s.subs[n].(queue := s.subs[n].queue + [msg],
                                                      accepted := s.subs[n].accepted + [msg])]
  {
    var n := s.publishers[p].sub;
    assert Flow(s.capacity, s.subs[n], s.streams[n]);
    assert s.subs[n := s.subs[n]] == s.subs;
  }

  /** In every run: each send is accepted unless its channel holds as many messages as asked for, or is closed. */
  lemma EverySendAppends(requested: int, ws: seq<World>, es: seq<Event>, i: nat)
    requires IsRun(requested, ws, es) && i < |es| && es[i].Send?
    ensures es[i].p in ws[i].publishers && ws[i].publishers[es[i].p].sub < |ws[i].subs|
    ensures var n, msg := ws[i].publishers[es[i].p].sub, ws[i].publishers[es[i].p].msg;
            var sub := ws[i].subs[n];
            var full := |sub.queue| >= if requested <= 0 then 4 else requested;
            ws[i + 1].subs == if sub.chClosed || full then ws[i].subs
                              else ws[i].subs[n := sub.(queue := sub.queue + [msg], accepted := sub.accepted + [msg])]
  {
    RunInv(requested, ws, es, i);
    SendAppends(ws[i], es[i].p);
    hide Inv;
  }

  /** A publisher finds the channel subscribed last under its id. */
  lemma LookupFinds(s: World, p: nat, id: Id, msg: Msg)
    requires p !in s.publishers && id in s.channels
    ensures Enabled(s, Lookup(p, id, msg))
    ensures Next(s, Lookup(p, id, msg)) == s.(publishers := s.publishers[p := Publisher(s.channels[id], msg)])
  {
  }

  /** A looping stream takes the oldest message of its queue; it leaves when it cannot send it, or after a report. */
  lemma ReceiveCarries(s: World, h: nat, delivered: bool)
    requires h < |s.streams| == |s.subs| && s.streams[h].handler == Looping && s.subs[h].queue != []
    ensures Enabled(s, Receive(h, delivered))
    ensures var s', msg, stream := Next(s, Receive(h, delivered)), s.subs[h].queue[0], s.streams[h];
            && s'.subs == s.subs[h := s.subs[h].(queue := s.subs[h].queue[1..], received := s.subs[h].received + [msg])]
            && s'.streams == s.streams[h :=
                 if !delivered then stream.(handler := Leaving)
                 else if msg.isReport then stream.(sent := stream.sent + [msg], handler := Leaving)
                 else stream.(sent := stream.sent + [msg])]
  {
  }

  // ------------------------------------------------------------- implementation

  class Broker {
    const capacity: nat
    var channels: map<Id, Sub>
    var subs: seq<Subscription>

    constructor (requested: int)
      ensures capacity == Capacity(requested) && channels == map[] && subs == []
      ensures capacity == if requested <= 0 then 4 else requested
    {
      capacity := if requested <= 0 then 4 else requested;
      channels, subs := map[], [];
    }

    method Subscribe(id: Id) returns (n: Sub)
      modifies this
      ensures n == |old(subs)|
      ensures channels == old(channels)[id := n]
      ensures subs == old(subs) + [Subscription([], false, false, [], [])]
    {
      n := |subs|;
      subs := subs + [Subscription([], false, false, [], [])];
      channels := channels[id := n];
    }

    /** publish without interference; the steps Lookup and Send are its two critical sections. */
    method Publish(id: Id, msg: Msg) returns (accepted: bool)
      requires forall id :: id in channels ==> channels[id] < |subs| && !OfferPanics(subs[channels[id]])
      modifies this`subs
      ensures accepted <==> id in channels && Offer(capacity, old(subs)[channels[id]], msg) != old(subs)[channels[id]]
      ensures accepted <==>
                id in channels && !old(subs)[channels[id]].doneClosed && |old(subs)[channels[id]].queue| < capacity
      ensures accepted ==>
                var n := channels[id];
                var sub := old(subs)[n];
                subs == old(subs)[n := sub.(queue := sub.queue + [msg], accepted := sub.accepted + [msg])]
      ensures !accepted ==> subs == old(subs)
      ensures subs == if id in channels
                      then old(subs)[channels[id] := Offer(capacity, old(subs)[channels[id]], msg)]
                      else old(subs)
    {
      if id !in channels {
        return false;
      }
      var n := channels[id];
      var sub := subs[n];
      if sub.doneClosed {
        return false;
      }
      if |sub.queue| < capacity {
        subs := subs[n := sub.(queue := sub.queue + [msg], accepted := sub.accepted + [msg])];
        return true;
      }
      return false;
    }

    /** unsubscribe without interference; the steps Unsubscribe and Close are its two critical sections. */
    method Unsubscribe(id: Id)
      requires forall id :: id in channels ==> channels[id] < |subs| && !ClosePanics(subs[channels[id]])
      modifies this
      ensures channels == old(channels) - {id}
      ensures subs == if id in old(channels)
                      then var n := old(channels)[id];
                           old(subs)[n := old(subs)[n].(chClosed := true, doneClosed := true)]
                      else old(subs)
    {
      if id in channels {
        var n := channels[id];
        channels := channels - {id};
        subs := subs[n := subs[n].(doneClosed := true)];
        subs := subs[n := subs[n].(chClosed := true)];
      }
    }
  }
}

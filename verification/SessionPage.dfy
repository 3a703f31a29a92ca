/**
 One page lifetime of the web client over the server
 (web/src/api/client.ts, web/src/stores/auth.ts).

 Between two awaits the page runs undisturbed, so each such stretch is one step.
 */
module SessionPage {
  import opened Prelude
  import opened RefreshGrants
  import GrantFamilies

  /** The shared refresh: waiting for the server, being served by a call of it, or answered. */
  datatype Stage = Posted | InService(call: nat) | Answered(tokens: Option<Jti>)

  datatype Flight = Flight(token: Jti, stage: Stage)

  /** replies are sign-in answers under way to the page; posted is every refresh request ever sent. */
  datatype World = World(
    server: GrantFamilies.Server,
    token: Option<Jti>,
    inFlight: Option<Flight>,
    replies: set<Jti>,
    posted: multiset<Jti>)

  datatype Event =
    | TryRefresh                          // some request was answered 401
    | SignIn(user: User, jti: Jti, expires: int)
    | Signed(jti: Jti)                    // the sign-in answer arrives
    | Clear                               // logout, or the account is gone
    | Serve(call: nat, now: int)          // the server consumes the posted token
    | ServeSave(jti: Jti, expires: int)
    | ServeFails                          // the server gives up after consuming
    | NetworkFails                        // request or answer lost, or the answer is malformed
    | Settle                              // the page handles the answer
    | Elsewhere(e: GrantFamilies.Event)   // any other client of the server

  predicate Waiting(w: World) { w.inFlight.Some? && w.inFlight.value.stage.Posted? }

  predicate Served(w: World) {
    w.inFlight.Some? && w.inFlight.value.stage.InService? && w.inFlight.value.stage.call in w.server.calls
  }

  predicate Enabled(w: World, e: Event) {
    match e
    case TryRefresh => true
    case SignIn(user, j, expires) => j !in w.server.store
    case Signed(j) => j in w.replies
    case Clear => true
    case Serve(call, now) =>
      Waiting(w) && GrantFamilies.Enabled(w.server, GrantFamilies.Consume(call, w.inFlight.value.token, now))
    case ServeSave(j, expires) => Served(w) && j !in w.server.store
    case ServeFails => Served(w)
    case NetworkFails => w.inFlight.Some? && !w.inFlight.value.stage.Answered?
    case Settle => w.inFlight.Some? && w.inFlight.value.stage.Answered?
    case Elsewhere(e) => GrantFamilies.Enabled(w.server, e) && !ServesPage(w, e)
  }

  /** The server's work on the page's own refresh, which has steps of its own. */
  predicate ServesPage(w: World, e: GrantFamilies.Event) {
    (e.Save? || e.GiveUp?) && w.inFlight.Some? && w.inFlight.value.stage == InService(e.call)
  }

  function To(w: World, stage: Stage): World
    requires w.inFlight.Some?
  {
    w.(inFlight := Some(w.inFlight.value.(stage := stage)))
  }

  function Next(w: World, e: Event): World
    requires Enabled(w, e)
  {
    match e
    case TryRefresh =>
      if w.token.None? || w.inFlight.Some? then w // nothing to rotate, or join the refresh under way
      else w.(inFlight := Some(Flight(w.token.value, Posted)), posted := w.posted + multiset{w.token.value})
    case SignIn(user, j, expires) =>
      w.(server := GrantFamilies.Next(w.server, GrantFamilies.SignIn(user, j, expires)), replies := w.replies + {j})
    case Signed(j) => w.(token := Some(j), replies := w.replies - {j})
    case Clear => w.(token := None)
    case Serve(call, now) =>
      var consume := GrantFamilies.Consume(call, w.inFlight.value.token, now);
      var ok := Consumable(w.server.store, w.inFlight.value.token, now);
      To(w, if ok then InService(call) else Answered(None)).(server := GrantFamilies.Next(w.server, consume))
    case ServeSave(j, expires) =>
      var save := GrantFamilies.Save(w.inFlight.value.stage.call, j, expires);
      To(w, Answered(Some(j))).(server := GrantFamilies.Next(w.server, save))
    case ServeFails =>
      To(w, Answered(None)).(server :=
        GrantFamilies.Next(w.server, GrantFamilies.GiveUp(w.inFlight.value.stage.call)))
    case NetworkFails => To(w, Answered(None))
    case Settle => w.(token := w.inFlight.value.stage.tokens, inFlight := None)
    case Elsewhere(e) => w.(server := GrantFamilies.Next(w.server, e))
  }

  /** A page may start with the refresh token an earlier page left in storage. */
  ghost predicate Opens(w: World) {
    && GrantFamilies.Inv(w.server)
    && (w.token.Some? ==> w.token.value in w.server.store)
    && w.inFlight.None? && w.replies == {} && w.posted == multiset{}
  }

  ghost predicate IsRun(ws: seq<World>, es: seq<Event>) {
    && |ws| == |es| + 1 && Opens(ws[0])
    && forall i :: 0 <= i < |es| ==> Enabled(ws[i], es[i]) && ws[i + 1] == Next(ws[i], es[i])
  }

  predicate Arriving(w: World, j: Jti) {
    w.inFlight.Some? && w.inFlight.value.stage == Answered(Some(j))
  }

  ghost predicate Inv(w: World) {
    GrantFamilies.Inv(w.server) && PageInv(w)
  }

  /** Tokens still to be stored are new; a stored token was posted only by the refresh under way. */
  ghost predicate PageInv(w: World) {
    && (forall j :: w.posted[j] <= 1)
    && (forall j :: w.posted[j] == 1 ==> j in w.server.store)
    && (w.inFlight.Some? ==> w.posted[w.inFlight.value.token] == 1)
    && (w.token.Some? ==> w.token.value in w.server.store)
    && (w.token.Some? && w.posted[w.token.value] == 1 ==>
          w.inFlight.Some? && w.inFlight.value.token == w.token.value)
    && (forall j :: j in w.replies || Arriving(w, j) ==>
                      j in w.server.store && w.posted[j] == 0 && w.token != Some(j))
    && (forall j :: j in w.replies ==> !Arriving(w, j))
    && (w.inFlight.Some? && w.inFlight.value.stage.InService? ==> w.inFlight.value.stage.call in w.server.calls)
  }

  /** What a step makes the server do. */
  function ServerEvent(w: World, e: Event): Option<GrantFamilies.Event>
    requires Enabled(w, e)
  {
    match e
    case SignIn(user, j, expires) => Some(GrantFamilies.SignIn(user, j, expires))
    case Serve(call, now) => Some(GrantFamilies.Consume(call, w.inFlight.value.token, now))
    case ServeSave(j, expires) => Some(GrantFamilies.Save(w.inFlight.value.stage.call, j, expires))
    case ServeFails => Some(GrantFamilies.GiveUp(w.inFlight.value.stage.call))
    case Elsewhere(e) => Some(e)
    case _ => None
  }

  lemma StepOfServer(w: World, e: Event)
    requires Enabled(w, e)
    ensures var f := ServerEvent(w, e);
            if f.None? then Next(w, e).server == w.server
            else GrantFamilies.Enabled(w.server, f.value)
                 && Next(w, e).server == GrantFamilies.Next(w.server, f.value)
  {
    hide GrantFamilies.Next;
  }

  lemma StepServer(w: World, e: Event)
    requires GrantFamilies.Inv(w.server) && Enabled(w, e)
    ensures GrantFamilies.Inv(Next(w, e).server)
    ensures w.server.store.Keys <= Next(w, e).server.store.Keys
  {
    hide *;
    StepOfServer(w, e);
    var f := ServerEvent(w, e);
    if f.Some? {
      GrantFamilies.StepInv(w.server, f.value);
      GrantFamilies.StepKeys(w.server, f.value);
    }
  }

  /** A refresh posts the stored token, which was never posted, or joins the one under way. */
  lemma StepPosts(w: World, e: Event)
    requires PageInv(w) && Enabled(w, e) && e.TryRefresh?
    requires w.server.store.Keys <= Next(w, e).server.store.Keys
    ensures PageInv(Next(w, e))
  {
  }

  /** Signing in and out brings only new tokens to the store. */
  lemma StepSignsIn(w: World, e: Event)
    requires PageInv(w) && Enabled(w, e) && (e.SignIn? || e.Signed? || e.Clear?)
    requires w.server.store.Keys <= Next(w, e).server.store.Keys
    ensures PageInv(Next(w, e))
  {
  }

  /** The server's answer carries a token saved after everything posted. */
  lemma StepServes(w: World, e: Event)
    requires PageInv(w) && Enabled(w, e) && (e.Serve? || e.ServeSave? || e.ServeFails? || e.NetworkFails?)
    requires w.server.store.Keys <= Next(w, e).server.store.Keys
    ensures PageInv(Next(w, e))
  {
  }

  /** The answer replaces the token that was posted. */
  lemma StepSettles(w: World, e: Event)
    requires PageInv(w) && Enabled(w, e) && (e.Settle? || e.Elsewhere?)
    requires w.server.store.Keys <= Next(w, e).server.store.Keys
    ensures PageInv(Next(w, e))
  {
  }

  lemma StepPage(w: World, e: Event)
    requires PageInv(w) && Enabled(w, e)
    requires w.server.store.Keys <= Next(w, e).server.store.Keys
    ensures PageInv(Next(w, e))
  {
    hide *;
    match e
    case TryRefresh => StepPosts(w, e);
    case SignIn(_, _, _) => StepSignsIn(w, e);
    case Signed(_) => StepSignsIn(w, e);
    case Clear => StepSignsIn(w, e);
    case Settle => StepSettles(w, e);
    case Elsewhere(_) => StepSettles(w, e);
    case _ => StepServes(w, e);
  }

  lemma StepInv(w: World, e: Event)
    requires Inv(w) && Enabled(w, e)
    ensures Inv(Next(w, e))
  {
    StepServer(w, e);
    StepPage(w, e);
  }

  lemma {:induction false} RunInv(ws: seq<World>, es: seq<Event>, n: nat)
    requires IsRun(ws, es) && n < |ws|
    ensures Inv(ws[n])
  {
    if n == 0 {
    } else {
      RunInv(ws, es, n - 1);
      StepInv(ws[n - 1], es[n - 1]);
    }
  }

  /**
   Over every interleaving of 401s, sign-ins, logouts, lost answers and other clients, the
   page posts each refresh token at most once and the server consumes each grant at most once.
   */
  lemma PostedAtMostOnce(ws: seq<World>, es: seq<Event>, n: nat, j: Jti)
    requires IsRun(ws, es) && n < |ws|
    ensures ws[n].posted[j] <= 1 && ws[n].server.consumed[j] <= 1
  {
    RunInv(ws, es, n);
  }

  /** Two refresh requests of one page never carry the same token, however far apart. */
  lemma {:induction false} PostsDiffer(ws: seq<World>, es: seq<Event>, i: nat, k: nat)
    requires IsRun(ws, es) && i < k < |es|
    requires es[i] == es[k] == TryRefresh && ws[i].posted != ws[i + 1].posted && ws[k].posted != ws[k + 1].posted
    ensures ws[i].token != ws[k].token
  {
    PostedGrows(ws, es, i + 1, k);
    RunInv(ws, es, k + 1);
  }

  lemma {:induction false} PostedGrows(ws: seq<World>, es: seq<Event>, i: nat, k: nat)
    requires IsRun(ws, es) && i <= k < |ws|
    ensures ws[i].posted <= ws[k].posted
    decreases k
  {
    if i == k {
    } else {
      PostedGrows(ws, es, i, k - 1);
    }
  }

  /** A sign-in that is answered leaves the page with the new token, which the server would accept. */
  lemma SignInWorks(w: World, user: User, j: Jti, expires: int)
    requires Enabled(w, SignIn(user, j, expires))
    ensures var w1 := Next(w, SignIn(user, j, expires));
            Enabled(w1, Signed(j)) &&
            var w2 := Next(w1, Signed(j));
            && w2.token == Some(j) && w2.replies == w.replies - {j}
            && w2.server.store == w.server.store[j := Grant(user, expires, false)]
  {
    assert w.replies + {j} - {j} == w.replies - {j};
  }

  /** A refresh that the server accepts and saves brings the page the new token, of the same account. */
  lemma RefreshWorks(w: World, call: nat, now: int, j: Jti, expires: int)
    requires Inv(w) && w.token.Some? && w.inFlight.None? && call !in w.server.calls && j !in w.server.store
    requires var a := w.token.value; !w.server.store[a].revoked && now < w.server.store[a].expires
    ensures var w1 := Next(w, TryRefresh);
            Enabled(w1, Serve(call, now)) &&
            var w2 := Next(w1, Serve(call, now));
            Enabled(w2, ServeSave(j, expires)) &&
            var w3 := Next(w2, ServeSave(j, expires));
            Enabled(w3, Settle) &&
            var w4 := Next(w3, Settle);
            && w4.token == Some(j) && w4.inFlight.None?
            && j in w4.server.store && w4.server.store[j] == Grant(w.server.store[w.token.value].user, expires, false)
  {
    var a := w.token.value;
    var w2 := Next(Next(w, TryRefresh), Serve(call, now));
    assert w2.server.calls[call].user == w.server.store[a].user;
    hide GrantFamilies.Inv;
  }
}

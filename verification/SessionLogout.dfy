/**
 What a logout of the page achieves while a refresh is under way
 (web/src/api/client.ts, web/src/query/auth.ts).

 The page asks the server to revoke its token, an event elsewhere for the page, and then
 clears its store; neither waits for the shared refresh.
 */
module SessionLogout {
  import opened Prelude
  import opened RefreshGrants
  import opened SessionPage
  import GrantFamilies

  ghost predicate IsRunFrom(w: World, ws: seq<World>, es: seq<Event>) {
    && |ws| == |es| + 1 && ws[0] == w
    && forall i :: 0 <= i < |es| ==> Enabled(ws[i], es[i]) && ws[i + 1] == Next(ws[i], es[i])
  }

  /** No answer to a sign-in reaches the page. */
  predicate NoneSigned(es: seq<Event>) {
    forall i :: 0 <= i < |es| ==> !es[i].Signed?
  }

  predicate SignedOut(w: World) { w.token.None? }

  /** Whatever happens, the page holds no token until it is signed in again. */
  ghost predicate StaysSignedOut(w: World) {
    forall ws, es :: IsRunFrom(w, ws, es) && NoneSigned(es) ==> SignedOut(ws[|es|])
  }

  /** The refresh under way has a token for the page, is being served, or carries a grant that is not revoked. */
  predicate MayReturn(w: World) {
    w.inFlight.Some? && match w.inFlight.value.stage
      case Posted => w.inFlight.value.token in w.server.store && !w.server.store[w.inFlight.value.token].revoked
      case InService(_) => true
      case Answered(tokens) => tokens.Some?
  }

  // -------------------------------------------------------------- safe direction

  lemma StepQuiet(w: World, e: Event)
    requires Inv(w) && w.token.None? && !MayReturn(w) && Enabled(w, e) && !e.Signed?
    ensures Next(w, e).token.None? && !MayReturn(Next(w, e))
  {
  }

  lemma {:induction false} RunQuiet(w: World, ws: seq<World>, es: seq<Event>, n: nat)
    requires Inv(w) && w.token.None? && !MayReturn(w)
    requires IsRunFrom(w, ws, es) && NoneSigned(es) && n < |ws|
    ensures Inv(ws[n]) && ws[n].token.None? && !MayReturn(ws[n])
  {
    hide Inv, MayReturn, Enabled, Next;
    if n == 0 {
    } else {
      RunQuiet(w, ws, es, n - 1);
      StepQuiet(ws[n - 1], es[n - 1]);
      StepInv(ws[n - 1], es[n - 1]);
    }
  }

  // ---------------------------------------------------------- breaking direction

  /** One more step in front of a run that brings a token. */
  lemma ReturnsEarlier(w: World, e: Event)
    requires Enabled(w, e) && !e.Signed? && !StaysSignedOut(Next(w, e))
    ensures !StaysSignedOut(w)
  {
    hide Enabled, Next;
    var ws, es :| IsRunFrom(Next(w, e), ws, es) && NoneSigned(es) && !SignedOut(ws[|es|]);
    var ws', es' := [w] + ws, [e] + es;
    forall i | 0 <= i < |es'| ensures Enabled(ws'[i], es'[i]) && ws'[i + 1] == Next(ws'[i], es'[i]) {
      assert i > 0 ==> es'[i] == es[i - 1] && ws'[i] == ws[i - 1];
      assert ws'[i + 1] == ws[i];
    }
    assert IsRunFrom(w, ws', es') && NoneSigned(es') && ws'[|es'|] == ws[|es|];
  }

  lemma ReturnedNow(w: World)
    requires w.token.Some?
    ensures !StaysSignedOut(w)
  {
    var ws, es: seq<Event> := [w], [];
    assert IsRunFrom(w, ws, es) && NoneSigned(es) && ws[|es|] == w;
  }

  lemma AnsweredReturns(w: World)
    requires w.inFlight.Some? && w.inFlight.value.stage.Answered? && w.inFlight.value.stage.tokens.Some?
    ensures !StaysSignedOut(w)
  {
    ReturnedNow(Next(w, Settle));
    ReturnsEarlier(w, Settle);
  }

  lemma ServedReturns(w: World)
    requires Inv(w) && w.inFlight.Some? && w.inFlight.value.stage.InService?
    ensures !StaysSignedOut(w)
  {
    var j := GrantFamilies.NewJti(w.server.store);
    AnsweredReturns(Next(w, ServeSave(j, 0)));
    ReturnsEarlier(w, ServeSave(j, 0));
  }

  lemma {:induction false} NewCall(calls: set<nat>) returns (c: nat)
    ensures c !in calls && forall d :: d in calls ==> d < c
    decreases calls
  {
    if calls == {} {
      c := 0;
    } else {
      var d :| d in calls;
      var rest := NewCall(calls - {d});
      c := if d >= rest then d + 1 else rest;
      assert forall k :: k in calls ==> k == d || k in calls - {d};
    }
  }

  lemma PostedReturns(w: World)
    requires Inv(w) && Waiting(w) && MayReturn(w)
    ensures !StaysSignedOut(w)
  {
    var token := w.inFlight.value.token;
    var call := NewCall(w.server.calls.Keys);
    var e := Serve(call, w.server.store[token].expires - 1);
    StepInv(w, e);
    ServedReturns(Next(w, e));
    ReturnsEarlier(w, e);
  }

  /**
   A page without a token stays so until it is signed in again if and only if no refresh under
   way may still return one; no refresh under way at all is enough.
   */
  lemma StaysSignedOutIff(w: World)
    requires Inv(w) && w.token.None?
    ensures StaysSignedOut(w) <==> !MayReturn(w)
    ensures w.inFlight.None? ==> StaysSignedOut(w)
  {
    if !MayReturn(w) {
      forall ws, es | IsRunFrom(w, ws, es) && NoneSigned(es) ensures SignedOut(ws[|es|]) {
        RunQuiet(w, ws, es, |es|);
      }
    } else {
      match w.inFlight.value.stage
      case Posted => PostedReturns(w);
      case InService(_) => ServedReturns(w);
      case Answered(_) => AnsweredReturns(w);
    }
  }

  /** The same at every clearing of the page's store, in every run. */
  lemma ClearIsFinalIff(ws: seq<World>, es: seq<Event>, n: nat)
    requires IsRun(ws, es) && n < |es| && es[n] == Clear
    ensures StaysSignedOut(ws[n + 1]) <==> !MayReturn(ws[n])
  {
    RunInv(ws, es, n + 1);
    StaysSignedOutIff(ws[n + 1]);
    hide Inv, StaysSignedOut;
  }

  // ------------------------------------------------------------ a logout undone

  ghost predicate Leads(w: World, e: Event, w': World) {
    Enabled(w, e) && w' == Next(w, e)
  }

  /** The page's refresh of token a is with the server, which has consumed a. */
  ghost predicate BeingServed(w: World, a: Jti, call: nat) {
    && w.inFlight == Some(Flight(a, InService(call)))
    && call in w.server.calls && a in w.server.store && w.server.store[a].revoked
  }

  lemma RefreshBegins(w: World, call: nat) returns (w1: World, w2: World)
    requires Opens(w) && w.token.Some? && !w.server.store[w.token.value].revoked && call !in w.server.calls
    ensures var a := w.token.value;
            && a in w.server.store
            && Leads(w, TryRefresh, w1) && Leads(w1, Serve(call, w.server.store[a].expires - 1), w2)
            && BeingServed(w2, a, call) && w2.server.store.Keys == w.server.store.Keys
  {
    var a := w.token.value;
    w1 := Next(w, TryRefresh);
    w2 := Next(w1, Serve(call, w.server.store[a].expires - 1));
  }

  /** Revoking a token that has been consumed does nothing. */
  lemma RevokeIsLate(w: World, a: Jti, call: nat)
    requires BeingServed(w, a, call)
    ensures Leads(w, Elsewhere(GrantFamilies.Revoke(a)), w)
  {
    assert w.server.store[a := w.server.store[a].(revoked := true)] == w.server.store;
  }

  lemma AnswerSurvivesClear(w: World, a: Jti, call: nat, j: Jti) returns (w4: World, w5: World, w6: World)
    requires BeingServed(w, a, call) && j !in w.server.store
    ensures Leads(w, ServeSave(j, 0), w4) && Leads(w4, Clear, w5) && Leads(w5, Settle, w6)
    ensures w5.token.None? && w6.token == Some(j) && j in w6.server.store && !w6.server.store[j].revoked
  {
    w4 := Next(w, ServeSave(j, 0));
    w5 := Next(w4, Clear);
    w6 := Next(w5, Settle);
  }

  lemma SixSteps(ws: seq<World>, es: seq<Event>)
    requires |es| == 6 && |ws| == 7 && Opens(ws[0])
    requires Leads(ws[0], es[0], ws[1]) && Leads(ws[1], es[1], ws[2]) && Leads(ws[2], es[2], ws[3])
    requires Leads(ws[3], es[3], ws[4]) && Leads(ws[4], es[4], ws[5]) && Leads(ws[5], es[5], ws[6])
    ensures IsRun(ws, es)
  {
    hide Next, Enabled, Opens;
  }

  /**
   A logout that overtakes the answer to a refresh: the server has already consumed the token it
   is asked to revoke, the page clears its store, and the answer then signs the page in again
   with a grant that nobody revokes.
   */
  lemma LogoutUndone(w: World, call: nat, j: Jti) returns (ws: seq<World>, es: seq<Event>)
    requires Opens(w) && w.token.Some? && !w.server.store[w.token.value].revoked
    requires call !in w.server.calls && j !in w.server.store
    ensures var a := w.token.value;
            es == [TryRefresh, Serve(call, w.server.store[a].expires - 1), Elsewhere(GrantFamilies.Revoke(a)),
                   ServeSave(j, 0), Clear, Settle]
    ensures IsRun(ws, es) && ws[0] == w && ws[5].token.None?
    ensures ws[6].token == Some(j) && j in ws[6].server.store && !ws[6].server.store[j].revoked
  {
    hide *;
    var a := w.token.value;
    var w1, w2 := RefreshBegins(w, call);
    RevokeIsLate(w2, a, call);
    var w4, w5, w6 := AnswerSurvivesClear(w2, a, call, j);
    es := [TryRefresh, Serve(call, w.server.store[a].expires - 1), Elsewhere(GrantFamilies.Revoke(a)),
           ServeSave(j, 0), Clear, Settle];
    ws := [w, w1, w2, w2, w4, w5, w6];
    SixSteps(ws, es);
  }

  // ------------------------------------------------------------- an expired token

  /** The refresh under way cannot succeed: its token has expired at every instant still to come, or it has failed. */
  predicate Hopeless(w: World, from: int) {
    w.inFlight.Some? && match w.inFlight.value.stage
      case Posted => w.inFlight.value.token in w.server.store && w.server.store[w.inFlight.value.token].expires <= from
      case InService(_) => false
      case Answered(tokens) => tokens.None?
  }

  /** The instants at which the server looks at the page's token do not lie before from. */
  predicate ServedFrom(es: seq<Event>, from: int) {
    forall i :: 0 <= i < |es| && es[i].Serve? ==> es[i].now >= from
  }

  /** The server serves a posted token exactly when it is neither revoked nor expired. */
  lemma ServeIff(w: World, call: nat, now: int)
    requires Inv(w) && Enabled(w, Serve(call, now))
    ensures var w', a := Next(w, Serve(call, now)), w.inFlight.value.token;
            && a in w.server.store
            && w'.inFlight == Some(Flight(a, if !w.server.store[a].revoked && now < w.server.store[a].expires
                                             then InService(call) else Answered(None)))
            && (w.server.store[a].revoked || w.server.store[a].expires <= now ==> w'.server == w.server)
  {
  }

  /** No step of the server moves the expiry of a grant. */
  lemma StepKeepsExpiry(s: GrantFamilies.Server, e: GrantFamilies.Event, j: Jti)
    requires GrantFamilies.Enabled(s, e) && j in s.store
    ensures j in GrantFamilies.Next(s, e).store && GrantFamilies.Next(s, e).store[j].expires == s.store[j].expires
  {
  }

  /** What a step makes of the refresh under way, when the page's server does not serve it. */
  lemma StepFlight(w: World, e: Event)
    requires Enabled(w, e) && w.inFlight.Some? && !w.inFlight.value.stage.InService? && !e.Serve?
    ensures if e.Settle? then Next(w, e).token == w.inFlight.value.stage.tokens
            else if e.NetworkFails? then Next(w, e).inFlight == Some(w.inFlight.value.(stage := Answered(None)))
            else Next(w, e).inFlight == w.inFlight
  {
    hide GrantFamilies.Next;
  }

  lemma StepHopeless(w: World, e: Event, from: int)
    requires Inv(w) && Hopeless(w, from) && Enabled(w, e) && (e.Serve? ==> e.now >= from)
    ensures if e.Settle? then Next(w, e).token.None? else Hopeless(Next(w, e), from)
  {
    if e.Serve? {
      ServeIff(w, e.call, e.now);
      hide Inv, Enabled, Next;
    } else {
      StepFlight(w, e);
      StepOfServer(w, e);
      var f := ServerEvent(w, e);
      if f.Some? && Waiting(w) {
        StepKeepsExpiry(w.server, f.value, w.inFlight.value.token);
      }
      hide Inv, Next, GrantFamilies.Next, GrantFamilies.Enabled, ServerEvent;
    }
  }

  /** A refresh with a token that has expired settles, whenever it does, with the page signed out. */
  lemma {:induction false} ExpiredNeverReturns(w: World, ws: seq<World>, es: seq<Event>, n: nat, from: int)
    requires Inv(w) && Hopeless(w, from) && IsRunFrom(w, ws, es) && ServedFrom(es, from) && n < |es|
    requires forall i :: 0 <= i < n ==> !es[i].Settle?
    ensures Inv(ws[n]) && Hopeless(ws[n], from)
    ensures es[n].Settle? ==> ws[n + 1].token.None?
  {
    hide Inv, Hopeless, Enabled, Next;
    if n == 0 {
    } else {
      ExpiredNeverReturns(w, ws, es, n - 1, from);
      StepHopeless(ws[n - 1], es[n - 1], from);
      StepInv(ws[n - 1], es[n - 1]);
    }
    StepHopeless(ws[n], es[n], from);
  }
}

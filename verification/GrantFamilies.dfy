/**
 Concurrent refreshes against an atomic store: each sign-in starts a family of grants,
 and rotation keeps at most one member of it usable.
 */
module GrantFamilies {
  import opened RefreshGrants

  /** A refresh that has consumed a grant of a family of this account, and not yet saved its successor. */
  datatype Rotation = Rotation(family: nat, user: User)

  /** accounts are those of the sign-ins so far; each sign-in starts the family with its number. */
  datatype Server = Server(
    store: Store,
    family: map<Jti, nat>,
    calls: map<nat, Rotation>,
    accounts: seq<User>,
    consumed: multiset<Jti>)

  const START := Server(map[], map[], map[], [], multiset{})

  datatype Event =
    | SignIn(user: User, jti: Jti, expires: int)
    | Consume(call: nat, jti: Jti, now: int)
    | GiveUp(call: nat)                       // also a save that is lost
    | Save(call: nat, jti: Jti, expires: int) // also a save whose caller sees an error
    | Revoke(jti: Jti)

  /** New jtis are fresh. */
  predicate Enabled(s: Server, e: Event) {
    match e
    case SignIn(user, j, expires) => j !in s.store
    case Consume(call, j, now) => call !in s.calls && j in s.family
    case GiveUp(call) => call in s.calls
    case Save(call, j, expires) => call in s.calls && j !in s.store
    case Revoke(j) => true
  }

  function Next(s: Server, e: Event): Server
    requires Enabled(s, e)
  {
    match e
    case SignIn(user, j, expires) =>
      s.(store := s.store[j := Grant(user, expires, false)], family := s.family[j := |s.accounts|],
         accounts := s.accounts + [user])
    case Consume(call, j, now) =>
      if Consumable(s.store, j, now) then
        s.(store := Revoked(s.store, j), calls := s.calls[call := Rotation(s.family[j], s.store[j].user)],
           consumed := s.consumed + multiset{j})
      else s
    case GiveUp(call) => s.(calls := s.calls - {call})
    case Save(call, j, expires) =>
      s.(store := s.store[j := Grant(s.calls[call].user, expires, false)],
         family := s.family[j := s.calls[call].family],
         calls := s.calls - {call})
    case Revoke(j) => s.(store := Revoked(s.store, j))
  }

  ghost predicate Usable(s: Server, j: Jti, f: nat) {
    j in s.store && !s.store[j].revoked && j in s.family && s.family[j] == f
  }

  ghost predicate Rotating(s: Server, call: nat, f: nat) {
    call in s.calls && s.calls[call].family == f
  }

  /** Of each family at most one grant is usable, or one refresh is under way, never both. */
  ghost predicate OnePerFamily(s: Server) {
    && (forall j, k, f: nat :: Usable(s, j, f) && Usable(s, k, f) ==> j == k)
    && (forall c, d, f: nat :: Rotating(s, c, f) && Rotating(s, d, f) ==> c == d)
    && (forall j, c, f: nat :: Usable(s, j, f) && Rotating(s, c, f) ==> false)
  }

  /** Whatever is issued in a family is issued to the account that signed in. */
  ghost predicate SameAccount(s: Server) {
    && (forall j :: j in s.store && j in s.family && s.family[j] < |s.accounts| ==>
          s.store[j].user == s.accounts[s.family[j]])
    && (forall c :: c in s.calls && s.calls[c].family < |s.accounts| ==>
          s.calls[c].user == s.accounts[s.calls[c].family])
  }

  /** Every grant and every refresh under way is of a family that has started. */
  ghost predicate Numbered(s: Server) {
    && s.family.Keys == s.store.Keys
    && (forall j :: j in s.family ==> s.family[j] < |s.accounts|)
    && (forall c :: c in s.calls ==> s.calls[c].family < |s.accounts|)
  }

  /** What was consumed was consumed once, and is revoked. */
  ghost predicate SpentOnce(s: Server) {
    && (forall j :: s.consumed[j] <= 1)
    && (forall j :: s.consumed[j] == 1 ==> j in s.store && s.store[j].revoked)
  }

  ghost predicate Inv(s: Server) {
    OnePerFamily(s) && Numbered(s) && SameAccount(s) && SpentOnce(s)
  }

  /** A usable grant was usable before, or starts a family, or succeeds the one that was rotated. */
  lemma StepUsable(s: Server, e: Event, j: Jti, f: nat)
    requires Enabled(s, e) && Usable(Next(s, e), j, f)
    ensures (Usable(s, j, f) && (e.Consume? && Consumable(s.store, e.jti, e.now) ==> j != e.jti))
            || (e.SignIn? && f == |s.accounts| && j == e.jti)
            || (e.Save? && Rotating(s, e.call, f) && j == e.jti)
  {
  }

  /** A refresh under way was so before, or has just consumed the usable grant. */
  lemma StepRotating(s: Server, e: Event, c: nat, f: nat)
    requires Numbered(s) && Enabled(s, e) && Rotating(Next(s, e), c, f)
    ensures (Rotating(s, c, f) && (e.Save? ==> c != e.call))
            || (e.Consume? && c == e.call && Usable(s, e.jti, f) && Consumable(s.store, e.jti, e.now))
  {
  }

  lemma UsableStarted(s: Server, j: Jti, f: nat)
    requires Numbered(s) && Usable(s, j, f)
    ensures f < |s.accounts| && j in s.store
  {
  }

  lemma OneUsable(s: Server, e: Event, j: Jti, k: Jti, f: nat)
    requires Inv(s) && Enabled(s, e) && Usable(Next(s, e), j, f) && Usable(Next(s, e), k, f)
    ensures j == k
  {
    StepUsable(s, e, j, f);
    StepUsable(s, e, k, f);
    if Usable(s, j, f) { UsableStarted(s, j, f); }
    if Usable(s, k, f) { UsableStarted(s, k, f); }
    StartedRotations(s);
    hide Next, Usable, Rotating, Consumable, SameAccount, SpentOnce, Numbered;
  }

  lemma StartedRotations(s: Server)
    requires Numbered(s)
    ensures forall c, f: nat :: Rotating(s, c, f) ==> f < |s.accounts|
  {
  }

  lemma OneRotating(s: Server, e: Event, c: nat, d: nat, f: nat)
    requires Inv(s) && Enabled(s, e) && Rotating(Next(s, e), c, f) && Rotating(Next(s, e), d, f)
    ensures c == d
  {
    StepRotating(s, e, c, f);
    StepRotating(s, e, d, f);
    hide Next, Usable, Rotating, Consumable, SameAccount, SpentOnce, Numbered;
  }

  lemma NeverBoth(s: Server, e: Event, j: Jti, c: nat, f: nat)
    requires Inv(s) && Enabled(s, e) && Usable(Next(s, e), j, f)
    ensures !Rotating(Next(s, e), c, f)
  {
    if Rotating(Next(s, e), c, f) {
      StartedRotations(s);
      hide Next, Usable, Rotating, Consumable, SameAccount, SpentOnce, Numbered;
      StepUsable(s, e, j, f);
      StepRotating(s, e, c, f);
    }
  }

  lemma StepOnePerFamily(s: Server, e: Event)
    requires Inv(s) && Enabled(s, e)
    ensures OnePerFamily(Next(s, e))
  {
    var s' := Next(s, e);
    forall j, k, f: nat | Usable(s', j, f) && Usable(s', k, f) ensures j == k {
      OneUsable(s, e, j, k, f);
    }
    forall c, d, f: nat | Rotating(s', c, f) && Rotating(s', d, f) ensures c == d {
      OneRotating(s, e, c, d, f);
    }
    forall j, c, f: nat | Usable(s', j, f) ensures !Rotating(s', c, f) {
      NeverBoth(s, e, j, c, f);
    }
    hide Next, Usable, Rotating, Inv, Enabled;
  }

  /** No grant is ever forgotten. */
  lemma StepKeys(s: Server, e: Event)
    requires Enabled(s, e)
    ensures s.store.Keys <= Next(s, e).store.Keys
  {
  }

  lemma StepNumbered(s: Server, e: Event)
    requires Numbered(s) && Enabled(s, e)
    ensures Numbered(Next(s, e))
  {
  }

  lemma StepSameAccount(s: Server, e: Event)
    requires Numbered(s) && SameAccount(s) && Enabled(s, e)
    ensures SameAccount(Next(s, e))
  {
  }

  lemma StepSpentOnce(s: Server, e: Event)
    requires SpentOnce(s) && Enabled(s, e)
    ensures SpentOnce(Next(s, e))
  {
  }

  lemma StepInv(s: Server, e: Event)
    requires Inv(s) && Enabled(s, e)
    ensures Inv(Next(s, e))
  {
    hide OnePerFamily, Numbered, SameAccount, SpentOnce, Next, Enabled;
    StepOnePerFamily(s, e);
    StepNumbered(s, e);
    StepSameAccount(s, e);
    StepSpentOnce(s, e);
  }

  ghost predicate IsRun(ss: seq<Server>, es: seq<Event>) {
    && |ss| == |es| + 1 && ss[0] == START
    && forall i :: 0 <= i < |es| ==> Enabled(ss[i], es[i]) && ss[i + 1] == Next(ss[i], es[i])
  }

  lemma {:induction false} RunInv(ss: seq<Server>, es: seq<Event>, n: nat)
    requires IsRun(ss, es) && n < |ss|
    ensures Inv(ss[n])
  {
    if n == 0 {
    } else {
      RunInv(ss, es, n - 1);
      StepInv(ss[n - 1], es[n - 1]);
    }
  }

  /** In every interleaving of refreshes, a grant is consumed at most once, and never again once revoked. */
  lemma SingleUse(ss: seq<Server>, es: seq<Event>, n: nat, j: Jti, now: int)
    requires IsRun(ss, es) && n < |ss|
    ensures ss[n].consumed[j] <= 1
    ensures ss[n].consumed[j] == 1 ==> !Consumable(ss[n].store, j, now)
  {
    RunInv(ss, es, n);
  }

  lemma {:induction false} InjectionBound(live: set<Jti>, family: map<Jti, nat>, n: nat)
    requires forall j :: j in live ==> j in family && family[j] < n
    requires forall j, k :: j in live && k in live && family[j] == family[k] ==> j == k
    ensures |live| <= n
  {
    if n == 0 {
      assert live == {};
    } else if j :| j in live && family[j] == n - 1 {
      InjectionBound(live - {j}, family, n - 1);
    } else {
      InjectionBound(live, family, n - 1);
    }
  }

  /** However often tokens are rotated or replayed, no more grants are live than there were sign-ins. */
  lemma LiveGrantsBounded(ss: seq<Server>, es: seq<Event>, n: nat)
    requires IsRun(ss, es) && n < |ss|
    ensures |LiveGrants(ss[n].store)| <= |ss[n].accounts|
  {
    RunInv(ss, es, n);
    var s := ss[n];
    forall j, k | j in LiveGrants(s.store) && k in LiveGrants(s.store) && s.family[j] == s.family[k] ensures j == k {
      assert Usable(s, j, s.family[j]) && Usable(s, k, s.family[j]);
    }
    InjectionBound(LiveGrants(s.store), s.family, |s.accounts|);
  }

  /** In every interleaving each grant belongs to the account whose sign-in started its family. */
  lemma GrantsKeepAccount(ss: seq<Server>, es: seq<Event>, n: nat, j: Jti)
    requires IsRun(ss, es) && n < |ss| && j in ss[n].store
    ensures j in ss[n].family && ss[n].family[j] < |ss[n].accounts|
    ensures ss[n].store[j].user == ss[n].accounts[ss[n].family[j]]
  {
    RunInv(ss, es, n);
  }

  // ------------------------------------------------------------- ending a session

  /** No grant of the family can be used. */
  ghost predicate Unusable(s: Server, f: nat) { forall j :: !Usable(s, j, f) }

  ghost predicate IsRunFrom(s: Server, ss: seq<Server>, es: seq<Event>) {
    && |ss| == |es| + 1 && ss[0] == s
    && forall i :: 0 <= i < |es| ==> Enabled(ss[i], es[i]) && ss[i + 1] == Next(ss[i], es[i])
  }

  /** Whatever clients go on to do, the family is over. */
  ghost predicate StaysOver(s: Server, f: nat) {
    forall ss, es :: IsRunFrom(s, ss, es) ==> Unusable(ss[|es|], f)
  }

  ghost predicate Over(s: Server, f: nat) {
    f < |s.accounts| && Unusable(s, f) && forall c :: !Rotating(s, c, f)
  }

  lemma StepOver(s: Server, e: Event, f: nat)
    requires Over(s, f) && Enabled(s, e)
    ensures Over(Next(s, e), f)
  {
    var s' := Next(s, e);
    forall j ensures !Usable(s', j, f) {
      assert !Usable(s, j, f) && (e.Save? ==> !Rotating(s, e.call, f));
    }
    forall c ensures !Rotating(s', c, f) {
      assert !Rotating(s, c, f) && (e.Consume? ==> !Usable(s, e.jti, f));
    }
  }

  lemma {:induction false} RunOver(s: Server, ss: seq<Server>, es: seq<Event>, f: nat, n: nat)
    requires Over(s, f) && IsRunFrom(s, ss, es) && n < |ss|
    ensures Over(ss[n], f)
  {
    hide Over, Enabled, Next;
    if n == 0 {
    } else {
      RunOver(s, ss, es, f, n - 1);
      StepOver(ss[n - 1], es[n - 1], f);
    }
  }

  /** There is always a token id that is not in use. */
  lemma NewJti(store: Store) returns (j: Jti)
    ensures j !in store
  {
    var longest := Longest(store.Keys);
    j := seq(longest + 1, i => 'j');
  }

  lemma {:induction false} Longest(js: set<Jti>) returns (n: nat)
    ensures forall j :: j in js ==> |j| <= n
    decreases js
  {
    if js == {} {
      n := 0;
    } else {
      var j :| j in js;
      var rest := Longest(js - {j});
      n := if |j| > rest then |j| else rest;
      assert forall k :: k in js ==> k == j || k in js - {j};
    }
  }

  /** A refresh under way can always make its family usable again. */
  lemma RotatingRevives(s: Server, c: nat, f: nat)
    requires Rotating(s, c, f)
    ensures !StaysOver(s, f)
  {
    var j := NewJti(s.store);
    var e := Save(c, j, 0);
    var ss, es := [s, Next(s, e)], [e];
    assert Usable(ss[1], j, f);
    assert IsRunFrom(s, ss, es) && !Unusable(ss[|es|], f);
  }

  lemma UsableIsNotOver(s: Server, j: Jti, f: nat)
    requires Usable(s, j, f)
    ensures !StaysOver(s, f)
  {
    var ss, es: seq<Event> := [s], [];
    assert IsRunFrom(s, ss, es) && !Unusable(ss[|es|], f);
  }

  /** A family that has started is over for good exactly when nothing of it is usable or being rotated. */
  lemma StaysOverIff(s: Server, f: nat)
    requires f < |s.accounts|
    ensures StaysOver(s, f) <==> Over(s, f)
  {
    if Over(s, f) {
      forall ss, es | IsRunFrom(s, ss, es) ensures Unusable(ss[|es|], f) {
        RunOver(s, ss, es, f, |es|);
      }
    } else if c :| Rotating(s, c, f) {
      RotatingRevives(s, c, f);
    } else {
      var j :| Usable(s, j, f);
      UsableIsNotOver(s, j, f);
    }
  }

  /**
   A logout that revokes a grant ends its session for good if and only if no other grant of the
   family is usable and no refresh of it is under way.  Revoking the usable grant always does.
   */
  lemma RevokeEndsFamilyIff(s: Server, j: Jti)
    requires Inv(s) && j in s.store
    ensures var f := s.family[j];
            && (StaysOver(Next(s, Revoke(j)), f) <==>
                  (forall k :: k != j ==> !Usable(s, k, f)) && (forall c :: !Rotating(s, c, f)))
            && (Usable(s, j, f) ==> StaysOver(Next(s, Revoke(j)), f))
  {
    var f, s' := s.family[j], Next(s, Revoke(j));
    StaysOverIff(s', f);
    forall k ensures Usable(s', k, f) <==> k != j && Usable(s, k, f) {
    }
    forall c ensures Rotating(s', c, f) <==> Rotating(s, c, f) {
    }
    hide StaysOver, Usable, Rotating;
  }

  // ------------------------------------------------------------------- expiry

  /** A grant is consumed, and a rotation begins, exactly when it is known, not revoked and not expired. */
  lemma ConsumeIff(s: Server, call: nat, j: Jti, now: int)
    requires Inv(s) && Enabled(s, Consume(call, j, now))
    ensures var s' := Next(s, Consume(call, j, now));
            && j in s.store
            && (!s.store[j].revoked && now < s.store[j].expires ==>
                  && s'.consumed == s.consumed + multiset{j} && s'.store == s.store[j := s.store[j].(revoked := true)]
                  && call in s'.calls && s'.calls[call] == Rotation(s.family[j], s.store[j].user))
            && (s.store[j].revoked || s.store[j].expires <= now ==> s' == s)
  {
  }

  /** In every run, whatever is consumed, and whatever rotation begins, was neither revoked nor expired. */
  lemma NothingExpiredIsConsumed(ss: seq<Server>, es: seq<Event>, i: nat)
    requires IsRun(ss, es) && i < |es|
    requires ss[i + 1].consumed != ss[i].consumed || !(ss[i + 1].calls.Keys <= ss[i].calls.Keys)
    ensures es[i].Consume? && es[i].jti in ss[i].store
    ensures !ss[i].store[es[i].jti].revoked && es[i].now < ss[i].store[es[i].jti].expires
  {
    RunInv(ss, es, i);
  }

  /** A sign-in starts a family with a grant that lasts until it expires, and a rotation carries the family on. */
  lemma GrantsWork(s: Server, user: User, call: nat, j: Jti, expires: int)
    requires Inv(s) && j !in s.store
    ensures var s' := Next(s, SignIn(user, j, expires));
            && s'.store == s.store[j := Grant(user, expires, false)] && Usable(s', j, |s.accounts|)
            && |s'.accounts| == |s.accounts| + 1 && s'.accounts[|s.accounts|] == user
    ensures call in s.calls ==>
              var s' := Next(s, Save(call, j, expires));
              && s'.store == s.store[j := Grant(s.calls[call].user, expires, false)]
              && Usable(s', j, s.calls[call].family) && call !in s'.calls
  {
  }
}

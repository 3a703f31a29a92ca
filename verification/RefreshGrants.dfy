/**
 Refresh-token rotation on the server: the single-use grant store and the identity
 service over it (internal/app/identity/service.go, internal/app/auth.go,
 internal/adapters/outbound/memory/refresh.go).
 */
module RefreshGrants {
  import opened Prelude

  type Jti = string
  type User = string

  datatype Grant = Grant(user: User, expires: int, revoked: bool)

  type Store = map<Jti, Grant>

  predicate Consumable(m: Store, j: Jti, now: int) {
    j in m && !m[j].revoked && now < m[j].expires
  }

  function Revoked(m: Store, j: Jti): Store {
    if j in m then m[j := m[j].(revoked := true)] else m
  }

  /** j is spent and its holder has a new grant. */
  function Rotated(m: Store, j: Jti, successor: Jti, expires: int): Store
    requires j in m
  {
    Revoked(m, j)[successor := Grant(m[j].user, expires, false)]
  }

  /** What becomes of a save: done, never done, or done although its caller sees an error. */
  datatype Saving = Saved | Lost | Unanswered

  class RefreshStore {
    var records: Store

    constructor ()
      ensures records == map[]
    {
      records := map[];
    }

    /** A save may fail before it takes effect, or after. */
    method Save(j: Jti, g: Grant, saving: Saving) returns (ok: bool)
      modifies this
      ensures ok == saving.Saved?
      ensures records == if saving.Lost? then old(records) else old(records)[j := g]
    {
      if saving.Lost? {
        return false;
      }
      records := records[j := g];
      return saving.Saved?;
    }

    /** Validates and revokes in one step. */
    method Consume(j: Jti, now: int) returns (r: Result<Grant>)
      modifies this
      ensures r.Ok? <==> Consumable(old(records), j, now)
      ensures r.Ok? <==> j in old(records) && !old(records)[j].revoked && now < old(records)[j].expires
      ensures r.Ok? ==> records == old(records)[j := old(records)[j].(revoked := true)]
      ensures r.Ok? ==> r.value == old(records)[j].(revoked := true) && records == Revoked(old(records), j)
      ensures r.Err? ==> r.error == Unauthorized && records == old(records)
    {
      if j !in records || records[j].revoked {
        return Err(Unauthorized);
      }
      if now >= records[j].expires {
        return Err(Unauthorized);
      }
      var rec := records[j].(revoked := true);
      records := records[j := rec];
      return Ok(rec);
    }

    method Revoke(j: Jti)
      modifies this
      ensures records == Revoked(old(records), j)
      ensures records == if j !in old(records) then old(records)
                         else old(records)[j := old(records)[j].(revoked := true)]
    {
      if j in records {
        records := records[j := records[j].(revoked := true)];
      }
    }
  }

  // ----------------------------------------------------------------- use-cases

  /** What the user repository, the token signer and the grant store answer. */
  datatype Account = Active | Inactive | Missing | Unreadable
  datatype Issued = Issued(jti: Jti, expires: int, saving: Saving) | SigningFailed
  {
    predicate Succeeds() { Issued? && saving.Saved? }

    /** The store with the grant, whether or not the caller learns of it. */
    function Into(m: Store, user: User): Store {
      if Issued? && !saving.Lost? then m[jti := Grant(user, expires, false)] else m
    }
  }

  function LiveGrants(m: Store): set<Jti> { set j | j in m && !m[j].revoked }

  /** issue: sign a pair and record the refresh grant. */
  method Issue(store: RefreshStore, user: User, issued: Issued) returns (r: Result<Jti>)
    modifies store
    ensures r == if issued.Succeeds() then Ok(issued.jti) else Err(Internal)
    ensures store.records == issued.Into(old(store.records), user)
    ensures r.Ok? <==> issued.Issued? && issued.saving.Saved?
    ensures store.records == if issued.Issued? && !issued.saving.Lost?
                             then old(store.records)[issued.jti := Grant(user, issued.expires, false)]
                             else old(store.records)
  {
    if issued.SigningFailed? {
      return Err(Internal);
    }
    var ok := store.Save(issued.jti, Grant(user, issued.expires, false), issued.saving);
    return if ok then Ok(issued.jti) else Err(Internal);
  }

  /** What a refresh leaves in the store: nothing new, the grant spent, or the grant spent and its successor. */
  function Refreshed(m: Store, token: Option<Jti>, now: int, account: Account, issued: Issued): Store {
    if token.None? || !Consumable(m, token.value, now) then m
    else if !account.Active? then Revoked(m, token.value)
    else issued.Into(Revoked(m, token.value), m[token.value].user)
  }

  /** Refresh with no other call in between; token is the jti of a token whose signature verified. */
  method Refresh(store: RefreshStore, token: Option<Jti>, now: int, account: Account, issued: Issued)
    returns (r: Result<Jti>)
    requires issued.Issued? ==> issued.jti !in store.records
    modifies store
    ensures r.Ok? <==>
              token.Some? && Consumable(old(store.records), token.value, now) && account.Active? && issued.Succeeds()
    ensures r.Ok? <==>
              && token.Some? && token.value in old(store.records) && !old(store.records)[token.value].revoked
              && now < old(store.records)[token.value].expires
              && account.Active? && issued.Issued? && issued.saving.Saved?
    ensures r.Ok? ==>
              && token.value in store.records && store.records[token.value].revoked
              && issued.jti in store.records
              && store.records[issued.jti] == Grant(old(store.records)[token.value].user, issued.expires, false)
    ensures r.Ok? ==> r.value == issued.jti
    ensures r.Ok? ==> store.records == Rotated(old(store.records), token.value, issued.jti, issued.expires)
    ensures store.records == Refreshed(old(store.records), token, now, account, issued)
    ensures |LiveGrants(store.records)| <= |LiveGrants(old(store.records))|
  {
    ghost var before := store.records;
    if token.None? {
      return Err(Unauthorized);
    }
    var rec := store.Consume(token.value, now);
    if rec.Err? {
      return Err(Unauthorized);
    }
    RevokeLowersLive(before, token.value);
    match account {
      case Missing => return Err(Unauthorized);
      case Unreadable => return Err(Internal);
      case Inactive => return Err(Unauthorized);
      case Active =>
    }
    ghost var between := store.records;
    r := Issue(store, rec.value.user, issued);
    if issued.Issued? {
      SaveRaisesLive(between, issued.jti, Grant(rec.value.user, issued.expires, false));
    }
  }

  /** Logout of an unverifiable token is already done. */
  method Logout(store: RefreshStore, token: Option<Jti>)
    modifies store
    ensures store.records == if token.Some? then Revoked(old(store.records), token.value) else old(store.records)
  {
    if token.Some? {
      store.Revoke(token.value);
    }
  }

  lemma RevokeLowersLive(m: Store, j: Jti)
    requires j in m && !m[j].revoked
    ensures |LiveGrants(Revoked(m, j))| == |LiveGrants(m)| - 1
  {
    assert LiveGrants(Revoked(m, j)) == LiveGrants(m) - {j};
  }

  lemma SaveRaisesLive(m: Store, j: Jti, g: Grant)
    requires j !in m && !g.revoked
    ensures |LiveGrants(m[j := g])| == |LiveGrants(m)| + 1
  {
    assert LiveGrants(m[j := g]) == LiveGrants(m) + {j};
  }
}

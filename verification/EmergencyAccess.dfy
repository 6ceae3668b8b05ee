/** Emergency access: a grantor lets a trusted contact ask for one view of the vault at a time. Each call
    is a function of the table of grants; the service object performs the same calls in place. */
module EmergencyAccess {
  import opened Wrappers
  import opened Strings

  type Id = nat

  datatype User = User(email: string, personalOrganization: nat)

  type Users = map<nat, User>

  datatype Status = Invited | Accepted | Confirmed | RecoveryRequested | RecoveryApproved | RecoveryRejected | Revoked

  datatype Grant = Grant(grantor: nat, email: string, grantee: Option<nat>, status: Status, key: Option<string>,
                         requestedAt: Option<int>, approvedAt: Option<int>)

  type Table = map<Id, Grant>

  datatype Error = NotFound | Forbidden | InvalidInput | UserMissing | KeyMissing

  /** The live items of each organization, newest first; fixed for a run. */
  type Items = map<nat, seq<nat>>

  /** The stored key, and the items listed with it. */
  datatype Vault = Vault(key: string, items: seq<nat>)

  /** The repository lists at most 5000 items a page, whatever the caller asks for. */
  function FirstPage(items: Items, organization: nat, perPage: nat): seq<nat> {
    var all := if organization in items then items[organization] else [];
    var size := if perPage == 0 then 50 else if perPage > 5000 then 5000 else perPage;
    if |all| <= size then all else all[..size]
  }

  /** So the page of ten thousand that a vault read asks for is the whole vault up to half of that. */
  lemma VaultIsWholeIff(items: Items, organization: nat)
    requires organization in items
    ensures FirstPage(items, organization, 10000) <= items[organization]
    ensures FirstPage(items, organization, 10000) == items[organization] <==> |items[organization]| <= 5000
    ensures |items[organization]| > 5000 ==> |FirstPage(items, organization, 10000)| == 5000
  {
    if |items[organization]| > 5000 {
      assert |FirstPage(items, organization, 10000)| == 5000;
    }
  }

  predicate SameEmail(a: string, b: string) {
    ToLower(a) == ToLower(b)
  }

  function CleanEmail(email: string): string {
    TrimSpace(ToLower(email))
  }

  // ---- the calls ----

  function InviteError(users: Users, grantor: nat, email: string): Option<Error> {
    if CleanEmail(email) == "" then Some(InvalidInput)
    else if grantor !in users then Some(UserMissing)
    else if SameEmail(users[grantor].email, CleanEmail(email)) then Some(InvalidInput)
    else None
  }

  function Fresh(grantor: nat, email: string): Grant {
    Grant(grantor, CleanEmail(email), None, Invited, None, None, None)
  }

  function AcceptError(users: Users, t: Table, grantee: nat, id: Id): Option<Error> {
    if id !in t then Some(NotFound)
    else if t[id].status != Invited then Some(InvalidInput)
    else if grantee !in users then Some(UserMissing)
    else if !SameEmail(users[grantee].email, t[id].email) then Some(Forbidden)
    else None
  }

  function ConfirmError(t: Table, grantor: nat, id: Id, key: string): Option<Error> {
    if TrimSpace(key) == "" then Some(InvalidInput) else GrantorError(t, grantor, id, Accepted)
  }

  /** The checks of a call by the grantor that expects a status. */
  function GrantorError(t: Table, grantor: nat, id: Id, expected: Status): Option<Error> {
    if id !in t then Some(NotFound)
    else if t[id].grantor != grantor then Some(Forbidden)
    else if t[id].status != expected then Some(InvalidInput)
    else None
  }

  function RequestError(t: Table, grantee: nat, id: Id): Option<Error> {
    if id !in t then Some(NotFound)
    else if t[id].grantee != Some(grantee) then Some(Forbidden)
    else if t[id].status != Confirmed then Some(InvalidInput)
    else None
  }

  function RevokeError(t: Table, grantor: nat, id: Id): Option<Error> {
    if id !in t then Some(NotFound)
    else if t[id].grantor != grantor then Some(Forbidden)
    else None
  }

  function ReadError(users: Users, t: Table, grantee: nat, id: Id): Option<Error> {
    if id !in t then Some(NotFound)
    else if t[id].grantee != Some(grantee) then Some(Forbidden)
    else if t[id].status != RecoveryApproved then Some(Forbidden)
    else if t[id].key.None? then Some(KeyMissing)
    else if t[id].grantor !in users then Some(UserMissing)
    else None
  }

  /** Reading the vault uses up the approval. */
  function AfterRead(g: Grant): Grant {
    g.(status := Confirmed, requestedAt := None, approvedAt := None)
  }

  /** Only confirmed and approved grants are listed for a new key. */
  predicate Listed(g: Grant, grantor: nat) {
    g.grantor == grantor && (g.status == Confirmed || g.status == RecoveryApproved)
  }

  /** A listed grant without a key, or with a key that cannot be translated, stays as it is. */
  predicate ReKeyed(g: Grant, grantor: nat, newKeys: map<string, string>) {
    Listed(g, grantor) && g.key.Some? && g.key.value in newKeys
  }

  function ReKeyGrant(g: Grant, grantor: nat, newKeys: map<string, string>): Grant {
    if ReKeyed(g, grantor, newKeys) then g.(key := Some(newKeys[g.key.value])) else g
  }

  function ReKey(t: Table, grantor: nat, newKeys: map<string, string>): Table {
    map id | id in t :: ReKeyGrant(t[id], grantor, newKeys)
  }

  // ---- the service ----

  class EmergencyAccessService {
    const users: Users
    const items: Items
    var grants: Table

    constructor (users: Users, items: Items)
      ensures this.users == users && this.items == items && grants == map[]
    {
      this.users := users;
      this.items := items;
      grants := map[];
    }

    method Invite(grantor: nat, granteeEmail: string, id: Id) returns (error: Option<Error>)
      modifies this
      ensures error == InviteError(users, grantor, granteeEmail)
      ensures grants == if error.None? then old(grants)[id := Fresh(grantor, granteeEmail)] else old(grants)
    {
      var email := TrimSpace(ToLower(granteeEmail));
      if email == "" {
        return Some(InvalidInput);
      }
      if grantor !in users {
        return Some(UserMissing);
      }
      if SameEmail(users[grantor].email, email) {
        return Some(InvalidInput);
      }
      grants := grants[id := Grant(grantor, email, None, Invited, None, None, None)];
      return None;
    }

    method Accept(grantee: nat, id: Id) returns (error: Option<Error>)
      modifies this
      ensures error == AcceptError(users, old(grants), grantee, id)
      ensures error.None? ==> grants == old(grants)[id := old(grants)[id].(grantee := Some(grantee), status := Accepted)]
      ensures error.Some? ==> grants == old(grants)
    {
      if id !in grants {
        return Some(NotFound);
      }
      var g := grants[id];
      if g.status != Invited {
        return Some(InvalidInput);
      }
      if grantee !in users {
        return Some(UserMissing);
      }
      if !SameEmail(users[grantee].email, g.email) {
        return Some(Forbidden);
      }
      grants := grants[id := g.(grantee := Some(grantee), status := Accepted)];
      return None;
    }

    method Confirm(grantor: nat, id: Id, key: string) returns (error: Option<Error>)
      modifies this
      ensures error == ConfirmError(old(grants), grantor, id, key)
      ensures error.None? ==> grants == old(grants)[id := old(grants)[id].(key := Some(key), status := Confirmed)]
      ensures error.Some? ==> grants == old(grants)
    {
      if TrimSpace(key) == "" {
        return Some(InvalidInput);
      }
      error := Expect(grantor, id, Accepted);
      if error.None? {
        grants := grants[id := grants[id].(key := Some(key), status := Confirmed)];
      }
    }

    method Expect(grantor: nat, id: Id, expected: Status) returns (error: Option<Error>)
      ensures error == GrantorError(grants, grantor, id, expected)
    {
      if id !in grants {
        return Some(NotFound);
      }
      if grants[id].grantor != grantor {
        return Some(Forbidden);
      }
      if grants[id].status != expected {
        return Some(InvalidInput);
      }
      return None;
    }

    method RequestRecovery(grantee: nat, id: Id, now: int) returns (error: Option<Error>)
      modifies this
      ensures error == RequestError(old(grants), grantee, id)
      ensures error.None? ==>
                grants == old(grants)[id := old(grants)[id].(status := RecoveryRequested, requestedAt := Some(now))]
      ensures error.Some? ==> grants == old(grants)
    {
      if id !in grants {
        return Some(NotFound);
      }
      var g := grants[id];
      if g.grantee.None? || g.grantee.value != grantee {
        return Some(Forbidden);
      }
      if g.status != Confirmed {
        return Some(InvalidInput);
      }
      grants := grants[id := g.(status := RecoveryRequested, requestedAt := Some(now))];
      return None;
    }

    method ApproveRecovery(grantor: nat, id: Id, now: int) returns (error: Option<Error>)
      modifies this
      ensures error == GrantorError(old(grants), grantor, id, RecoveryRequested)
      ensures error.None? ==>
                grants == old(grants)[id := old(grants)[id].(status := RecoveryApproved, approvedAt := Some(now))]
      ensures error.Some? ==> grants == old(grants)
    {
      error := Expect(grantor, id, RecoveryRequested);
      if error.None? {
        grants := grants[id := grants[id].(status := RecoveryApproved, approvedAt := Some(now))];
      }
    }

    method RejectRecovery(grantor: nat, id: Id) returns (error: Option<Error>)
      modifies this
      ensures error == GrantorError(old(grants), grantor, id, RecoveryRequested)
      ensures error.None? ==> grants == old(grants)[id := old(grants)[id].(status := RecoveryRejected)]
      ensures error.Some? ==> grants == old(grants)
    {
      error := Expect(grantor, id, RecoveryRequested);
      if error.None? {
        grants := grants[id := grants[id].(status := RecoveryRejected)];
      }
    }

    method Revoke(grantor: nat, id: Id) returns (error: Option<Error>)
      modifies this
      ensures error == RevokeError(old(grants), grantor, id)
      ensures grants == if error.None? then old(grants) - {id} else old(grants)
    {
      if id !in grants {
        return Some(NotFound);
      }
      if grants[id].grantor != grantor {
        return Some(Forbidden);
      }
      grants := grants - {id};
      return None;
    }

    method GetVaultForRecovery(grantee: nat, id: Id) returns (r: Result<Vault, Error>)
      modifies this
      ensures r.Failure? <==> ReadError(users, old(grants), grantee, id).Some?
      ensures r.Failure? ==> ReadError(users, old(grants), grantee, id) == Some(r.error) && grants == old(grants)
      ensures r.Success? ==>
                var g := old(grants)[id];
                && grants == old(grants)[id := AfterRead(g)]
                && g.key == Some(r.value.key)
                && r.value.items == FirstPage(items, users[g.grantor].personalOrganization, 10000)
    {
      if id !in grants {
        return Failure(NotFound);
      }
      var g := grants[id];
      if g.grantee.None? || g.grantee.value != grantee {
        return Failure(Forbidden);
      }
      if g.status != RecoveryApproved {
        return Failure(Forbidden);
      }
      if g.key.None? {
        return Failure(KeyMissing);
      }
      if g.grantor !in users {
        return Failure(UserMissing);
      }
      var vault := Vault(g.key.value, FirstPage(items, users[g.grantor].personalOrganization, 10000));
      grants := grants[id := g.(status := Confirmed, requestedAt := None, approvedAt := None)];
      return Success(vault);
    }

    method ReKeyForUser(grantor: nat, newKeys: map<string, string>)
      modifies this
      ensures grants == ReKey(old(grants), grantor, newKeys)
    {
      var todo := set id | id in grants && Listed(grants[id], grantor);
      while todo != {}
        invariant todo <= grants.Keys == old(grants).Keys
        invariant forall id :: id in todo ==> grants[id] == old(grants)[id] && Listed(old(grants)[id], grantor)
        invariant forall id :: id in grants && id !in todo ==> grants[id] == ReKeyGrant(old(grants)[id], grantor, newKeys)
        decreases |todo|
      {
        var id :| id in todo;
        todo := todo - {id};
        var g := grants[id];
        if g.key.Some? && g.key.value in newKeys {
          grants := grants[id := g.(key := Some(newKeys[g.key.value]))];
        }
      }
    }
  }
}

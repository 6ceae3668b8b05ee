/** The session calls as the service runs them, updating its token table in place; each is held to the
    function of the same name in Sessions. */
module SessionService {
  import opened Wrappers
  import opened Members
  import opened Sessions

  class AuthService {
    const config: Config
    var tokens: Table

    constructor (config: Config)
      ensures this.config == config && tokens == map[]
    {
      this.config := config;
      tokens := map[];
    }

    static method HasActivePaidOrganizationAccess(a: Account) returns (paid: bool)
      ensures paid <==> HasPaidAccess(a)
    {
      for i := 0 to |a.memberships|
        invariant forall j :: 0 <= j < i ==> !PaysThrough(a.memberships[j], a.subscriptions)
      {
        var m := a.memberships[i];
        if m.status != Accepted && m.status != Confirmed {
          continue;
        }
        if m.org !in a.subscriptions || a.subscriptions[m.org].priceCents == None {
          continue;
        }
        var sub := a.subscriptions[m.org];
        if sub.IsActive() && !sub.IsFree() {
          return true;
        }
      }
      return false;
    }

    method EnforceDeviceLimit(user: nat, a: Account, now: int) returns (within: bool)
      ensures !within <==> Restricted(a) && |ActiveSessions(tokens, user, now, config.counted)| >= 1
    {
      if a.personal.None? || !a.personal.value.IsFree() {
        return true;
      }
      var paid := HasActivePaidOrganizationAccess(a);
      return paid || |ActiveSessions(tokens, user, now, config.counted)| < 1;
    }

    method StorePair(user: nat, session: Id, device: Id, app: string, ids: Ids, now: int) returns (pair: Tokens)
      modifies this
      ensures pair == Issue(config, user, session, ids, now)
      ensures tokens == Store(config, old(tokens), pair, device, app, now)
    {
      var accessExpiry := now + config.accessSeconds * 1_000_000_000;
      var refreshExpiry := now + config.refreshSeconds * 1_000_000_000;
      pair := Tokens(session, Claims(user, ids.access, Some(session), accessExpiry / SECOND),
                     Claims(user, ids.refresh, Some(session), refreshExpiry / SECOND));
      tokens := tokens[ids.access := Row(user, session, device, app, Access, pair.access, accessExpiry)];
      tokens := tokens[ids.refresh := Row(user, session, device, app, Refresh, pair.refresh, refreshExpiry)];
    }

    method SignIn(user: nat, a: Account, right: bool, device: Id, app: string, logoutOthers: bool, ids: Ids, now: int)
      returns (r: Result<Tokens, Error>)
      modifies this
      ensures (tokens, r) ==
              Sessions.SignIn(config, old(tokens), user, a, right, device, app, logoutOthers, ids, now)
    {
      if !right {
        return Failure(Unauthorized);
      }
      if !a.verified {
        return Failure(NotVerified);
      }
      var session := ids.session;
      if device != 0 {
        session := device;
      }
      if a.twoFactor {
        return Failure(TwoFactorRequired);
      }
      if device != 0 {
        tokens := DeleteBySession(tokens, session);
      }
      var within := EnforceDeviceLimit(user, a, now);
      if !within {
        if logoutOthers {
          tokens := DeleteByUser(tokens, user);
        } else {
          return Failure(DeviceLimit);
        }
      }
      var pair := StorePair(user, session, device, app, ids, now);
      return Success(pair);
    }

    method IssueTokenForUser(user: nat, a: Account, device: Id, app: string, ids: Ids, now: int)
      returns (r: Result<Tokens, Error>)
      modifies this
      ensures (tokens, r) == Sessions.IssueTokenForUser(config, old(tokens), user, a, device, app, ids, now)
    {
      if !a.verified {
        return Failure(NotVerified);
      }
      var session := ids.session;
      if device != 0 {
        session := device;
        tokens := DeleteBySession(tokens, session);
      }
      var within := EnforceDeviceLimit(user, a, now);
      if !within {
        return Failure(DeviceLimit);
      }
      var pair := StorePair(user, session, device, app, ids, now);
      return Success(pair);
    }

    method RefreshToken(presented: Option<Claims>, known: bool, ids: Ids, now: int) returns (r: Result<Tokens, Error>)
      modifies this
      ensures (tokens, r) == Sessions.RefreshToken(config, old(tokens), presented, known, ids, now)
    {
      if presented.None? || !SignatureLive(presented.value, now) {
        return Failure(ExpiredToken);
      }
      var c := presented.value;
      if c.id == 0 {
        return Failure(Unauthorized);
      }
      if c.id !in tokens {
        return Failure(ExpiredToken);
      }
      var row := tokens[c.id];
      if Expired(row, now) {
        tokens := tokens - {c.id};
        return Failure(ExpiredToken);
      }
      if row.token != c {
        tokens := tokens - {c.id};
        return Failure(ExpiredToken);
      }
      if !known {
        return Failure(UserNotFound);
      }
      var session := ids.session;
      if c.sid.Some? {
        tokens := DeleteBySession(tokens, c.sid.value);
        if c.sid.value != 0 {
          session := c.sid.value;
        }
      } else {
        tokens := tokens - {c.id};
      }
      var pair := StorePair(c.user, session, row.device, row.app, ids, now);
      return Success(pair);
    }

    method ValidateToken(presented: Option<Claims>, known: bool, now: int) returns (r: Result<nat, Error>)
      modifies this
      ensures (tokens, r) == Sessions.ValidateToken(old(tokens), presented, known, now)
    {
      if presented.None? || !SignatureLive(presented.value, now) {
        return Failure(ExpiredToken);
      }
      var c := presented.value;
      if c.id !in tokens {
        return Failure(ExpiredToken);
      }
      var row := tokens[c.id];
      if Expired(row, now) || row.token != c {
        tokens := tokens - {c.id};
        return Failure(ExpiredToken);
      }
      if !known {
        return Failure(UserNotFound);
      }
      return Success(c.user);
    }

    method SignOut(id: Id)
      modifies this
      ensures tokens == Sessions.SignOut(old(tokens), id)
    {
      if id !in tokens {
        return;
      }
      if tokens[id].session != 0 {
        tokens := DeleteBySession(tokens, tokens[id].session);
      } else {
        tokens := tokens - {id};
      }
    }

    /** The password and key updates live on the user row; what matters here is the token wipe. */
    method ChangeMasterPassword(user: nat, accepted: bool) returns (ok: bool)
      modifies this
      ensures ok == accepted && tokens == if accepted then DeleteByUser(old(tokens), user) else old(tokens)
    {
      if !accepted {
        return false;
      }
      tokens := DeleteByUser(tokens, user);
      return true;
    }
  }
}

/** The token table behind sign-in: creation, rotation, validation and revocation of sessions.
    Times are nanoseconds; zero is the nil UUID. */
module Sessions {
  import opened Wrappers
  import opened Members

  const SECOND: int := 1_000_000_000

  type Id = nat

  datatype Kind = Access | Refresh

  /** The claims of a signed token; stored hashes are injective, so a row keeps the claims themselves.
      An absent "uuid" claim reads as the nil id, an absent "sid" claim as None. */
  datatype Claims = Claims(user: nat, id: Id, sid: Option<Id>, exp: int)

  datatype Row = Row(user: nat, session: Id, device: Id, app: string, kind: Kind, token: Claims, expiry: int)

  type Table = map<Id, Row>

  /** The two token lifetimes, and the kinds of row that the session count looks at. */
  datatype Config = Config(accessSeconds: int, refreshSeconds: int, counted: set<Kind>)

  /** The repository counts rows of kind access only. */
  const SHIPPED_COUNT: set<Kind> := {Access}

  /** What uuid.New() yields during one call. */
  datatype Ids = Ids(session: Id, access: Id, refresh: Id)

  datatype Tokens = Tokens(session: Id, access: Claims, refresh: Claims)

  datatype Error = Unauthorized | NotVerified | TwoFactorRequired | DeviceLimit | ExpiredToken | UserNotFound

  // ---- token repository ----

  function DeleteBySession(t: Table, session: Id): Table {
    map id | id in t && t[id].session != session :: t[id]
  }

  function DeleteByUser(t: Table, user: nat): Table {
    map id | id in t && t[id].user != user :: t[id]
  }

  function DeleteExpired(t: Table, now: int): Table {
    map id | id in t && t[id].expiry >= now :: t[id]
  }

  /** The sessions CountActiveSessionsByUserID counts. */
  function ActiveSessions(t: Table, user: nat, now: int, counted: set<Kind>): set<Id> {
    set id | id in t && t[id].user == user && t[id].expiry > now && t[id].kind in counted :: t[id].session
  }

  predicate Expired(r: Row, now: int) {
    now > r.expiry
  }

  /** The JWT library compares whole seconds. */
  predicate SignatureLive(c: Claims, now: int) {
    now / SECOND < c.exp
  }

  // ---- plans ----

  datatype SubState = Draft | Trialing | Active | PastDue | Canceled | Ended

  /** A subscription; the plan's price may not be loaded. */
  datatype Subscription = Subscription(state: SubState, priceCents: Option<nat>) {
    predicate IsActive() { state == Active || state == Trialing || state == PastDue }
    predicate IsFree() { priceCents == Some(0) }
    predicate IsPaid() { priceCents.Some? && priceCents.value != 0 }
  }

  /** What sign-in reads about the user besides the token table. */
  datatype Account = Account(verified: bool, twoFactor: bool, personal: Option<Subscription>,
                             memberships: seq<Membership>, subscriptions: map<nat, Subscription>)

  predicate PaysThrough(m: Membership, subs: map<nat, Subscription>) {
    IsActive(m.status) && m.org in subs && subs[m.org].IsActive() && subs[m.org].IsPaid()
  }

  predicate HasPaidAccess(a: Account) {
    exists i :: 0 <= i < |a.memberships| && PaysThrough(a.memberships[i], a.subscriptions)
  }

  /** The accounts the device cap is meant for. */
  predicate Restricted(a: Account) {
    a.personal.Some? && a.personal.value.IsFree() && !HasPaidAccess(a)
  }

  // ---- the calls ----

  function Issue(cfg: Config, user: nat, session: Id, ids: Ids, now: int): Tokens {
    Tokens(session,
           Claims(user, ids.access, Some(session), (now + cfg.accessSeconds * 1_000_000_000) / SECOND),
           Claims(user, ids.refresh, Some(session), (now + cfg.refreshSeconds * 1_000_000_000) / SECOND))
  }

  function Store(cfg: Config, t: Table, tokens: Tokens, device: Id, app: string, now: int): Table {
    t[tokens.access.id := Row(tokens.access.user, tokens.session, device, app, Access, tokens.access,
                              now + cfg.accessSeconds * 1_000_000_000)]
     [tokens.refresh.id := Row(tokens.refresh.user, tokens.session, device, app, Refresh, tokens.refresh,
                               now + cfg.refreshSeconds * 1_000_000_000)]
  }

  /** The shared tail of SignIn and IssueTokenForUser: replace the device's session, enforce the cap,
      create the pair. A refused call has already dropped the device's old session. */
  function Establish(cfg: Config, t: Table, user: nat, a: Account, device: Id, app: string,
                     logoutOthers: bool, ids: Ids, now: int): (Table, Result<Tokens, Error>) {
    var session := if device != 0 then device else ids.session;
    var t1 := if device != 0 then DeleteBySession(t, session) else t;
    var full := Restricted(a) && |ActiveSessions(t1, user, now, cfg.counted)| >= 1;
    if full && !logoutOthers then (t1, Failure(DeviceLimit))
    else
      var t2 := if full then DeleteByUser(t1, user) else t1;
      var tokens := Issue(cfg, user, session, ids, now);
      (Store(cfg, t2, tokens, device, app, now), Success(tokens))
  }

  function SignIn(cfg: Config, t: Table, user: nat, a: Account, right: bool, device: Id, app: string,
                  logoutOthers: bool, ids: Ids, now: int): (Table, Result<Tokens, Error>) {
    if !right then (t, Failure(Unauthorized))
    else if !a.verified then (t, Failure(NotVerified))
    else if a.twoFactor then (t, Failure(TwoFactorRequired))
    else Establish(cfg, t, user, a, device, app, logoutOthers, ids, now)
  }

  function IssueTokenForUser(cfg: Config, t: Table, user: nat, a: Account, device: Id, app: string,
                             ids: Ids, now: int): (Table, Result<Tokens, Error>) {
    if !a.verified then (t, Failure(NotVerified))
    else Establish(cfg, t, user, a, device, app, false, ids, now)
  }

  /** The checks RefreshToken and ValidateToken share, and the row they delete when one fails.
      Neither looks at the kind of the row. */
  function Check(t: Table, presented: Option<Claims>, now: int): (Table, Result<Row, Error>) {
    if presented.None? || !SignatureLive(presented.value, now) then (t, Failure(ExpiredToken))
    else
      var c := presented.value;
      if c.id !in t then (t, Failure(ExpiredToken))
      else if Expired(t[c.id], now) || t[c.id].token != c then (t - {c.id}, Failure(ExpiredToken))
      else (t, Success(t[c.id]))
  }

  function RefreshToken(cfg: Config, t: Table, presented: Option<Claims>, known: bool, ids: Ids, now: int)
    : (Table, Result<Tokens, Error>)
  {
    if presented.Some? && SignatureLive(presented.value, now) && presented.value.id == 0 then
      (t, Failure(Unauthorized))
    else
      var (t1, row) := Check(t, presented, now);
      if row.Failure? then (t1, Failure(row.error))
      else if !known then (t1, Failure(UserNotFound))
      else
        var c := presented.value;
        var t2 := if c.sid.Some? then DeleteBySession(t1, c.sid.value) else t1 - {c.id};
        var session := if c.sid.Some? && c.sid.value != 0 then c.sid.value else ids.session;
        var tokens := Issue(cfg, c.user, session, ids, now);
        (Store(cfg, t2, tokens, row.value.device, row.value.app, now), Success(tokens))
  }

  function ValidateToken(t: Table, presented: Option<Claims>, known: bool, now: int): (Table, Result<nat, Error>) {
    var (t1, row) := Check(t, presented, now);
    if row.Failure? then (t1, Failure(row.error))
    else if !known then (t1, Failure(UserNotFound))
    else (t1, Success(presented.value.user))
  }

  function SignOut(t: Table, id: Id): Table {
    if id !in t then t
    else if t[id].session != 0 then DeleteBySession(t, t[id].session)
    else t - {id}
  }
}

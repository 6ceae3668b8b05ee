/** What the session calls answer, and the rows they leave: by the account, the rows there are and the
    token presented. */
module SessionAnswers {
  import opened Wrappers
  import opened Members
  import opened Sessions
  import opened SessionRuns

  // ---- who is past the cap ----

  predicate Costs(s: Subscription) {
    s.state in {Trialing, SubState.Active, PastDue} && s.priceCents.Some? && s.priceCents.value > 0
  }

  /** Some active membership is in an organization with a running subscription that costs something. */
  predicate Pays(a: Account) {
    exists i :: 0 <= i < |a.memberships| && a.memberships[i].status in {Accepted, Confirmed}
                && a.memberships[i].org in a.subscriptions && Costs(a.subscriptions[a.memberships[i].org])
  }

  predicate Capped(a: Account) {
    a.personal.Some? && a.personal.value.priceCents == Some(0) && !Pays(a)
  }

  /** The user holds an unexpired token of a counted kind outside the session of the device. */
  predicate LoggedInElsewhere(cfg: Config, t: Table, user: nat, device: Id, now: int) {
    exists id :: id in t && t[id].user == user && t[id].kind in cfg.counted && now < t[id].expiry
                 && !(device != 0 && t[id].session == device)
  }

  lemma RestrictedIffCapped(a: Account)
    ensures Restricted(a) <==> Capped(a)
  {
    if HasPaidAccess(a) {
      var i :| 0 <= i < |a.memberships| && PaysThrough(a.memberships[i], a.subscriptions);
      assert Costs(a.subscriptions[a.memberships[i].org]);
    }
    if Pays(a) {
      var i :| 0 <= i < |a.memberships| && a.memberships[i].status in {Accepted, Confirmed}
               && a.memberships[i].org in a.subscriptions && Costs(a.subscriptions[a.memberships[i].org]);
      assert PaysThrough(a.memberships[i], a.subscriptions);
    }
  }

  lemma CountedIffElsewhere(cfg: Config, t: Table, user: nat, device: Id, now: int)
    ensures var t1 := if device != 0 then DeleteBySession(t, device) else t;
            |ActiveSessions(t1, user, now, cfg.counted)| >= 1 <==> LoggedInElsewhere(cfg, t, user, device, now)
  {
    var t1 := if device != 0 then DeleteBySession(t, device) else t;
    var active := ActiveSessions(t1, user, now, cfg.counted);
    if LoggedInElsewhere(cfg, t, user, device, now) {
      var id :| id in t && t[id].user == user && t[id].kind in cfg.counted && now < t[id].expiry
                && !(device != 0 && t[id].session == device);
      assert t1[id].session in active;
    }
    if |active| >= 1 {
      var session :| session in active;
      var id :| id in t1 && t1[id].user == user && t1[id].expiry > now && t1[id].kind in cfg.counted && t1[id].session == session;
      assert id in t;
    }
  }

  // ---- signing in ----

  predicate PastCap(cfg: Config, t: Table, user: nat, a: Account, device: Id, now: int) {
    Capped(a) && LoggedInElsewhere(cfg, t, user, device, now)
  }

  lemma EstablishAnswer(cfg: Config, t: Table, user: nat, a: Account, device: Id, app: string, others: bool, ids: Ids, now: int)
    ensures var (t', r) := Establish(cfg, t, user, a, device, app, others, ids, now);
            && (r.Success? <==> others || !PastCap(cfg, t, user, a, device, now))
            && (r.Failure? ==> r.error == DeviceLimit && t' == if device != 0 then DeleteBySession(t, device) else t)
  {
    RestrictedIffCapped(a);
    CountedIffElsewhere(cfg, t, user, device, now);
  }

  /** A sign-in is accepted exactly with the right password, for a verified account without a second
      factor, unless the user is past the cap and keeps the other sessions; each refusal names its reason. */
  lemma SignInAnswer(cfg: Config, t: Table, user: nat, a: Account, right: bool, device: Id, app: string,
                     others: bool, ids: Ids, now: int)
    ensures var r := SignIn(cfg, t, user, a, right, device, app, others, ids, now).1;
            var past := PastCap(cfg, t, user, a, device, now);
            && (r.Success? <==> right && a.verified && !a.twoFactor && (others || !past))
            && (r == Failure(Unauthorized) <==> !right)
            && (r == Failure(NotVerified) <==> right && !a.verified)
            && (r == Failure(TwoFactorRequired) <==> right && a.verified && a.twoFactor)
            && (r == Failure(DeviceLimit) <==> right && a.verified && !a.twoFactor && !others && past)
  {
    EstablishAnswer(cfg, t, user, a, device, app, others, ids, now);
  }

  /** A refusal changes nothing, except that the cap costs the device its own session. */
  lemma RefusedSignInRows(cfg: Config, t: Table, user: nat, a: Account, right: bool, device: Id, app: string,
                          others: bool, ids: Ids, now: int)
    requires SignIn(cfg, t, user, a, right, device, app, others, ids, now).1.Failure?
    ensures var (t', r) := SignIn(cfg, t, user, a, right, device, app, others, ids, now);
            if r.error == DeviceLimit then OnlySessionLeft(t, t', device) else t' == t
  {
    EstablishAnswer(cfg, t, user, a, device, app, others, ids, now);
  }

  /** The rows of one session are gone (none, for the nil id), and all others are as they were. */
  ghost predicate OnlySessionLeft(t: Table, t': Table, session: Id) {
    && (forall id :: id in t' <==> id in t && (session == 0 || t[id].session != session))
    && (forall id :: id in t' ==> t'[id] == t[id])
  }

  /** The same for issuing tokens after single sign-on, which asks for no password and no second factor
      and never logs others out. */
  lemma IssueAnswer(cfg: Config, t: Table, user: nat, a: Account, device: Id, app: string, ids: Ids, now: int)
    ensures var (t', r) := IssueTokenForUser(cfg, t, user, a, device, app, ids, now);
            var past := PastCap(cfg, t, user, a, device, now);
            && (r.Success? <==> a.verified && !past)
            && (r == Failure(NotVerified) <==> !a.verified)
            && (r == Failure(DeviceLimit) <==> a.verified && past)
            && (r == Failure(NotVerified) ==> t' == t)
            && (r == Failure(DeviceLimit) ==> OnlySessionLeft(t, t', device))
  {
    EstablishAnswer(cfg, t, user, a, device, app, false, ids, now);
  }

  // ---- the rows of an accepted call ----

  /** A row as it is created, with a token that says the same. */
  function NewRow(user: nat, session: Id, device: Id, app: string, kind: Kind, id: Id, now: int, seconds: int): Row {
    Row(user, session, device, app, kind, Claims(user, id, Some(session), now / 1_000_000_000 + seconds),
        now + seconds * 1_000_000_000)
  }

  /** The rows are the old ones that stay, unchanged, and one new row of each kind for the tokens returned. */
  predicate HoldsPair(cfg: Config, t: Table, t': Table, gone: set<Id>, r: Tokens, user: nat, session: Id, device: Id,
                      app: string, ids: Ids, now: int) {
    var access := NewRow(user, session, device, app, Access, ids.access, now, cfg.accessSeconds);
    var refresh := NewRow(user, session, device, app, Refresh, ids.refresh, now, cfg.refreshSeconds);
    && t' == (t - gone)[ids.access := access][ids.refresh := refresh]
    && r == Tokens(session, access.token, refresh.token)
  }

  lemma StoredIsPair(cfg: Config, t: Table, t1: Table, gone: set<Id>, user: nat, session: Id, device: Id, app: string, ids: Ids, now: int)
    requires t1 == t - gone
    ensures var pair := Issue(cfg, user, session, ids, now);
            HoldsPair(cfg, t, Store(cfg, t1, pair, device, app, now), gone, pair, user, session, device, app, ids, now)
  {
    assert (now + cfg.accessSeconds * 1_000_000_000) / 1_000_000_000 == now / 1_000_000_000 + cfg.accessSeconds;
    assert (now + cfg.refreshSeconds * 1_000_000_000) / 1_000_000_000 == now / 1_000_000_000 + cfg.refreshSeconds;
  }

  /** What makes way for a new session: the device's old one, and past the cap all of the user's. */
  function MakingWay(cfg: Config, t: Table, user: nat, a: Account, device: Id, now: int): set<Id> {
    set id | id in t && ((device != 0 && t[id].session == device) || (PastCap(cfg, t, user, a, device, now) && t[id].user == user))
  }

  lemma EstablishedRows(cfg: Config, t: Table, user: nat, a: Account, device: Id, app: string, others: bool, ids: Ids, now: int)
    requires Establish(cfg, t, user, a, device, app, others, ids, now).1.Success?
    ensures var (t', r) := Establish(cfg, t, user, a, device, app, others, ids, now);
            HoldsPair(cfg, t, t', MakingWay(cfg, t, user, a, device, now), r.value, user,
                      if device != 0 then device else ids.session, device, app, ids, now)
  {
    RestrictedIffCapped(a);
    CountedIffElsewhere(cfg, t, user, device, now);
    var session := if device != 0 then device else ids.session;
    var t1 := if device != 0 then DeleteBySession(t, session) else t;
    var t2 := if PastCap(cfg, t, user, a, device, now) then DeleteByUser(t1, user) else t1;
    assert t2 == t - MakingWay(cfg, t, user, a, device, now);
    StoredIsPair(cfg, t, t2, MakingWay(cfg, t, user, a, device, now), user, session, device, app, ids, now);
  }

  lemma SignInRows(cfg: Config, t: Table, user: nat, a: Account, right: bool, device: Id, app: string,
                   others: bool, ids: Ids, now: int)
    requires SignIn(cfg, t, user, a, right, device, app, others, ids, now).1.Success?
    ensures var (t', r) := SignIn(cfg, t, user, a, right, device, app, others, ids, now);
            HoldsPair(cfg, t, t', MakingWay(cfg, t, user, a, device, now), r.value, user,
                      if device != 0 then device else ids.session, device, app, ids, now)
  {
    EstablishedRows(cfg, t, user, a, device, app, others, ids, now);
  }

  lemma IssueRows(cfg: Config, t: Table, user: nat, a: Account, device: Id, app: string, ids: Ids, now: int)
    requires IssueTokenForUser(cfg, t, user, a, device, app, ids, now).1.Success?
    ensures var (t', r) := IssueTokenForUser(cfg, t, user, a, device, app, ids, now);
            HoldsPair(cfg, t, t', MakingWay(cfg, t, user, a, device, now), r.value, user,
                      if device != 0 then device else ids.session, device, app, ids, now)
  {
    EstablishedRows(cfg, t, user, a, device, app, false, ids, now);
  }

  // ---- presenting a token ----

  predicate Live(presented: Option<Claims>, now: int) {
    presented.Some? && now / 1_000_000_000 < presented.value.exp
  }

  /** The token is live and is the one its row stores. */
  predicate Good(t: Table, presented: Option<Claims>, now: int) {
    Live(presented, now) && presented.value.id in t && t[presented.value.id].token == presented.value
  }

  /** A live token that its row does not store loses that row its place. */
  function AfterRefusal(t: Table, presented: Option<Claims>, now: int): Table {
    if Live(presented, now) && !Good(t, presented, now) then t - {presented.value.id} else t
  }

  lemma GoodIsAccepted(s: State, presented: Option<Claims>, now: int)
    requires Shape(s)
    ensures var (t', row) := Check(s.rows, presented, now);
            && (row.Success? <==> Good(s.rows, presented, now))
            && (row.Success? ==> row.value == s.rows[presented.value.id] && t' == s.rows)
            && (row.Failure? ==> row.error == ExpiredToken && t' == AfterRefusal(s.rows, presented, now))
  {
    if presented.Some? && presented.value.id in s.rows {
      assert RowOk(s, presented.value.id);
    } else if presented.Some? {
      assert s.rows - {presented.value.id} == s.rows;
    }
  }

  /** Validation accepts exactly good tokens of known users, and yields the user the row was issued for. */
  lemma ValidateAnswer(s: State, presented: Option<Claims>, known: bool, now: int)
    requires Shape(s)
    ensures var (t', r) := ValidateToken(s.rows, presented, known, now);
            && (r.Success? <==> Good(s.rows, presented, now) && known)
            && (r.Success? ==> r.value == s.rows[presented.value.id].user)
            && (r == Failure(UserNotFound) <==> Good(s.rows, presented, now) && !known)
            && (r == Failure(ExpiredToken) <==> !Good(s.rows, presented, now))
            && t' == AfterRefusal(s.rows, presented, now)
  {
    GoodIsAccepted(s, presented, now);
    if Good(s.rows, presented, now) {
      assert RowOk(s, presented.value.id);
    }
  }

  /** So does rotation, of either kind of token; only a live token without an identifier is told apart. */
  lemma RefreshAnswer(cfg: Config, s: State, presented: Option<Claims>, known: bool, ids: Ids, now: int)
    requires Shape(s)
    ensures var (t', r) := RefreshToken(cfg, s.rows, presented, known, ids, now);
            && (r.Success? <==> Good(s.rows, presented, now) && known)
            && (r == Failure(UserNotFound) <==> Good(s.rows, presented, now) && !known)
            && (r == Failure(Unauthorized) <==> Live(presented, now) && presented.value.id == 0)
            && (r.Failure? ==> r.error in {UserNotFound, Unauthorized, ExpiredToken})
            && (r.Failure? ==> t' == AfterRefusal(s.rows, presented, now))
  {
    GoodIsAccepted(s, presented, now);
    if presented.Some? && presented.value.id == 0 {
      assert 0 in s.rows ==> RowOk(s, 0);
      assert s.rows - {0} == s.rows;
    }
  }

  function RowsOf(t: Table, session: Id): set<Id> {
    set id | id in t && t[id].session == session
  }

  /** An accepted rotation replaces all rows of the token's session by the new pair. */
  lemma RefreshRows(cfg: Config, s: State, presented: Option<Claims>, known: bool, ids: Ids, now: int)
    requires Shape(s) && RefreshToken(cfg, s.rows, presented, known, ids, now).1.Success?
    ensures presented.Some? && presented.value.id in s.rows
    ensures var (t', r) := RefreshToken(cfg, s.rows, presented, known, ids, now);
            var was := s.rows[presented.value.id];
            HoldsPair(cfg, s.rows, t', RowsOf(s.rows, was.session), r.value,
                      was.user, was.session, was.device, was.app, ids, now)
  {
    GoodIsAccepted(s, presented, now);
    assert RowOk(s, presented.value.id);
    var was := s.rows[presented.value.id];
    var gone := RowsOf(s.rows, was.session);
    assert DeleteBySession(s.rows, was.session) == s.rows - gone;
    StoredIsPair(cfg, s.rows, DeleteBySession(s.rows, was.session), gone, was.user, was.session, was.device, was.app, ids, now);
  }

  // ---- the cleanup ----

  /** Deleting expired rows deletes no others, and no later call answers differently for it. */
  lemma CleanupIsUnnoticed(cfg: Config, t: Table, at: int, now: int, presented: Option<Claims>, known: bool, ids: Ids,
                           user: nat, a: Account, right: bool, device: Id, app: string, others: bool)
    requires at <= now
    ensures var c := DeleteExpired(t, at);
            && (forall id :: id in c <==> id in t && at <= t[id].expiry)
            && ValidateToken(c, presented, known, now).1 == ValidateToken(t, presented, known, now).1
            && RefreshToken(cfg, c, presented, known, ids, now).1 == RefreshToken(cfg, t, presented, known, ids, now).1
            && SignIn(cfg, c, user, a, right, device, app, others, ids, now).1
            == SignIn(cfg, t, user, a, right, device, app, others, ids, now).1
  {
    var c := DeleteExpired(t, at);
    CheckAfterCleanup(t, at, now, presented);
    SignInAnswer(cfg, c, user, a, right, device, app, others, ids, now);
    SignInAnswer(cfg, t, user, a, right, device, app, others, ids, now);
    ElsewhereAfterCleanup(cfg, t, at, now, user, device);
  }

  lemma CheckAfterCleanup(t: Table, at: int, now: int, presented: Option<Claims>)
    requires at <= now
    ensures Check(DeleteExpired(t, at), presented, now).1 == Check(t, presented, now).1
  {
  }

  lemma ElsewhereAfterCleanup(cfg: Config, t: Table, at: int, now: int, user: nat, device: Id)
    requires at <= now
    ensures LoggedInElsewhere(cfg, DeleteExpired(t, at), user, device, now) <==> LoggedInElsewhere(cfg, t, user, device, now)
  {
    var c := DeleteExpired(t, at);
    if LoggedInElsewhere(cfg, t, user, device, now) {
      var id :| id in t && t[id].user == user && t[id].kind in cfg.counted && now < t[id].expiry
                && !(device != 0 && t[id].session == device);
      assert id in c && c[id] == t[id];
    }
  }
}

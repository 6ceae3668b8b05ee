/** Whole runs of the session calls: the shape every reachable table keeps, and revocation that no
    later call can undo. */
module SessionRuns {
  import opened Wrappers
  import opened Members
  import opened Sessions

  datatype Op =
    | OpSignIn(user: nat, account: Account, right: bool, device: Id, app: string, logoutOthers: bool, ids: Ids, at: int)
    | OpIssue(user: nat, account: Account, device: Id, app: string, ids: Ids, at: int)
    | OpRefresh(presented: Option<Claims>, known: bool, ids: Ids, at: int)
    | OpValidate(presented: Option<Claims>, known: bool, at: int)
    | OpSignOut(id: Id, at: int)
    | OpChangePassword(user: nat, accepted: bool, at: int)
    | OpCleanup(at: int)

  function Apply(cfg: Config, t: Table, op: Op): Table {
    match op
    case OpSignIn(user, a, right, device, app, others, ids, at) =>
      SignIn(cfg, t, user, a, right, device, app, others, ids, at).0
    case OpIssue(user, a, device, app, ids, at) => IssueTokenForUser(cfg, t, user, a, device, app, ids, at).0
    case OpRefresh(presented, known, ids, at) => RefreshToken(cfg, t, presented, known, ids, at).0
    case OpValidate(presented, known, at) => ValidateToken(t, presented, known, at).0
    case OpSignOut(id, _) => SignOut(t, id)
    case OpChangePassword(user, accepted, _) => if accepted then DeleteByUser(t, user) else t
    case OpCleanup(at) => DeleteExpired(t, at)
  }

  /** A table together with every token the service has ever issued. */
  datatype State = State(rows: Table, issued: set<Claims>)

  const EMPTY := State(map[], {})

  /** The state with this table, in which the tokens of its rows have been issued, too. */
  function Grown(s: State, t: Table): State {
    State(t, s.issued + set id | id in t :: t[id].token)
  }

  function Step(cfg: Config, s: State, op: Op): State {
    Grown(s, Apply(cfg, s.rows, op))
  }

  function Run(cfg: Config, s: State, ops: seq<Op>): State {
    if ops == [] then s else Step(cfg, Run(cfg, s, ops[..|ops| - 1]), ops[|ops| - 1])
  }

  predicate NeverIssued(s: State, id: Id) {
    forall c :: c in s.issued ==> c.id != id
  }

  predicate FreshIds(s: State, ids: Ids) {
    && ids.session != 0 && ids.access != 0 && ids.refresh != 0 && ids.access != ids.refresh
    && NeverIssued(s, ids.access) && NeverIssued(s, ids.refresh)
    && (forall id :: id in s.rows ==> s.rows[id].session != ids.session)
  }

  /** uuid.New() yields identifiers not seen before. */
  predicate FreshFor(s: State, op: Op) {
    (op.OpSignIn? || op.OpIssue? || op.OpRefresh?) ==> FreshIds(s, op.ids)
  }

  predicate ValidRun(cfg: Config, s: State, ops: seq<Op>) {
    ops != [] ==>
      && ValidRun(cfg, s, ops[..|ops| - 1])
      && FreshFor(Run(cfg, s, ops[..|ops| - 1]), ops[|ops| - 1])
  }

  // ---- the shape of a session ----

  predicate RowOk(s: State, id: Id)
    requires id in s.rows
  {
    var r := s.rows[id];
    && id != 0 && r.session != 0
    && r.token.id == id && r.token.user == r.user && r.token.sid == Some(r.session)
    && r.token.exp == r.expiry / SECOND
    && r.token in s.issued
  }

  predicate OneOwner(t: Table) {
    forall i, j :: i in t && j in t && t[i].session == t[j].session ==> t[i].user == t[j].user
  }

  predicate OnePerKind(t: Table) {
    forall i, j :: i in t && j in t && t[i].session == t[j].session && t[i].kind == t[j].kind ==> i == j
  }

  predicate IdsUnique(issued: set<Claims>) {
    forall c, d :: c in issued && d in issued && c.id == d.id ==> c == d
  }

  /** Every session has at most one access and one refresh row, all of one user, and each row's token
      carries that row's own identifier, user, session and expiry. */
  predicate Shape(s: State) {
    && (forall id :: id in s.rows ==> RowOk(s, id))
    && OneOwner(s.rows) && OnePerKind(s.rows) && IdsUnique(s.issued)
  }

  predicate SubTable(t: Table, of: Table) {
    forall id :: id in t ==> id in of && t[id] == of[id]
  }

  predicate NoSession(t: Table, session: Id) {
    forall id :: id in t ==> t[id].session != session
  }

  lemma ShrinkKeepsShape(s: State, t: Table)
    requires Shape(s) && SubTable(t, s.rows)
    ensures Shape(Grown(s, t)) && Grown(s, t).issued == s.issued
  {
    assert forall id :: id in t ==> RowOk(s, id);
  }

  lemma FreshIdsUnused(s: State, ids: Ids)
    requires Shape(s) && FreshIds(s, ids)
    ensures ids.access !in s.rows && ids.refresh !in s.rows
  {
    assert forall id :: id in s.rows ==> RowOk(s, id);
  }

  /** The two rows a stored pair adds; everything else stays. */
  lemma StoreAdds(cfg: Config, t: Table, user: nat, session: Id, device: Id, app: string, ids: Ids, now: int)
    requires ids.access != ids.refresh && ids.access !in t && ids.refresh !in t
    ensures var p := Issue(cfg, user, session, ids, now);
            var t' := Store(cfg, t, p, device, app, now);
            && t'.Keys == t.Keys + {ids.access, ids.refresh}
            && (forall id :: id in t ==> t'[id] == t[id])
            && t'[ids.access] == Row(user, session, device, app, Access, p.access, now + cfg.accessSeconds * 1_000_000_000)
            && t'[ids.refresh] == Row(user, session, device, app, Refresh, p.refresh, now + cfg.refreshSeconds * 1_000_000_000)
  {
  }

  /** A table t' that adds one row of each kind for one user to a session t does not know. */
  predicate AddsPair(t: Table, t': Table, user: nat, session: Id, access: Id, refresh: Id) {
    && NoSession(t, session) && access !in t && refresh !in t && access != refresh
    && t'.Keys == t.Keys + {access, refresh}
    && (forall id :: id in t ==> t'[id] == t[id])
    && t'[access].user == user == t'[refresh].user && t'[access].session == session == t'[refresh].session
    && t'[access].kind == Access && t'[refresh].kind == Refresh
  }

  lemma PairKeepsSessions(t: Table, t': Table, user: nat, session: Id, access: Id, refresh: Id)
    requires OneOwner(t) && OnePerKind(t) && AddsPair(t, t', user, session, access, refresh)
    ensures OneOwner(t') && OnePerKind(t')
  {
  }

  /** What the service has issued once a pair is stored. */
  lemma IssuedWithPair(cfg: Config, s: State, t: Table, user: nat, session: Id, device: Id, app: string, ids: Ids, now: int)
    requires Shape(s) && SubTable(t, s.rows) && FreshIds(s, ids)
    ensures var p := Issue(cfg, user, session, ids, now);
            && Grown(s, Store(cfg, t, p, device, app, now)).issued == s.issued + {p.access, p.refresh}
            && IdsUnique(s.issued + {p.access, p.refresh})
  {
    var p := Issue(cfg, user, session, ids, now);
    var t' := Store(cfg, t, p, device, app, now);
    FreshIdsUnused(s, ids);
    StoreAdds(cfg, t, user, session, device, app, ids, now);
    assert forall id :: id in t ==> RowOk(s, id);
    assert t'[ids.access].token == p.access && t'[ids.refresh].token == p.refresh;
  }

  lemma StoreKeepsShape(cfg: Config, s: State, t: Table, user: nat, session: Id, device: Id, app: string, ids: Ids, now: int)
    requires Shape(s) && SubTable(t, s.rows) && NoSession(t, session) && session != 0
    requires FreshIds(s, ids)
    ensures Shape(Grown(s, Store(cfg, t, Issue(cfg, user, session, ids, now), device, app, now)))
  {
    var t' := Store(cfg, t, Issue(cfg, user, session, ids, now), device, app, now);
    var g := Grown(s, t');
    FreshIdsUnused(s, ids);
    StoreAdds(cfg, t, user, session, device, app, ids, now);
    IssuedWithPair(cfg, s, t, user, session, device, app, ids, now);
    assert OneOwner(t) && OnePerKind(t);
    PairKeepsSessions(t, t', user, session, ids.access, ids.refresh);
    forall id | id in t'
      ensures RowOk(g, id)
    {
      if id in t {
        assert RowOk(s, id);
      }
    }
  }

  lemma EstablishKeepsShape(cfg: Config, s: State, user: nat, a: Account, device: Id, app: string,
                            logoutOthers: bool, ids: Ids, now: int)
    requires Shape(s) && FreshIds(s, ids)
    ensures Shape(Grown(s, Establish(cfg, s.rows, user, a, device, app, logoutOthers, ids, now).0))
  {
    var session := if device != 0 then device else ids.session;
    var t1 := if device != 0 then DeleteBySession(s.rows, session) else s.rows;
    var full := Restricted(a) && |ActiveSessions(t1, user, now, cfg.counted)| >= 1;
    if full && !logoutOthers {
      ShrinkKeepsShape(s, t1);
    } else {
      var t2 := if full then DeleteByUser(t1, user) else t1;
      StoreKeepsShape(cfg, s, t2, user, session, device, app, ids, now);
    }
  }

  /** What the row of an accepted token says about the token; in particular the branch for tokens
      without a session claim is never taken. */
  lemma AcceptedTokenMatchesItsRow(s: State, presented: Option<Claims>, now: int)
    requires Shape(s) && Check(s.rows, presented, now).1.Success?
    ensures var c, row := presented.value, Check(s.rows, presented, now).1.value;
            && c.id in s.rows && row == s.rows[c.id] && row.token == c && c in s.issued
            && c.user == row.user && c.sid == Some(row.session) && row.session != 0
    ensures Check(s.rows, presented, now).0 == s.rows
    ensures now < Check(s.rows, presented, now).1.value.expiry
  {
    assert RowOk(s, presented.value.id);
  }

  lemma RefreshKeepsShape(cfg: Config, s: State, presented: Option<Claims>, known: bool, ids: Ids, now: int)
    requires Shape(s) && FreshIds(s, ids)
    ensures Shape(Grown(s, RefreshToken(cfg, s.rows, presented, known, ids, now).0))
  {
    var (t1, row) := Check(s.rows, presented, now);
    if RefreshToken(cfg, s.rows, presented, known, ids, now).1.Success? {
      AcceptedTokenMatchesItsRow(s, presented, now);
      var c := presented.value;
      StoreKeepsShape(cfg, s, DeleteBySession(s.rows, c.sid.value), c.user, c.sid.value,
                      row.value.device, row.value.app, ids, now);
    } else {
      ShrinkKeepsShape(s, s.rows);
      ShrinkKeepsShape(s, t1);
    }
  }

  lemma SignInKeepsShape(cfg: Config, s: State, user: nat, a: Account, right: bool, device: Id, app: string,
                         logoutOthers: bool, ids: Ids, now: int)
    requires Shape(s) && FreshIds(s, ids)
    ensures Shape(Grown(s, SignIn(cfg, s.rows, user, a, right, device, app, logoutOthers, ids, now).0))
  {
    EstablishKeepsShape(cfg, s, user, a, device, app, logoutOthers, ids, now);
    ShrinkKeepsShape(s, s.rows);
  }

  lemma IssueKeepsShape(cfg: Config, s: State, user: nat, a: Account, device: Id, app: string, ids: Ids, now: int)
    requires Shape(s) && FreshIds(s, ids)
    ensures Shape(Grown(s, IssueTokenForUser(cfg, s.rows, user, a, device, app, ids, now).0))
  {
    EstablishKeepsShape(cfg, s, user, a, device, app, false, ids, now);
    ShrinkKeepsShape(s, s.rows);
  }

  lemma ValidateKeepsShape(s: State, presented: Option<Claims>, known: bool, now: int)
    requires Shape(s)
    ensures Shape(Grown(s, ValidateToken(s.rows, presented, known, now).0))
  {
    ShrinkKeepsShape(s, ValidateToken(s.rows, presented, known, now).0);
  }

  lemma SignOutKeepsShape(s: State, id: Id)
    requires Shape(s)
    ensures Shape(Grown(s, SignOut(s.rows, id)))
  {
    ShrinkKeepsShape(s, SignOut(s.rows, id));
  }

  lemma WipeKeepsShape(s: State, user: nat, accepted: bool)
    requires Shape(s)
    ensures Shape(Grown(s, if accepted then DeleteByUser(s.rows, user) else s.rows))
  {
    ShrinkKeepsShape(s, if accepted then DeleteByUser(s.rows, user) else s.rows);
  }

  lemma CleanupKeepsShape(s: State, now: int)
    requires Shape(s)
    ensures Shape(Grown(s, DeleteExpired(s.rows, now)))
  {
    ShrinkKeepsShape(s, DeleteExpired(s.rows, now));
  }

  lemma StepKeepsShape(cfg: Config, s: State, op: Op)
    requires Shape(s) && FreshFor(s, op)
    ensures Shape(Step(cfg, s, op))
  {
    match op
    case OpSignIn(user, a, right, device, app, others, ids, at) =>
      SignInKeepsShape(cfg, s, user, a, right, device, app, others, ids, at);
    case OpIssue(user, a, device, app, ids, at) => IssueKeepsShape(cfg, s, user, a, device, app, ids, at);
    case OpRefresh(presented, known, ids, at) => RefreshKeepsShape(cfg, s, presented, known, ids, at);
    case OpValidate(presented, known, at) => ValidateKeepsShape(s, presented, known, at);
    case OpSignOut(id, _) => SignOutKeepsShape(s, id);
    case OpChangePassword(user, accepted, _) => WipeKeepsShape(s, user, accepted);
    case OpCleanup(at) => CleanupKeepsShape(s, at);
  }

  /** From an empty table every reachable state has the shape. */
  lemma {:induction false} ReachableShape(cfg: Config, ops: seq<Op>)
    requires ValidRun(cfg, EMPTY, ops)
    ensures Shape(Run(cfg, EMPTY, ops))
  {
    if ops != [] {
      ReachableShape(cfg, ops[..|ops| - 1]);
      StepKeepsShape(cfg, Run(cfg, EMPTY, ops[..|ops| - 1]), ops[|ops| - 1]);
    }
  }

  // ---- what a new pair is good for ----

  /** The two tokens of a stored pair are accepted for exactly their lifetimes, in whole seconds. */
  lemma StoredPairLifetimes(cfg: Config, t: Table, user: nat, session: Id, device: Id, app: string, ids: Ids, now: int, at: int)
    requires ids.access != ids.refresh
    ensures var p := Issue(cfg, user, session, ids, now);
            var t' := Store(cfg, t, p, device, app, now);
            && (Check(t', Some(p.access), at).1.Success? <==> at / SECOND < now / SECOND + cfg.accessSeconds)
            && (Check(t', Some(p.refresh), at).1.Success? <==> at / SECOND < now / SECOND + cfg.refreshSeconds)
  {
    assert (now + cfg.accessSeconds * 1_000_000_000) / 1_000_000_000 == now / 1_000_000_000 + cfg.accessSeconds;
    assert (now + cfg.refreshSeconds * 1_000_000_000) / 1_000_000_000 == now / 1_000_000_000 + cfg.refreshSeconds;
  }

  /** A pair stored in a session without rows is all of that session, and no other row changes. */
  lemma PairIsSession(cfg: Config, t: Table, user: nat, session: Id, device: Id, app: string, ids: Ids, now: int)
    requires NoSession(t, session) && ids.access != ids.refresh && ids.access !in t && ids.refresh !in t
    ensures var t' := Store(cfg, t, Issue(cfg, user, session, ids, now), device, app, now);
            && (set id | id in t' && t'[id].session == session) == {ids.access, ids.refresh}
            && (forall id :: id in t ==> id in t' && t'[id] == t[id])
            && t'.Keys == t.Keys + {ids.access, ids.refresh}
  {
    StoreAdds(cfg, t, user, session, device, app, ids, now);
  }

  /** The table a sign-in stores its pair in: without the device's session and, past the cap, without
      the user's rows. */
  function Cleared(cfg: Config, t: Table, user: nat, a: Account, device: Id, now: int): Table {
    var t1 := if device != 0 then DeleteBySession(t, device) else t;
    if Restricted(a) && |ActiveSessions(t1, user, now, cfg.counted)| >= 1 then DeleteByUser(t1, user) else t1
  }

  lemma ClearedRows(cfg: Config, s: State, user: nat, a: Account, device: Id, ids: Ids, now: int)
    requires Shape(s) && FreshIds(s, ids)
    ensures var t := Cleared(cfg, s.rows, user, a, device, now);
            && NoSession(t, if device != 0 then device else ids.session) && SubTable(t, s.rows)
            && (forall id :: id in s.rows && id !in t ==>
                  (device != 0 && s.rows[id].session == device) || (s.rows[id].user == user && Restricted(a)))
            && (t != (if device != 0 then DeleteBySession(s.rows, device) else s.rows) ==> Restricted(a))
  {
  }

  /** A sign-in opens the device's session (a new one without a device): its only rows are the new
      pair, and what it removed were rows of that session or, past the cap, of that user. */
  lemma SignInOpensSession(cfg: Config, s: State, user: nat, a: Account, device: Id, app: string,
                           others: bool, ids: Ids, now: int)
    requires Shape(s) && FreshIds(s, ids)
    requires Establish(cfg, s.rows, user, a, device, app, others, ids, now).1.Success?
    ensures var (t, r) := Establish(cfg, s.rows, user, a, device, app, others, ids, now);
            var session := r.value.session;
            && session == (if device != 0 then device else ids.session)
            && (set id | id in t && t[id].session == session) == {r.value.access.id, r.value.refresh.id}
            && (forall id :: id in s.rows && id !in t ==>
                  s.rows[id].session == session || (s.rows[id].user == user && Restricted(a) && others))
            && (forall id :: id in s.rows && id in t ==> t[id] == s.rows[id])
  {
    var session := if device != 0 then device else ids.session;
    var base := Cleared(cfg, s.rows, user, a, device, now);
    FreshIdsUnused(s, ids);
    ClearedRows(cfg, s, user, a, device, ids, now);
    PairIsSession(cfg, base, user, session, device, app, ids, now);
    if !others {
      assert base == if device != 0 then DeleteBySession(s.rows, device) else s.rows;
    }
  }

  /** Rotation stays in the session: same session, owner, device and app, and its only rows are the new pair. */
  lemma RotationStaysInSession(cfg: Config, s: State, presented: Option<Claims>, known: bool, ids: Ids, now: int)
    requires Shape(s) && FreshIds(s, ids)
    requires RefreshToken(cfg, s.rows, presented, known, ids, now).1.Success?
    ensures var (t, r) := RefreshToken(cfg, s.rows, presented, known, ids, now);
            var was := s.rows[presented.value.id];
            && r.value.session == was.session
            && (set id | id in t && t[id].session == was.session) == {r.value.access.id, r.value.refresh.id}
            && (forall id :: id in {r.value.access.id, r.value.refresh.id} ==>
                  t[id].user == was.user && t[id].device == was.device && t[id].app == was.app)
            && (forall id :: id in s.rows && s.rows[id].session != was.session ==> id in t && t[id] == s.rows[id])
  {
    AcceptedTokenMatchesItsRow(s, presented, now);
    var c := presented.value;
    var t1 := DeleteBySession(s.rows, c.sid.value);
    FreshIdsUnused(s, ids);
    StoreAdds(cfg, t1, c.user, c.sid.value, s.rows[c.id].device, s.rows[c.id].app, ids, now);
    PairIsSession(cfg, t1, c.user, c.sid.value, s.rows[c.id].device, s.rows[c.id].app, ids, now);
  }

  // ---- revocation ----

  /** A token that was issued once and has left the table. */
  predicate Retired(s: State, id: Id) {
    id !in s.rows && !NeverIssued(s, id)
  }

  lemma StepKeepsRetired(cfg: Config, s: State, op: Op, id: Id)
    requires FreshFor(s, op) && Retired(s, id)
    ensures Retired(Step(cfg, s, op), id)
  {
  }

  /** The rows a call takes out of the table for good. */
  function Revokes(cfg: Config, t: Table, op: Op): set<Id> {
    match op
    case OpRefresh(presented, known, ids, at) =>
      if RefreshToken(cfg, t, presented, known, ids, at).1.Success?
      then (set id | id in t && t[id].token.sid == presented.value.sid) else {}
    case OpSignOut(id, _) =>
      if id in t then (set j | j in t && t[j].session == t[id].session) else {}
    case OpChangePassword(user, accepted, _) =>
      if accepted then (set id | id in t && t[id].user == user) else {}
    case _ => {}
  }

  /** Rotation, sign-out and a password change each remove the token they name and its sibling; they
      remove nothing of any other session (of any other user, for the password change). */
  lemma RevokedRowsLeave(cfg: Config, s: State, op: Op)
    requires Shape(s) && FreshFor(s, op)
    requires op.OpSignOut? || op.OpChangePassword? ||
             (op.OpRefresh? && RefreshToken(cfg, s.rows, op.presented, op.known, op.ids, op.at).1.Success?)
    ensures forall id :: id in s.rows ==>
              (id in Step(cfg, s, op).rows <==> id !in Revokes(cfg, s.rows, op))
    ensures forall id :: id in Revokes(cfg, s.rows, op) ==> Retired(Step(cfg, s, op), id)
    ensures op.OpRefresh? ==> op.presented.value.id in Revokes(cfg, s.rows, op)
  {
    assert forall id :: id in s.rows ==> RowOk(s, id);
    if op.OpRefresh? {
      AcceptedTokenMatchesItsRow(s, op.presented, op.at);
      FreshIdsUnused(s, op.ids);
    }
    forall id | id in Revokes(cfg, s.rows, op)
      ensures Retired(Step(cfg, s, op), id)
    {
      assert RowOk(s, id) && s.rows[id].token in Step(cfg, s, op).issued;
    }
  }

  /** Both calls that accept tokens refuse one without a row, and change nothing. */
  lemma AbsentIsRefused(cfg: Config, s: State, c: Claims, known: bool, ids: Ids, now: int)
    requires c.id !in s.rows
    ensures ValidateToken(s.rows, Some(c), known, now) == (s.rows, Failure(ExpiredToken))
    ensures RefreshToken(cfg, s.rows, Some(c), known, ids, now).1.Failure?
    ensures RefreshToken(cfg, s.rows, Some(c), known, ids, now).0 == s.rows
  {
  }

  predicate Follows(cfg: Config, s: State, op: Op, t: State) {
    FreshFor(s, op) && t == Step(cfg, s, op)
  }

  /** The states a run goes through, from the empty table on. */
  predicate IsRun(cfg: Config, states: seq<State>, ops: seq<Op>) {
    && |states| == |ops| + 1 && states[0] == EMPTY
    && forall k {:trigger ops[k]} :: 0 <= k < |ops| ==> Follows(cfg, states[k], ops[k], states[k + 1])
  }

  lemma {:induction false} ShapeAlong(cfg: Config, states: seq<State>, ops: seq<Op>, k: nat)
    requires IsRun(cfg, states, ops) && k < |states|
    ensures Shape(states[k])
  {
    if k > 0 {
      ShapeAlong(cfg, states, ops, k - 1);
      StepKeepsShape(cfg, states[k - 1], ops[k - 1]);
    }
  }

  lemma {:induction false} RetiredLater(cfg: Config, states: seq<State>, ops: seq<Op>, i: nat, j: nat, id: Id)
    requires IsRun(cfg, states, ops) && i <= j < |states| && Retired(states[i], id)
    ensures Retired(states[j], id)
    decreases j
  {
    if i < j {
      RetiredLater(cfg, states, ops, i, j - 1, id);
      StepKeepsRetired(cfg, states[j - 1], ops[j - 1], id);
    }
  }

  /** Rows that call number i of a run has rotated away, signed out or wiped by a password change are
      absent from every later state of the run. */
  lemma RevokedNeverReturns(cfg: Config, states: seq<State>, ops: seq<Op>, i: nat, j: nat, id: Id)
    requires IsRun(cfg, states, ops) && i < j < |states|
    requires id in Revokes(cfg, states[i].rows, ops[i])
    ensures id !in states[j].rows
  {
    ShapeAlong(cfg, states, ops, i);
    RevokedRowsLeave(cfg, states[i], ops[i]);
    RetiredLater(cfg, states, ops, i + 1, j, id);
  }

  /** So such a token, and its sibling, are never accepted again. */
  lemma RevocationIsPermanent(cfg: Config, states: seq<State>, ops: seq<Op>, i: nat, j: nat,
                              c: Claims, known: bool, ids: Ids, now: int)
    requires IsRun(cfg, states, ops) && i < j < |states|
    requires c.id in Revokes(cfg, states[i].rows, ops[i])
    ensures ValidateToken(states[j].rows, Some(c), known, now).1.Failure?
    ensures RefreshToken(cfg, states[j].rows, Some(c), known, ids, now).1.Failure?
  {
    RevokedNeverReturns(cfg, states, ops, i, j, c.id);
    AbsentIsRefused(cfg, states[j], c, known, ids, now);
  }
}

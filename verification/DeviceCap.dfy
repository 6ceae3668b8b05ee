/** The free-plan device cap over whole runs. The shipped session count looks at access rows only, so
    whether the cap holds depends on how the two token lifetimes compare; a count that looked at every
    row would always enforce it. */
module DeviceCap {
  import opened Wrappers
  import opened Members
  import opened Sessions
  import opened SessionRuns

  predicate Unexpired(t: Table, id: Id, now: int)
    requires id in t
  {
    t[id].expiry > now
  }

  /** At most one session of the user holds an unexpired token. */
  predicate Capped(t: Table, user: nat, now: int) {
    forall i, j :: i in t && j in t && t[i].user == user == t[j].user && Unexpired(t, i, now) && Unexpired(t, j, now)
      ==> t[i].session == t[j].session
  }

  /** The cap applies: every sign-in of the user finds a free personal plan and no paid organization. */
  predicate RestrictedOp(user: nat, op: Op) {
    (op.OpSignIn? || op.OpIssue?) && op.user == user ==> Restricted(op.account)
  }

  /** Signatures cannot be forged: a token that carries an identifier and verifies was issued. */
  predicate Unforged(s: State, op: Op) {
    (op.OpRefresh? || op.OpValidate?) && op.presented.Some? ==>
      op.presented.value.id == 0 || op.presented.value in s.issued
  }

  /** A run of a capped user in which time does not run backwards. */
  predicate CappedRun(cfg: Config, user: nat, ops: seq<Op>, now: int) {
    ops == [] ||
      var before, op := ops[..|ops| - 1], ops[|ops| - 1];
      && CappedRun(cfg, user, before, op.at) && op.at <= now
      && FreshFor(Run(cfg, EMPTY, before), op)
      && RestrictedOp(user, op) && Unforged(Run(cfg, EMPTY, before), op)
  }

  lemma {:induction false} CappedRunIsValid(cfg: Config, user: nat, ops: seq<Op>, now: int)
    requires CappedRun(cfg, user, ops, now)
    ensures ValidRun(cfg, EMPTY, ops) && Shape(Run(cfg, EMPTY, ops))
  {
    if ops != [] {
      CappedRunIsValid(cfg, user, ops[..|ops| - 1], ops[|ops| - 1].at);
      StepKeepsShape(cfg, Run(cfg, EMPTY, ops[..|ops| - 1]), ops[|ops| - 1]);
    }
  }

  /** Refresh rows are counted themselves, or never outlive the access row issued with them. */
  predicate CountSeesAll(cfg: Config) {
    Refresh in cfg.counted || cfg.refreshSeconds <= cfg.accessSeconds || cfg.refreshSeconds <= 0
  }

  // ---- then the cap holds ----

  /** Every unexpired row has a counted row of its session beside it. */
  ghost predicate Counted(cfg: Config, t: Table, now: int) {
    forall id :: id in t && Unexpired(t, id, now) ==> HasCountedRow(cfg, t, t[id].session, t[id].user, t[id].expiry)
  }

  ghost predicate HasCountedRow(cfg: Config, t: Table, session: Id, user: nat, expiry: int) {
    exists a :: a in t && t[a].session == session && t[a].user == user && t[a].kind in cfg.counted && t[a].expiry >= expiry
  }

  lemma UnexpiredCountedIsActive(cfg: Config, t: Table, a: Id, now: int)
    requires a in t && t[a].kind in cfg.counted && Unexpired(t, a, now)
    ensures |ActiveSessions(t, t[a].user, now, cfg.counted)| >= 1
  {
    assert t[a].session in ActiveSessions(t, t[a].user, now, cfg.counted);
  }

  lemma NoneActiveMeansNoneUnexpired(cfg: Config, t: Table, user: nat, now: int)
    requires Counted(cfg, t, now) && |ActiveSessions(t, user, now, cfg.counted)| < 1
    ensures forall id :: id in t && t[id].user == user ==> !Unexpired(t, id, now)
  {
    forall id | id in t && t[id].user == user
      ensures !Unexpired(t, id, now)
    {
      if Unexpired(t, id, now) {
        assert HasCountedRow(cfg, t, t[id].session, t[id].user, t[id].expiry);
        var a :| a in t && t[a].session == t[id].session && t[a].user == user && t[a].kind in cfg.counted
                 && t[a].expiry >= t[id].expiry;
        UnexpiredCountedIsActive(cfg, t, a, now);
      }
    }
  }

  /** Dropping whole sessions keeps both halves of the invariant. */
  lemma DropSessions(cfg: Config, t: Table, t': Table, user: nat, now: int)
    requires Counted(cfg, t, now) && SubTable(t', t)
    requires forall i, j :: i in t && j in t' && t[i].session == t'[j].session ==> i in t'
    ensures Counted(cfg, t', now) && (Capped(t, user, now) ==> Capped(t', user, now))
  {
    forall id | id in t' && Unexpired(t', id, now)
      ensures HasCountedRow(cfg, t', t'[id].session, t'[id].user, t'[id].expiry)
    {
      assert Unexpired(t, id, now);
      assert HasCountedRow(cfg, t, t[id].session, t[id].user, t[id].expiry);
    }
    if Capped(t, user, now) {
      forall i, j | i in t' && j in t' && t'[i].user == user == t'[j].user && Unexpired(t', i, now) && Unexpired(t', j, now)
        ensures t'[i].session == t'[j].session
      {
        assert Unexpired(t, i, now) && Unexpired(t, j, now);
      }
    }
  }

  /** Dropping rows that have expired keeps both, too: an access row outlives its sibling. */
  lemma DropExpiredRows(cfg: Config, t: Table, t': Table, user: nat, now: int)
    requires Counted(cfg, t, now) && SubTable(t', t)
    requires forall i :: i in t && i !in t' ==> t[i].expiry < now
    ensures Counted(cfg, t', now) && (Capped(t, user, now) ==> Capped(t', user, now))
  {
    forall id | id in t' && Unexpired(t', id, now)
      ensures HasCountedRow(cfg, t', t'[id].session, t'[id].user, t'[id].expiry)
    {
      assert Unexpired(t, id, now);
      assert HasCountedRow(cfg, t, t[id].session, t[id].user, t[id].expiry);
    }
    if Capped(t, user, now) {
      forall i, j | i in t' && j in t' && t'[i].user == user == t'[j].user && Unexpired(t', i, now) && Unexpired(t', j, now)
        ensures t'[i].session == t'[j].session
      {
        assert Unexpired(t, i, now) && Unexpired(t, j, now);
      }
    }
  }

  lemma LaterKeepsBoth(cfg: Config, t: Table, user: nat, now: int, later: int)
    requires now <= later && Counted(cfg, t, now) && Capped(t, user, now)
    ensures Counted(cfg, t, later) && Capped(t, user, later)
  {
    forall id | id in t && Unexpired(t, id, later)
      ensures HasCountedRow(cfg, t, t[id].session, t[id].user, t[id].expiry)
    {
      assert Unexpired(t, id, now);
    }
    forall i, j | i in t && j in t && t[i].user == user == t[j].user && Unexpired(t, i, later) && Unexpired(t, j, later)
      ensures t[i].session == t[j].session
    {
      assert Unexpired(t, i, now) && Unexpired(t, j, now);
    }
  }

  /** A pair may be stored for the user when no other session of that user is unexpired. */
  lemma StoreKeepsBoth(cfg: Config, t: Table, user: nat, owner: nat, session: Id, device: Id, app: string, ids: Ids, now: int)
    requires Access in cfg.counted && CountSeesAll(cfg) && Counted(cfg, t, now) && Capped(t, user, now)
    requires ids.access != ids.refresh && ids.access !in t && ids.refresh !in t
    requires owner == user ==> forall id :: id in t && t[id].user == user ==> !Unexpired(t, id, now)
    ensures var t' := Store(cfg, t, Issue(cfg, owner, session, ids, now), device, app, now);
            Counted(cfg, t', now) && Capped(t', user, now)
  {
    var t' := Store(cfg, t, Issue(cfg, owner, session, ids, now), device, app, now);
    StoreAdds(cfg, t, owner, session, device, app, ids, now);
    forall id | id in t' && Unexpired(t', id, now)
      ensures HasCountedRow(cfg, t', t'[id].session, t'[id].user, t'[id].expiry)
    {
      if id in t {
        assert Unexpired(t, id, now);
        assert HasCountedRow(cfg, t, t[id].session, t[id].user, t[id].expiry);
        var a :| a in t && t[a].session == t[id].session && t[a].user == t[id].user && t[a].kind in cfg.counted
                 && t[a].expiry >= t[id].expiry;
        assert a in t' && t'[a] == t[a];
      } else {
        var a := if Refresh in cfg.counted then id else ids.access;
        assert t'[a].kind in cfg.counted && t'[a].expiry >= t'[id].expiry;
      }
    }
    forall i, j | i in t' && j in t' && t'[i].user == user == t'[j].user && Unexpired(t', i, now) && Unexpired(t', j, now)
      ensures t'[i].session == t'[j].session
    {
      if i in t {
        assert Unexpired(t, i, now);
      }
      if j in t {
        assert Unexpired(t, j, now);
      }
    }
  }

  lemma EstablishKeepsBoth(cfg: Config, s: State, user: nat, owner: nat, a: Account, device: Id, app: string,
                           others: bool, ids: Ids, now: int)
    requires Access in cfg.counted && CountSeesAll(cfg)
    requires Shape(s) && FreshIds(s, ids) && Counted(cfg, s.rows, now) && Capped(s.rows, user, now)
    requires owner == user ==> Restricted(a)
    ensures var t' := Establish(cfg, s.rows, owner, a, device, app, others, ids, now).0;
            Counted(cfg, t', now) && Capped(t', user, now)
  {
    var session := if device != 0 then device else ids.session;
    var t1 := if device != 0 then DeleteBySession(s.rows, session) else s.rows;
    DropSessions(cfg, s.rows, t1, user, now);
    var full := Restricted(a) && |ActiveSessions(t1, owner, now, cfg.counted)| >= 1;
    if !full || others {
      var t2 := if full then DeleteByUser(t1, owner) else t1;
      DropSessions(cfg, t1, t2, user, now);
      FreshIdsUnused(s, ids);
      if owner == user && !full {
        NoneActiveMeansNoneUnexpired(cfg, t2, user, now);
      }
      StoreKeepsBoth(cfg, t2, user, owner, session, device, app, ids, now);
    }
  }

  /** The row a refused token costs has expired, unless the token was forged. */
  lemma CheckKeepsBoth(cfg: Config, s: State, user: nat, presented: Option<Claims>, now: int)
    requires Shape(s) && Counted(cfg, s.rows, now) && Capped(s.rows, user, now)
    requires presented.Some? && presented.value.id != 0 ==> presented.value in s.issued
    ensures var t' := Check(s.rows, presented, now).0;
            Counted(cfg, t', now) && Capped(t', user, now)
  {
    var t' := Check(s.rows, presented, now).0;
    if t' != s.rows {
      var id := presented.value.id;
      assert RowOk(s, id);
      assert s.rows[id].token == presented.value;
      DropExpiredRows(cfg, s.rows, t', user, now);
    }
  }

  lemma RefreshKeepsBoth(cfg: Config, s: State, user: nat, presented: Option<Claims>, known: bool, ids: Ids, now: int)
    requires Access in cfg.counted && CountSeesAll(cfg)
    requires Shape(s) && FreshIds(s, ids) && Counted(cfg, s.rows, now) && Capped(s.rows, user, now)
    requires presented.Some? && presented.value.id != 0 ==> presented.value in s.issued
    ensures var t' := RefreshToken(cfg, s.rows, presented, known, ids, now).0;
            Counted(cfg, t', now) && Capped(t', user, now)
  {
    if RefreshToken(cfg, s.rows, presented, known, ids, now).1.Success? {
      AcceptedTokenMatchesItsRow(s, presented, now);
      var c := presented.value;
      var t1 := DeleteBySession(s.rows, c.sid.value);
      DropSessions(cfg, s.rows, t1, user, now);
      FreshIdsUnused(s, ids);
      assert Unexpired(s.rows, c.id, now);
      forall id | c.user == user && id in t1 && t1[id].user == user
        ensures !Unexpired(t1, id, now)
      {
        assert Unexpired(t1, id, now) == Unexpired(s.rows, id, now);
      }
      StoreKeepsBoth(cfg, t1, user, c.user, c.sid.value, s.rows[c.id].device, s.rows[c.id].app, ids, now);
    } else {
      CheckKeepsBoth(cfg, s, user, presented, now);
    }
  }

  lemma StepKeepsBoth(cfg: Config, s: State, user: nat, op: Op)
    requires Access in cfg.counted && CountSeesAll(cfg) && Shape(s) && Counted(cfg, s.rows, op.at) && Capped(s.rows, user, op.at)
    requires FreshFor(s, op) && RestrictedOp(user, op) && Unforged(s, op)
    ensures Counted(cfg, Step(cfg, s, op).rows, op.at) && Capped(Step(cfg, s, op).rows, user, op.at)
  {
    match op
    case OpSignIn(owner, a, right, device, app, others, ids, at) =>
      EstablishKeepsBoth(cfg, s, user, owner, a, device, app, others, ids, at);
    case OpIssue(owner, a, device, app, ids, at) =>
      EstablishKeepsBoth(cfg, s, user, owner, a, device, app, false, ids, at);
    case OpRefresh(presented, known, ids, at) =>
      RefreshKeepsBoth(cfg, s, user, presented, known, ids, at);
    case OpValidate(presented, known, at) =>
      CheckKeepsBoth(cfg, s, user, presented, at);
    case OpSignOut(id, at) =>
      if id in s.rows {
        assert RowOk(s, id);
        DropSessions(cfg, s.rows, SignOut(s.rows, id), user, at);
      }
    case OpChangePassword(owner, accepted, at) =>
      if accepted {
        DropSessions(cfg, s.rows, DeleteByUser(s.rows, owner), user, at);
      }
    case OpCleanup(at) =>
      DropExpiredRows(cfg, s.rows, DeleteExpired(s.rows, at), user, at);
  }

  lemma {:induction false} RunKeepsBoth(cfg: Config, user: nat, ops: seq<Op>, now: int)
    requires Access in cfg.counted && CountSeesAll(cfg) && CappedRun(cfg, user, ops, now)
    ensures Counted(cfg, Run(cfg, EMPTY, ops).rows, now) && Capped(Run(cfg, EMPTY, ops).rows, user, now)
  {
    if ops != [] {
      var before, op := ops[..|ops| - 1], ops[|ops| - 1];
      RunKeepsBoth(cfg, user, before, op.at);
      CappedRunIsValid(cfg, user, before, op.at);
      StepKeepsBoth(cfg, Run(cfg, EMPTY, before), user, op);
      LaterKeepsBoth(cfg, Run(cfg, EMPTY, ops).rows, user, op.at, now);
    }
  }

  // ---- with any other lifetimes it fails ----

  const FREE := Account(true, false, Some(Subscription(Active, Some(0))), [], map[])

  function FirstSignIn(): Op {
    OpSignIn(1, FREE, true, 0, "vault", false, Ids(1, 11, 12), 0)
  }

  function SecondSignIn(at: int): Op {
    OpSignIn(1, FREE, true, 0, "mobile", false, Ids(2, 21, 22), at)
  }

  /** The instant the first access token stops counting while its refresh token lives on. */
  function Gap(cfg: Config): int {
    if cfg.accessSeconds > 0 then cfg.accessSeconds * 1_000_000_000 else 0
  }

  lemma AfterFirst(cfg: Config)
    ensures Run(cfg, EMPTY, [FirstSignIn()]).rows == Store(cfg, map[], Issue(cfg, 1, 1, Ids(1, 11, 12), 0), 0, "vault", 0)
    ensures Run(cfg, EMPTY, [FirstSignIn()]).issued ==
            {Issue(cfg, 1, 1, Ids(1, 11, 12), 0).access, Issue(cfg, 1, 1, Ids(1, 11, 12), 0).refresh}
  {
    var ops := [FirstSignIn()];
    assert ops[..|ops| - 1] == [];
    assert Run(cfg, EMPTY, []) == EMPTY;
    var p := Issue(cfg, 1, 1, Ids(1, 11, 12), 0);
    var t := Store(cfg, map[], p, 0, "vault", 0);
    assert ActiveSessions(map[], 1, 0, cfg.counted) == {};
    assert Run(cfg, EMPTY, ops).rows == t;
    assert t[11].token == p.access && t[12].token == p.refresh;
  }

  lemma SecondIsLetIn(cfg: Config)
    requires !CountSeesAll(cfg)
    ensures var rows := Run(cfg, EMPTY, [FirstSignIn()]).rows;
            var at := Gap(cfg);
            Apply(cfg, rows, SecondSignIn(at)) == Store(cfg, rows, Issue(cfg, 1, 2, Ids(2, 21, 22), at), 0, "mobile", at)
  {
    AfterFirst(cfg);
    assert ActiveSessions(Run(cfg, EMPTY, [FirstSignIn()]).rows, 1, Gap(cfg), cfg.counted) == {};
  }

  lemma CounterexampleIsCappedRun(cfg: Config)
    requires !CountSeesAll(cfg)
    ensures CappedRun(cfg, 1, [FirstSignIn(), SecondSignIn(Gap(cfg))], Gap(cfg))
  {
    var ops := [FirstSignIn(), SecondSignIn(Gap(cfg))];
    assert ops[..|ops| - 1] == [FirstSignIn()];
    assert [FirstSignIn()][..0] == [];
    AfterFirst(cfg);
  }

  lemma CounterexampleBreaksCap(cfg: Config)
    requires !CountSeesAll(cfg)
    ensures !Capped(Run(cfg, EMPTY, [FirstSignIn(), SecondSignIn(Gap(cfg))]).rows, 1, Gap(cfg))
  {
    var ops := [FirstSignIn(), SecondSignIn(Gap(cfg))];
    assert ops[..|ops| - 1] == [FirstSignIn()];
    AfterFirst(cfg);
    SecondIsLetIn(cfg);
    var t := Run(cfg, EMPTY, ops).rows;
    assert 12 in t && 22 in t && t[12].session == 1 && t[22].session == 2;
    assert Unexpired(t, 12, Gap(cfg)) && Unexpired(t, 22, Gap(cfg));
  }

  /** Every reachable state, at every time, keeps the cap of every capped user. */
  ghost predicate CapHolds(cfg: Config) {
    forall user, ops, now | CappedRun(cfg, user, ops, now) :: Capped(Run(cfg, EMPTY, ops).rows, user, now)
  }

  /** With a count that looks at access rows, and perhaps at others, the cap is enforced exactly when no
      refresh token can live on uncounted. */
  lemma CapHoldsIff(cfg: Config)
    requires Access in cfg.counted
    ensures CapHolds(cfg) <==> CountSeesAll(cfg)
  {
    if CountSeesAll(cfg) {
      forall user, ops, now | CappedRun(cfg, user, ops, now)
        ensures Capped(Run(cfg, EMPTY, ops).rows, user, now)
      {
        RunKeepsBoth(cfg, user, ops, now);
      }
    } else {
      CounterexampleIsCappedRun(cfg);
      CounterexampleBreaksCap(cfg);
    }
  }

  /** So as shipped it is enforced exactly when refresh tokens do not outlive access tokens. */
  lemma ShippedCapHoldsIff(cfg: Config)
    requires cfg.counted == SHIPPED_COUNT
    ensures CapHolds(cfg) <==> cfg.refreshSeconds <= cfg.accessSeconds || cfg.refreshSeconds <= 0
  {
    CapHoldsIff(cfg);
  }

  /** The lifetimes the service is configured with by default: half an hour and fifteen days. */
  const DEFAULTS := Config(1800, 1_296_000, SHIPPED_COUNT)

  /** With them it is not. */
  lemma DefaultsBreakCap()
    ensures !CapHolds(DEFAULTS)
  {
    ShippedCapHoldsIff(DEFAULTS);
  }
}

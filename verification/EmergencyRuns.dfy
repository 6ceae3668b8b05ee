/** Whole runs of the emergency access calls: the order of events every grant goes through, and the books
    its counts keep. */
module EmergencyRuns {
  import opened Wrappers
  import opened EmergencyAccess

  datatype Op =
    | Invite(actor: nat, email: string, id: Id)
    | Accept(actor: nat, id: Id)
    | Confirm(actor: nat, id: Id, key: string)
    | Request(actor: nat, id: Id, at: int)
    | Approve(actor: nat, id: Id, at: int)
    | Reject(actor: nat, id: Id)
    | Read(actor: nat, id: Id)
    | Revoke(actor: nat, id: Id)
    | ReKeyAll(actor: nat, newKeys: map<string, string>)

  function OpError(users: Users, t: Table, op: Op): Option<Error> {
    match op
    case Invite(actor, email, _) => InviteError(users, actor, email)
    case Accept(actor, id) => AcceptError(users, t, actor, id)
    case Confirm(actor, id, key) => ConfirmError(t, actor, id, key)
    case Request(actor, id, _) => RequestError(t, actor, id)
    case Approve(actor, id, _) => GrantorError(t, actor, id, RecoveryRequested)
    case Reject(actor, id) => GrantorError(t, actor, id, RecoveryRequested)
    case Read(actor, id) => ReadError(users, t, actor, id)
    case Revoke(actor, id) => RevokeError(t, actor, id)
    case ReKeyAll(_, _) => None
  }

  /** What a successful call makes of the grant it names. */
  function Moved(g: Grant, op: Op): Grant {
    match op
    case Accept(actor, _) => g.(grantee := Some(actor), status := Accepted)
    case Confirm(_, _, key) => g.(key := Some(key), status := Confirmed)
    case Request(_, _, at) => g.(status := RecoveryRequested, requestedAt := Some(at))
    case Approve(_, _, at) => g.(status := RecoveryApproved, approvedAt := Some(at))
    case Reject(_, _) => g.(status := RecoveryRejected)
    case Read(_, _) => AfterRead(g)
    case _ => g
  }

  function Apply(t: Table, op: Op): Table {
    match op
    case Invite(actor, email, id) => t[id := Fresh(actor, email)]
    case Revoke(_, id) => t - {id}
    case ReKeyAll(actor, newKeys) => ReKey(t, actor, newKeys)
    case _ => if op.id in t then t[op.id := Moved(t[op.id], op)] else t
  }

  // ---- the event log ----

  datatype Kind = Invites | Accepts | Confirms | Requests | Approves | Rejects | Reads

  datatype Event = Event(kind: Kind, actor: nat)

  /** Revoking deletes the grant, and a new key is no event of the protocol. */
  function EventOf(op: Op): Option<Event> {
    match op
    case Invite(actor, _, _) => Some(Event(Invites, actor))
    case Accept(actor, _) => Some(Event(Accepts, actor))
    case Confirm(actor, _, _) => Some(Event(Confirms, actor))
    case Request(actor, _, _) => Some(Event(Requests, actor))
    case Approve(actor, _, _) => Some(Event(Approves, actor))
    case Reject(actor, _) => Some(Event(Rejects, actor))
    case Read(actor, _) => Some(Event(Reads, actor))
    case _ => None
  }

  /** The table, and the successful calls about every grant there ever was. */
  datatype World = World(grants: Table, logs: map<Id, seq<Event>>)

  const EMPTY := World(map[], map[])

  function Log(w: World, id: Id): seq<Event> {
    if id in w.logs then w.logs[id] else []
  }

  function Step(users: Users, w: World, op: Op): World {
    if OpError(users, w.grants, op).Some? then w
    else if EventOf(op).None? then World(Apply(w.grants, op), w.logs)
    else World(Apply(w.grants, op), w.logs[op.id := Log(w, op.id) + [EventOf(op).value]])
  }

  function Run(users: Users, w: World, ops: seq<Op>): World {
    if ops == [] then w else Step(users, Run(users, w, ops[..|ops| - 1]), ops[|ops| - 1])
  }

  /** Invitations get identifiers never used before. */
  predicate FreshFor(w: World, op: Op) {
    op.Invite? ==> op.id !in w.logs
  }

  predicate ValidRun(users: Users, w: World, ops: seq<Op>) {
    ops != [] ==>
      && ValidRun(users, w, ops[..|ops| - 1])
      && FreshFor(Run(users, w, ops[..|ops| - 1]), ops[|ops| - 1])
  }

  // ---- the order of events ----

  function StatusAfter(kind: Kind): Status {
    match kind
    case Invites => Invited
    case Accepts => Accepted
    case Confirms => Confirmed
    case Requests => RecoveryRequested
    case Approves => RecoveryApproved
    case Rejects => RecoveryRejected
    case Reads => Confirmed
  }

  /** Event number i: an invitation, an acceptance and a confirmation, then rounds of request, approval
      and read. */
  function Expected(grantor: nat, grantee: nat, i: nat): Event {
    if i == 0 then Event(Invites, grantor)
    else if i == 1 then Event(Accepts, grantee)
    else if i == 2 then Event(Confirms, grantor)
    else if i % 3 == 0 then Event(Requests, grantee)
    else if i % 3 == 1 then Event(Approves, grantor)
    else Event(Reads, grantee)
  }

  /** A rejection can stand in for an approval, as the last event. */
  predicate Fits(grantor: nat, grantee: nat, log: seq<Event>, i: nat)
    requires i < |log|
  {
    || log[i] == Expected(grantor, grantee, i)
    || (i == |log| - 1 && i > 3 && i % 3 == 1 && log[i] == Event(Rejects, grantor))
  }

  predicate InOrder(grantor: nat, grantee: nat, log: seq<Event>) {
    forall i :: 0 <= i < |log| ==> Fits(grantor, grantee, log, i)
  }

  function GranteeOr(g: Grant): nat {
    if g.grantee.Some? then g.grantee.value else 0
  }

  predicate Ordered(g: Grant, log: seq<Event>) {
    && log != []
    && InOrder(g.grantor, GranteeOr(g), log)
    && g.status == StatusAfter(log[|log| - 1].kind)
    && (g.grantee.Some? <==> |log| >= 2)
    && (g.key.Some? <==> |log| >= 3)
  }

  predicate AllOrdered(w: World) {
    && (forall id :: id in w.grants ==> id in w.logs && Ordered(w.grants[id], w.logs[id]))
  }

  /** The next event fits after a log that does not end in a rejection. */
  lemma InOrderSnoc(grantor: nat, grantee: nat, log: seq<Event>, e: Event)
    requires InOrder(grantor, grantee, log) && log != [] && log[|log| - 1].kind != Rejects
    requires e == Expected(grantor, grantee, |log|) || (|log| > 3 && |log| % 3 == 1 && e == Event(Rejects, grantor))
    ensures InOrder(grantor, grantee, log + [e])
  {
    forall i | 0 <= i < |log + [e]|
      ensures Fits(grantor, grantee, log + [e], i)
    {
      if i < |log| {
        assert Fits(grantor, grantee, log, i);
      }
    }
  }

  /** The status tells how long the log is. */
  lemma LengthByStatus(g: Grant, log: seq<Event>)
    requires Ordered(g, log)
    ensures g.status == Invited <==> |log| == 1
    ensures g.status == Accepted <==> |log| == 2
    ensures g.status == Confirmed <==> |log| >= 3 && |log| % 3 == 0
    ensures g.status == RecoveryRequested <==> |log| > 3 && |log| % 3 == 1
    ensures g.status in {RecoveryApproved, RecoveryRejected} <==> |log| > 3 && |log| % 3 == 2
    ensures g.status == RecoveryRejected <==> log[|log| - 1].kind == Rejects
    ensures g.status == RecoveryRejected ==> |log| > 3
  {
    assert Fits(g.grantor, GranteeOr(g), log, |log| - 1);
  }

  /** Before the acceptance the log does not name the grantee. */
  lemma GranteeIsOpen(grantor: nat, log: seq<Event>, a: nat, b: nat)
    requires |log| == 1 && InOrder(grantor, a, log)
    ensures InOrder(grantor, b, log)
  {
    assert Fits(grantor, a, log, 0);
  }

  lemma MoveKeepsOrder(users: Users, w: World, op: Op)
    requires AllOrdered(w) && OpError(users, w.grants, op).None?
    requires op.Accept? || op.Confirm? || op.Request? || op.Approve? || op.Reject? || op.Read?
    ensures op.id in w.grants && op.id in w.logs
    ensures Ordered(Moved(w.grants[op.id], op), w.logs[op.id] + [EventOf(op).value])
  {
    var g, log := w.grants[op.id], w.logs[op.id];
    LengthByStatus(g, log);
    if op.Accept? {
      GranteeIsOpen(g.grantor, log, GranteeOr(g), op.actor);
      InOrderSnoc(g.grantor, op.actor, log, EventOf(op).value);
    } else {
      InOrderSnoc(g.grantor, GranteeOr(g), log, EventOf(op).value);
    }
  }

  lemma ReKeyKeepsOrder(w: World, actor: nat, newKeys: map<string, string>)
    requires AllOrdered(w)
    ensures AllOrdered(World(ReKey(w.grants, actor, newKeys), w.logs))
  {
    forall id | id in w.grants
      ensures Ordered(ReKeyGrant(w.grants[id], actor, newKeys), w.logs[id])
    {
      assert Ordered(w.grants[id], w.logs[id]);
    }
  }

  lemma InviteKeepsOrder(grantor: nat, email: string)
    ensures Ordered(Fresh(grantor, email), [Event(Invites, grantor)])
  {
    var log := [Event(Invites, grantor)];
    assert Fits(grantor, 0, log, 0);
  }

  lemma StepKeepsOrder(users: Users, w: World, op: Op)
    requires AllOrdered(w) && FreshFor(w, op)
    ensures AllOrdered(Step(users, w, op))
  {
    if OpError(users, w.grants, op).None? {
      match op
      case Invite(actor, email, id) =>
        InviteKeepsOrder(actor, email);
        assert Log(w, id) + [Event(Invites, actor)] == [Event(Invites, actor)];
      case Revoke(_, _) =>
      case ReKeyAll(actor, newKeys) =>
        ReKeyKeepsOrder(w, actor, newKeys);
      case _ =>
        MoveKeepsOrder(users, w, op);
    }
  }

  /** Main result: in every run each grant's events come in the order invitation by the grantor,
      acceptance by the grantee, confirmation by the grantor, then rounds of request by the grantee,
      approval by the grantor and read by the grantee, of which a rejection by the grantor can end the
      last one; and the status is the one the last event left. */
  lemma {:induction false} RunKeepsOrder(users: Users, ops: seq<Op>)
    requires ValidRun(users, EMPTY, ops)
    ensures AllOrdered(Run(users, EMPTY, ops))
  {
    if ops != [] {
      RunKeepsOrder(users, ops[..|ops| - 1]);
      StepKeepsOrder(users, Run(users, EMPTY, ops[..|ops| - 1]), ops[|ops| - 1]);
    }
  }

  /** Each read directly follows an approval by the grantor, which directly follows a request by the
      reader, all of them after the confirmation. */
  lemma ReadsAreApproved(g: Grant, log: seq<Event>, i: nat)
    requires Ordered(g, log) && i < |log| && log[i].kind == Reads
    ensures g.grantee.Some? && log[i].actor == g.grantee.value
    ensures i >= 5 && log[i - 1] == Event(Approves, g.grantor) && log[i - 2] == Event(Requests, log[i].actor)
    ensures log[2] == Event(Confirms, g.grantor) && log[1] == Event(Accepts, log[i].actor)
  {
    assert Fits(g.grantor, GranteeOr(g), log, i);
    assert Fits(g.grantor, GranteeOr(g), log, i - 1);
    assert Fits(g.grantor, GranteeOr(g), log, i - 2);
    assert Fits(g.grantor, GranteeOr(g), log, 2);
    assert Fits(g.grantor, GranteeOr(g), log, 1);
  }

  // ---- the books ----

  function Count(log: seq<Event>, kind: Kind): nat {
    if log == [] then 0
    else Count(log[..|log| - 1], kind) + if log[|log| - 1].kind == kind then 1 else 0
  }

  lemma {:induction false} CountsInOrder(grantor: nat, grantee: nat, log: seq<Event>, n: nat)
    requires n <= |log| && forall i :: 0 <= i < n ==> log[i] == Expected(grantor, grantee, i)
    ensures Count(log[..n], Requests) == if n < 1 then 0 else (n - 1) / 3
    ensures Count(log[..n], Approves) == if n < 2 then 0 else (n - 2) / 3
    ensures Count(log[..n], Reads) == if n < 3 then 0 else n / 3 - 1
    ensures Count(log[..n], Rejects) == 0
  {
    if n > 0 {
      CountsInOrder(grantor, grantee, log, n - 1);
      assert log[..n][..n - 1] == log[..n - 1];
      assert log[..n][n - 1] == Expected(grantor, grantee, n - 1);
    }
  }

  /** Approvals exceed reads by one exactly while an approval is open, and requests exceed decisions by
      one exactly while a request is open. */
  lemma BooksBalance(g: Grant, log: seq<Event>)
    requires Ordered(g, log)
    ensures Count(log, Approves) - Count(log, Reads) == if g.status == RecoveryApproved then 1 else 0
    ensures Count(log, Requests) - Count(log, Approves) - Count(log, Rejects) ==
            if g.status == RecoveryRequested then 1 else 0
  {
    var n := |log| - 1;
    forall i | 0 <= i < n
      ensures log[i] == Expected(g.grantor, GranteeOr(g), i)
    {
      assert Fits(g.grantor, GranteeOr(g), log, i);
    }
    CountsInOrder(g.grantor, GranteeOr(g), log, n);
    LengthByStatus(g, log);
    assert Fits(g.grantor, GranteeOr(g), log, n);
  }
}

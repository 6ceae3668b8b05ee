/** Who may move a grant of emergency access, and who ends up reading a vault: the contact invited. */
module EmergencyParties {
  import opened Wrappers
  import opened Strings
  import opened EmergencyAccess
  import opened EmergencyRuns

  // ---- when a call is accepted ----

  /** The user is registered under the address, letter case aside. */
  predicate HasAddress(users: Users, user: nat, email: string) {
    user in users && ToLower(users[user].email) == ToLower(email)
  }

  /** The call comes from the party whose move it is. */
  predicate FromParty(users: Users, g: Grant, op: Op) {
    match op
    case Accept(actor, _) => HasAddress(users, actor, g.email)
    case Confirm(actor, _, _) => g.grantor == actor
    case Approve(actor, _, _) => g.grantor == actor
    case Reject(actor, _) => g.grantor == actor
    case Revoke(actor, _) => g.grantor == actor
    case Request(actor, _, _) => g.grantee == Some(actor)
    case Read(actor, _) => g.grantee == Some(actor)
    case Invite(_, _, _) => false
    case ReKeyAll(_, _) => false
  }

  /** The statuses in which it is this party's move. */
  predicate InTurn(g: Grant, op: Op) {
    match op
    case Accept(_, _) => g.status == Status.Invited
    case Confirm(_, _, _) => g.status == Status.Accepted
    case Request(_, _, _) => g.status == Status.Confirmed
    case Approve(_, _, _) => g.status == RecoveryRequested
    case Reject(_, _) => g.status == RecoveryRequested
    case Read(_, _) => g.status == RecoveryApproved
    case _ => true
  }

  predicate Names(op: Op) {
    !op.Invite? && !op.ReKeyAll?
  }

  /** A call about a grant is accepted exactly when the grant is there, the call comes from the party whose
      move it is, and the key it stores or reads is there. */
  lemma MoveAcceptedIff(users: Users, t: Table, op: Op)
    requires Names(op)
    ensures OpError(users, t, op).None? <==>
            && op.id in t && FromParty(users, t[op.id], op) && InTurn(t[op.id], op)
            && (op.Confirm? ==> TrimSpace(op.key) != "")
            && (op.Read? ==> t[op.id].key.Some? && t[op.id].grantor in users)
  {
  }

  /** The reason of a refusal: no such grant, another party, or not in turn. */
  lemma RefusalReason(users: Users, t: Table, op: Op)
    requires Names(op) && (op.Confirm? ==> TrimSpace(op.key) != "")
    ensures OpError(users, t, op) == Some(NotFound) <==> op.id !in t
    ensures op.id in t && !op.Accept? && !op.Read? ==>
              && (OpError(users, t, op) == Some(Forbidden) <==> !FromParty(users, t[op.id], op))
              && (OpError(users, t, op) == Some(InvalidInput) <==> FromParty(users, t[op.id], op) && !InTurn(t[op.id], op))
    ensures op.id in t && op.Accept? ==>
              && (OpError(users, t, op) == Some(InvalidInput) <==> !InTurn(t[op.id], op))
              && (OpError(users, t, op) == Some(UserMissing) <==> InTurn(t[op.id], op) && op.actor !in users)
              && (OpError(users, t, op) == Some(Forbidden) <==>
                  InTurn(t[op.id], op) && op.actor in users && !HasAddress(users, op.actor, t[op.id].email))
    ensures op.id in t && op.Read? ==>
              (OpError(users, t, op) == Some(Forbidden) <==> !(FromParty(users, t[op.id], op) && InTurn(t[op.id], op)))
  {
  }

  /** An invitation is accepted from a registered user for an address that is not blank and not the user's own. */
  lemma InviteAcceptedIff(users: Users, grantor: nat, email: string)
    ensures InviteError(users, grantor, email).None? <==>
            grantor in users && TrimSpace(ToLower(email)) != "" && !HasAddress(users, grantor, TrimSpace(ToLower(email)))
  {
  }

  // ---- who changes a grant ----

  /** A grant changes or disappears only by a call of the party whose move it is, or gets a new key by
      its grantor. */
  lemma ChangesComeFromParties(users: Users, w: World, op: Op, id: Id)
    requires AllOrdered(w) && FreshFor(w, op) && id in w.grants
    requires id !in Step(users, w, op).grants || Step(users, w, op).grants[id] != w.grants[id]
    ensures if op.ReKeyAll? then op.actor == w.grants[id].grantor
            else Names(op) && op.id == id && FromParty(users, w.grants[id], op) && InTurn(w.grants[id], op)
    ensures id !in Step(users, w, op).grants ==> op == Revoke(w.grants[id].grantor, id)
  {
    if Names(op) {
      MoveAcceptedIff(users, w.grants, op);
    }
  }

  // ---- the times of a grant ----

  /** The times are those of the round that is open. */
  predicate Timed(g: Grant) {
    && (g.requestedAt.Some? <==> g.status in {RecoveryRequested, RecoveryApproved, RecoveryRejected})
    && (g.approvedAt.Some? <==> g.status == RecoveryApproved)
  }

  predicate AllTimed(w: World) {
    forall id :: id in w.grants ==> Timed(w.grants[id])
  }

  lemma StepKeepsTimes(users: Users, w: World, op: Op)
    requires AllTimed(w)
    ensures AllTimed(Step(users, w, op))
  {
    if OpError(users, w.grants, op).None? && Names(op) && !op.Revoke? {
      MoveAcceptedIff(users, w.grants, op);
      assert Timed(Moved(w.grants[op.id], op));
    }
  }

  lemma {:induction false} RunKeepsTimes(users: Users, ops: seq<Op>)
    ensures AllTimed(Run(users, EMPTY, ops))
  {
    if ops != [] {
      RunKeepsTimes(users, ops[..|ops| - 1]);
      StepKeepsTimes(users, Run(users, EMPTY, ops[..|ops| - 1]), ops[|ops| - 1]);
    }
  }

  // ---- the reader was invited ----

  /** The grant goes back to this invitation, whose sender has another address, and its grantee, if it has
      one, is registered under the address invited. */
  predicate ComesFrom(users: Users, op: Op, id: Id, g: Grant) {
    && op.Invite? && op.id == id && op.actor == g.grantor && g.email == TrimSpace(ToLower(op.email))
    && op.actor in users && ToLower(users[op.actor].email) != g.email
    && (g.grantee.Some? ==> g.grantee.value in users && ToLower(users[g.grantee.value].email) == g.email)
  }

  lemma CleanIsLower(email: string)
    ensures ToLower(TrimSpace(ToLower(email))) == TrimSpace(ToLower(email))
  {
    var l := ToLower(email);
    LowerIsLower(email);
    TrimSpaceResult(l);
    forall i | 0 <= i < |TrimSpace(l)|
      ensures LowerChar(TrimSpace(l)[i]) == TrimSpace(l)[i]
    {
      assert TrimSpace(l)[i] in l;
    }
  }

  lemma StepKeepsInvitation(users: Users, w: World, op: Op, invitation: Op, id: Id)
    requires id in w.grants && id in Step(users, w, op).grants && ComesFrom(users, invitation, id, w.grants[id])
    requires !(op.Invite? && op.id == id)
    ensures ComesFrom(users, invitation, id, Step(users, w, op).grants[id])
  {
    CleanIsLower(invitation.email);
    if OpError(users, w.grants, op).None? && Names(op) {
      MoveAcceptedIff(users, w.grants, op);
    }
  }

  lemma NewGrantIsInvited(users: Users, w: World, op: Op, id: Id)
    requires id in Step(users, w, op).grants && (id !in w.grants || (op.Invite? && op.id == id && OpError(users, w.grants, op).None?))
    ensures ComesFrom(users, op, id, Step(users, w, op).grants[id])
  {
    CleanIsLower(op.email);
  }

  /** In every run each grant goes back to an invitation by its grantor, and whoever accepted it is
      registered under the address invited. */
  lemma {:induction false} GrantsGoBackToInvitations(users: Users, ops: seq<Op>, id: Id) returns (k: nat)
    requires ValidRun(users, EMPTY, ops) && id in Run(users, EMPTY, ops).grants
    ensures k < |ops| && ComesFrom(users, ops[k], id, Run(users, EMPTY, ops).grants[id])
  {
    var before, op := ops[..|ops| - 1], ops[|ops| - 1];
    var w := Run(users, EMPTY, before);
    RunKeepsOrder(users, before);
    if id !in w.grants {
      NewGrantIsInvited(users, w, op, id);
      return |ops| - 1;
    }
    k := GrantsGoBackToInvitations(users, before, id);
    StepKeepsInvitation(users, w, op, ops[k], id);
  }

  lemma {:induction false} PrefixIsValid(users: Users, ops: seq<Op>, i: nat)
    requires ValidRun(users, EMPTY, ops) && i <= |ops|
    ensures ValidRun(users, EMPTY, ops[..i])
  {
    if i < |ops| {
      PrefixIsValid(users, ops[..|ops| - 1], i);
      assert ops[..|ops| - 1][..i] == ops[..i];
    } else {
      assert ops[..i] == ops;
    }
  }

  /** Main result: whoever reads a vault in a run is registered under the address that an earlier
      invitation of the same grant named, and is not who sent it. */
  lemma ReaderWasInvited(users: Users, ops: seq<Op>, i: nat) returns (k: nat)
    requires ValidRun(users, EMPTY, ops) && i < |ops| && ops[i].Read?
    requires OpError(users, Run(users, EMPTY, ops[..i]).grants, ops[i]).None?
    ensures k < i && ops[k].Invite? && ops[k].id == ops[i].id && ops[i].id in Run(users, EMPTY, ops[..i]).grants
    ensures ops[i].actor in users && ToLower(users[ops[i].actor].email) == TrimSpace(ToLower(ops[k].email))
    ensures ops[i].actor != ops[k].actor == Run(users, EMPTY, ops[..i]).grants[ops[i].id].grantor
  {
    PrefixIsValid(users, ops, i);
    MoveAcceptedIff(users, Run(users, EMPTY, ops[..i]).grants, ops[i]);
    k := GrantsGoBackToInvitations(users, ops[..i], ops[i].id);
  }
}

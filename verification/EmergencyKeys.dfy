/** What a grant keeps through any later calls, and which key a vault read hands out after ReKeyForUser.
    Nothing in the repository calls ReKeyForUser: a change of the master password leaves all keys alone. */
module EmergencyKeys {
  import opened Wrappers
  import opened EmergencyAccess
  import opened EmergencyRuns

  predicate Early(g: Grant) {
    g.status == Invited || g.status == Accepted
  }

  /** A grant and what later calls have made of it. */
  predicate Descends(g: Grant, later: Grant) {
    && later.grantor == g.grantor && later.email == g.email
    && (g.grantee.Some? ==> later.grantee == g.grantee)
    && (!Early(g) ==> !Early(later))
    && (g.status == RecoveryRejected ==> later.status == RecoveryRejected)
  }

  predicate NoReKey(ops: seq<Op>, grantor: nat) {
    forall i :: 0 <= i < |ops| ==> !(ops[i].ReKeyAll? && ops[i].actor == grantor)
  }

  lemma StepDescends(users: Users, w: World, op: Op, id: Id)
    requires AllOrdered(w) && FreshFor(w, op) && id in w.logs
    ensures var t := Step(users, w, op);
            && id in t.logs
            && (id in t.grants ==> id in w.grants && Descends(w.grants[id], t.grants[id]))
  {
    if id in w.grants {
      LengthByStatus(w.grants[id], w.logs[id]);
    }
  }

  lemma StepKeepsKey(users: Users, w: World, op: Op, id: Id)
    requires FreshFor(w, op) && id in w.logs && id in w.grants && !Early(w.grants[id])
    requires !(op.ReKeyAll? && op.actor == w.grants[id].grantor)
    ensures var t := Step(users, w, op);
            id in t.grants ==> t.grants[id].key == w.grants[id].key
  {
  }

  lemma RunExtends(users: Users, w: World, ops: seq<Op>)
    requires ops != [] && ValidRun(users, w, ops)
    ensures var before := ops[..|ops| - 1];
            && ValidRun(users, w, before) && FreshFor(Run(users, w, before), ops[|ops| - 1])
            && Run(users, w, ops) == Step(users, Run(users, w, before), ops[|ops| - 1])
  {
  }

  /** Through any calls a grant keeps its grantor and, once accepted, its grantee; a rejection is final,
      and an identifier never names another grant. */
  lemma {:induction false} RunDescends(users: Users, w: World, ops: seq<Op>, id: Id)
    requires AllOrdered(w) && ValidRun(users, w, ops) && id in w.logs
    ensures var t := Run(users, w, ops);
            && AllOrdered(t) && id in t.logs
            && (id in t.grants ==> id in w.grants && Descends(w.grants[id], t.grants[id]))
  {
    if ops != [] {
      var before := ops[..|ops| - 1];
      RunExtends(users, w, ops);
      RunDescends(users, w, before, id);
      StepKeepsOrder(users, Run(users, w, before), ops[|ops| - 1]);
      StepDescends(users, Run(users, w, before), ops[|ops| - 1], id);
    }
  }

  lemma {:induction false} RunKeepsKey(users: Users, w: World, ops: seq<Op>, id: Id)
    requires AllOrdered(w) && ValidRun(users, w, ops) && id in w.logs && id in w.grants && !Early(w.grants[id])
    requires NoReKey(ops, w.grants[id].grantor)
    ensures var t := Run(users, w, ops);
            id in t.grants ==> t.grants[id].key == w.grants[id].key
  {
    if ops != [] {
      var before := ops[..|ops| - 1];
      RunExtends(users, w, ops);
      RunDescends(users, w, before, id);
      RunKeepsKey(users, w, before, id);
      if id in Run(users, w, before).grants {
        StepKeepsKey(users, Run(users, w, before), ops[|ops| - 1], id);
      } else {
        StepDescends(users, Run(users, w, before), ops[|ops| - 1], id);
        RunDescends(users, w, ops, id);
      }
    }
  }

  /** The state right after ReKeyForUser. */
  function AfterReKey(users: Users, w: World, grantor: nat, newKeys: map<string, string>): World {
    Step(users, w, ReKeyAll(grantor, newKeys))
  }

  lemma ReKeyedGrant(users: Users, w: World, id: Id, newKeys: map<string, string>)
    requires AllOrdered(w) && id in w.grants && w.grants[id].key.Some?
    ensures var g, t := w.grants[id], AfterReKey(users, w, w.grants[id].grantor, newKeys);
            && AllOrdered(t) && id in t.grants && id in t.logs && !Early(t.grants[id])
            && t.grants[id] == ReKeyGrant(g, g.grantor, newKeys)
  {
    ReKeyKeepsOrder(w, w.grants[id].grantor, newKeys);
    LengthByStatus(w.grants[id], w.logs[id]);
  }

  /** Whoever reads the vault after ReKeyForUser gets the new key exactly when no request was pending at
      that call: pending grants are not listed for the new key, and can still be approved. */
  lemma ReadGetsNewKeyIff(users: Users, w: World, id: Id, newKeys: map<string, string>, ops: seq<Op>, reader: nat)
    requires AllOrdered(w) && id in w.grants && w.grants[id].key.Some?
    requires var g := w.grants[id]; g.key.value in newKeys && newKeys[g.key.value] != g.key.value
    requires ValidRun(users, AfterReKey(users, w, w.grants[id].grantor, newKeys), ops)
    requires NoReKey(ops, w.grants[id].grantor)
    requires ReadError(users, Run(users, AfterReKey(users, w, w.grants[id].grantor, newKeys), ops).grants, reader, id).None?
    ensures var g := w.grants[id];
            Run(users, AfterReKey(users, w, g.grantor, newKeys), ops).grants[id].key == Some(newKeys[g.key.value]) <==>
            g.status != RecoveryRequested
  {
    var g := w.grants[id];
    var start := AfterReKey(users, w, g.grantor, newKeys);
    ReKeyedGrant(users, w, id, newKeys);
    LengthByStatus(g, w.logs[id]);
    RunDescends(users, start, ops, id);
    RunKeepsKey(users, start, ops, id);
  }

  /** A pending request survives ReKeyForUser: the grantor's approval makes the old key readable. */
  lemma PendingRequestReadsOldKey(users: Users, w: World, id: Id, newKeys: map<string, string>, at: int)
    requires AllOrdered(w) && id in w.grants && w.grants[id].status == RecoveryRequested
    requires w.grants[id].grantor in users
    ensures var g := w.grants[id];
            var t := Step(users, AfterReKey(users, w, g.grantor, newKeys), Approve(g.grantor, id, at));
            && g.grantee.Some? && g.key.Some? && id in t.grants && t.grants[id].key == g.key
            && ReadError(users, t.grants, g.grantee.value, id).None?
  {
    LengthByStatus(w.grants[id], w.logs[id]);
  }
}

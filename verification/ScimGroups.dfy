/** Group membership through SCIM: replacing the members of a group, adding some, and removing one. */
module ScimGroups {
  import opened Wrappers
  import opened OrgTables
  import opened OrgInvariant
  import opened OrgMembership

  /** A member reference, or None when its text is no number. */
  type Refs = seq<Option<Id>>

  /** The membership a reference resolves to in an organization. */
  function ResolveOne(s: State, org: Id, ref: Option<Id>): Option<Id> {
    if ref.None? then None else FindOrgUser(s, org, ref.value)
  }

  /** The memberships the first n references resolve to. */
  function Resolved(s: State, org: Id, refs: Refs, n: nat): set<Id>
    requires n <= |refs|
  {
    if n == 0 then {}
    else
      var m := ResolveOne(s, org, refs[n - 1]);
      Resolved(s, org, refs, n - 1) + if m.Some? then {m.value} else {}
  }

  function TeamMembers(s: State, team: Id): set<Id> {
    set i | i in s.teamUsers && s.teamUsers[i].team == team :: s.teamUsers[i].orgUser
  }

  /** One row for each of the first n references that resolves to no current member. */
  function AddMissing(s: State, team: Id, refs: Refs, current: set<Id>, n: nat): (t: State)
    requires team in s.teams && n <= |refs|
    ensures t == s.(teamUsers := t.teamUsers, next := t.next) && t.next >= s.next
  {
    if n == 0 then s
    else
      var t := AddMissing(s, team, refs, current, n - 1);
      var m := ResolveOne(s, s.teams[team].org, refs[n - 1]);
      if m.Some? && m.value !in current then AddTeamUser(t, TeamUser(team, m.value, false)) else t
  }

  function DropUnlisted(s: State, team: Id, before: map<Id, TeamUser>, desired: set<Id>): State {
    s.(teamUsers := map i | i in s.teamUsers && !(i in before && before[i].team == team && before[i].orgUser !in desired)
                      :: s.teamUsers[i])
  }

  function Sync(s: State, team: Id, refs: Refs): State
    requires team in s.teams
  {
    DropUnlisted(AddMissing(s, team, refs, TeamMembers(s, team), |refs|), team, s.teamUsers,
                 Resolved(s, s.teams[team].org, refs, |refs|))
  }

  // ---- calls ----

  function CreateGroup(s: State, org: Id, name: string): Outcome {
    Done(AddTeam(s, Team(org, name, false)))
  }

  function UpdateGroup(s: State, org: Id, team: Id, name: string, refs: Refs): Outcome {
    if !TeamOf(s, team, org) then Fail(s, NotFound)
    else Done(Sync(s.(teams := s.teams[team := s.teams[team].(name := name)]), team, refs))
  }

  /** Adding does not look at who is a member already. */
  function AddToGroup(s: State, org: Id, team: Id, refs: Refs): Outcome {
    if !TeamOf(s, team, org) then Fail(s, NotFound)
    else Done(AddMissing(s, team, refs, {}, |refs|))
  }

  function RemoveFromGroup(s: State, org: Id, team: Id, ref: Option<Id>): Outcome {
    if !TeamOf(s, team, org) then Fail(s, NotFound)
    else
      var m := ResolveOne(s, org, ref);
      Done(if m.None? then s else DeleteTeamUsers(s, team, m.value))
  }

  function DeleteGroup(s: State, org: Id, team: Id): Outcome {
    if !TeamOf(s, team, org) then Fail(s, NotFound) else Done(DeleteTeam(s, team))
  }

  // ---- lookups do not see new team rows ----

  lemma {:induction false} FirstIdStable<T>(rows: map<Id, T>, p: T -> bool, low: nat, high: nat, higher: nat)
    requires high <= higher && Below(rows, high)
    ensures FirstId(rows, p, low, high) == FirstId(rows, p, low, higher)
    decreases higher - low
  {
    if low < higher && !(low in rows && p(rows[low])) {
      FirstIdStable(rows, p, low + 1, high, higher);
    }
  }

  lemma ResolveStable(s: State, t: State, org: Id, ref: Option<Id>)
    requires Below(s.orgUsers, s.next) && t.orgUsers == s.orgUsers && t.next >= s.next
    ensures ResolveOne(t, org, ref) == ResolveOne(s, org, ref)
  {
    if ref.Some? {
      FirstIdStable(s.orgUsers, (m: OrgUser) => m.org == org && m.user == ref.value, 0, s.next, t.next);
    }
  }

  lemma {:induction false} ResolvedStable(s: State, t: State, org: Id, refs: Refs, n: nat)
    requires Below(s.orgUsers, s.next) && t.orgUsers == s.orgUsers && t.next >= s.next && n <= |refs|
    ensures Resolved(t, org, refs, n) == Resolved(s, org, refs, n)
  {
    if n > 0 {
      ResolvedStable(s, t, org, refs, n - 1);
      ResolveStable(s, t, org, refs[n - 1]);
    }
  }

  lemma {:induction false} ResolvedHolds(s: State, org: Id, refs: Refs, n: nat, k: nat)
    requires k < n <= |refs| && ResolveOne(s, org, refs[k]).Some?
    ensures ResolveOne(s, org, refs[k]).value in Resolved(s, org, refs, n)
  {
    if k < n - 1 {
      ResolvedHolds(s, org, refs, n - 1, k);
    }
  }

  // ---- what replacing the members does ----

  /** Old rows stay, and the new ones bring in exactly the resolved references that were missing. */
  lemma {:induction false} AddMissingRows(s: State, team: Id, refs: Refs, current: set<Id>, n: nat)
    requires team in s.teams && n <= |refs| && Below(s.teamUsers, s.next)
    ensures var t := AddMissing(s, team, refs, current, n);
            && Below(t.teamUsers, t.next)
            && (forall i :: i in s.teamUsers ==> i in t.teamUsers && t.teamUsers[i] == s.teamUsers[i])
            && (forall i :: i in t.teamUsers && i !in s.teamUsers ==>
                  t.teamUsers[i].team == team && t.teamUsers[i].orgUser in Resolved(s, s.teams[team].org, refs, n) - current)
  {
    if n > 0 {
      AddMissingRows(s, team, refs, current, n - 1);
    }
  }

  lemma {:induction false} AddMissingMembers(s: State, team: Id, refs: Refs, current: set<Id>, n: nat)
    requires team in s.teams && n <= |refs| && Below(s.teamUsers, s.next)
    ensures TeamMembers(AddMissing(s, team, refs, current, n), team) ==
            TeamMembers(s, team) + (Resolved(s, s.teams[team].org, refs, n) - current)
  {
    if n > 0 {
      AddMissingMembers(s, team, refs, current, n - 1);
      AddMissingRows(s, team, refs, current, n - 1);
      var t, m := AddMissing(s, team, refs, current, n - 1), ResolveOne(s, s.teams[team].org, refs[n - 1]);
      if m.Some? && m.value !in current {
        MembersWithRow(t, TeamUser(team, m.value, false));
      }
    }
  }

  lemma MembersWithRow(s: State, r: TeamUser)
    requires Below(s.teamUsers, s.next)
    ensures TeamMembers(AddTeamUser(s, r), r.team) == TeamMembers(s, r.team) + {r.orgUser}
  {
    var t := AddTeamUser(s, r);
    assert forall i :: i in s.teamUsers ==> i in t.teamUsers && t.teamUsers[i] == s.teamUsers[i];
    assert s.next in t.teamUsers && t.teamUsers[s.next] == r;
  }

  /** Main result: afterwards the members of the group are exactly the listed references that resolve in
      its organization. */
  lemma SyncReachesTarget(s: State, team: Id, refs: Refs)
    requires Valid(s) && team in s.teams
    ensures TeamMembers(Sync(s, team, refs), team) == Resolved(s, s.teams[team].org, refs, |refs|)
  {
    var current, desired := TeamMembers(s, team), Resolved(s, s.teams[team].org, refs, |refs|);
    var t, u := AddMissing(s, team, refs, current, |refs|), Sync(s, team, refs);
    AddMissingMembers(s, team, refs, current, |refs|);
    AddMissingRows(s, team, refs, current, |refs|);
    forall m | m in desired
      ensures m in TeamMembers(u, team)
    {
      assert m in TeamMembers(t, team);
      var i :| i in t.teamUsers && t.teamUsers[i].team == team && t.teamUsers[i].orgUser == m;
      assert i in u.teamUsers && u.teamUsers[i] == t.teamUsers[i];
    }
  }

  /** The rows of members who stay, and of other teams, are untouched, and the leavers' rows are gone. */
  lemma SyncKeepsStayers(s: State, team: Id, refs: Refs, i: Id)
    requires Valid(s) && team in s.teams && i in s.teamUsers
    ensures var u := Sync(s, team, refs);
            if s.teamUsers[i].team != team || s.teamUsers[i].orgUser in Resolved(s, s.teams[team].org, refs, |refs|)
            then i in u.teamUsers && u.teamUsers[i] == s.teamUsers[i]
            else i !in u.teamUsers
  {
    AddMissingRows(s, team, refs, TeamMembers(s, team), |refs|);
  }

  lemma {:induction false} NothingMissing(s: State, team: Id, refs: Refs, current: set<Id>, n: nat)
    requires team in s.teams && n <= |refs| && Resolved(s, s.teams[team].org, refs, n) <= current
    ensures AddMissing(s, team, refs, current, n) == s
  {
    if n > 0 {
      NothingMissing(s, team, refs, current, n - 1);
    }
  }

  /** A second identical call changes nothing at all. */
  lemma SyncAgainIsIdentity(s: State, team: Id, refs: Refs)
    requires Valid(s) && team in s.teams
    ensures Sync(Sync(s, team, refs), team, refs) == Sync(s, team, refs)
  {
    var u := Sync(s, team, refs);
    SyncReachesTarget(s, team, refs);
    ResolvedStable(s, u, s.teams[team].org, refs, |refs|);
    NothingMissing(u, team, refs, TeamMembers(u, team), |refs|);
    assert forall i :: i in u.teamUsers && u.teamUsers[i].team == team ==> u.teamUsers[i].orgUser in TeamMembers(u, team);
    assert DropUnlisted(u, team, u.teamUsers, TeamMembers(u, team)).teamUsers == u.teamUsers;
  }

  // ---- one row per member ----

  predicate SameMember(a: TeamUser, b: TeamUser, team: Id) {
    a.team == b.team == team && a.orgUser == b.orgUser
  }

  predicate OneRowEach(s: State, team: Id) {
    forall i, j :: i in s.teamUsers && j in s.teamUsers && SameMember(s.teamUsers[i], s.teamUsers[j], team) ==> i == j
  }

  /** No reference among the first n brings in a member that is there already or comes in earlier. */
  predicate NoRepeat(s: State, team: Id, refs: Refs, current: set<Id>, n: nat)
    requires team in s.teams && n <= |refs|
  {
    n > 0 ==>
      var m := ResolveOne(s, s.teams[team].org, refs[n - 1]);
      && NoRepeat(s, team, refs, current, n - 1)
      && (m.Some? && m.value !in current ==>
            m.value !in TeamMembers(s, team) + (Resolved(s, s.teams[team].org, refs, n - 1) - current))
  }

  lemma OneMoreRow(s: State, r: TeamUser)
    requires Below(s.teamUsers, s.next)
    ensures OneRowEach(AddTeamUser(s, r), r.team) <==> OneRowEach(s, r.team) && r.orgUser !in TeamMembers(s, r.team)
  {
    var t := AddTeamUser(s, r);
    assert t.teamUsers[s.next] == r && s.next !in s.teamUsers;
    assert forall i :: i in s.teamUsers ==> t.teamUsers[i] == s.teamUsers[i];
  }

  /** The table lets a group hold a member twice. Adding references keeps one row each exactly when none
      of them names a member who is there already or who was named before. */
  lemma {:induction false} OneRowEachIff(s: State, team: Id, refs: Refs, current: set<Id>, n: nat)
    requires team in s.teams && n <= |refs| && Below(s.teamUsers, s.next) && OneRowEach(s, team)
    ensures OneRowEach(AddMissing(s, team, refs, current, n), team) <==> NoRepeat(s, team, refs, current, n)
  {
    if n > 0 {
      OneRowEachIff(s, team, refs, current, n - 1);
      AddMissingMembers(s, team, refs, current, n - 1);
      AddMissingRows(s, team, refs, current, n - 1);
      var t, m := AddMissing(s, team, refs, current, n - 1), ResolveOne(s, s.teams[team].org, refs[n - 1]);
      if m.Some? && m.value !in current {
        OneMoreRow(t, TeamUser(team, m.value, false));
      }
    }
  }

  /** Adding someone who is a member already always makes a second row. */
  lemma AddingMemberAgain(s: State, team: Id, user: Id)
    requires Valid(s) && team in s.teams && FindOrgUser(s, s.teams[team].org, user).Some?
    requires FindOrgUser(s, s.teams[team].org, user).value in TeamMembers(s, team)
    ensures !OneRowEach(AddMissing(s, team, [Some(user)], {}, 1), team)
  {
    var m := FindOrgUser(s, s.teams[team].org, user).value;
    OneMoreRow(s, TeamUser(team, m, false));
    assert AddMissing(s, team, [Some(user)], {}, 1) == AddTeamUser(s, TeamUser(team, m, false)) by {
      assert AddMissing(s, team, [Some(user)], {}, 0) == s;
    }
  }
}

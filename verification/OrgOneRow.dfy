/** One row per member of a team: which runs keep it, although the table does not enforce it. */
module OrgOneRow {
  import opened Wrappers
  import opened Members
  import opened OrgTables
  import opened OrgInvariant
  import opened OrgMembership
  import opened OrgSharing
  import opened ScimGroups
  import opened OrgRuns

  /** No team holds a member twice. */
  predicate UniqueTeamUsers(rows: map<Id, TeamUser>) {
    forall i, j :: i in rows && j in rows && rows[i].team == rows[j].team && rows[i].orgUser == rows[j].orgUser ==> i == j
  }

  // ---- row changes ----

  lemma FewerStayUnique(rows: map<Id, TeamUser>, fewer: map<Id, TeamUser>)
    requires UniqueTeamUsers(rows) && forall i :: i in fewer ==> i in rows && fewer[i] == rows[i]
    ensures UniqueTeamUsers(fewer)
  {
  }

  lemma NewStaysUnique(s: State, r: TeamUser)
    requires Below(s.teamUsers, s.next) && UniqueTeamUsers(s.teamUsers) && FindTeamUser(s, r.team, r.orgUser).None?
    ensures UniqueTeamUsers(AddTeamUser(s, r).teamUsers)
  {
    TeamUserFound(s, r.team, r.orgUser);
  }

  lemma JoinStaysUnique(s: State, org: Id, id: Id)
    requires Valid(s) && UniqueTeamUsers(s.teamUsers)
    ensures UniqueTeamUsers(EnsureInDefaultTeam(s, org, id).teamUsers)
  {
    var (t, team) := EnsureDefaultTeam(s, org);
    if FindTeamUser(t, team, id).None? {
      NewStaysUnique(t, TeamUser(team, id, false));
    }
  }

  // ---- groups ----

  /** Whether one group call adds no member twice. */
  predicate SafeGroupStep(s: State, step: GroupStep) {
    match step
    case AddToGroupStep(org, id, refs) => TeamOf(s, id, org) ==> NoRepeat(s, id, refs, {}, |refs|)
    case UpdateGroupStep(org, id, name, refs) =>
      TeamOf(s, id, org) ==>
        var t := s.(teams := s.teams[id := s.teams[id].(name := name)]);
        NoRepeat(t, id, refs, TeamMembers(t, id), |refs|)
    case _ => true
  }

  predicate SafeStep(s: State, step: Step) {
    step.OnGroup? ==> SafeGroupStep(s, step.g)
  }

  /** Rows of one team are added to unique rows: all rows stay unique when that team's do. */
  lemma UniqueByTeam(s: State, rows: map<Id, TeamUser>, team: Id)
    requires UniqueTeamUsers(s.teamUsers)
    requires forall i :: i in rows && rows[i].team != team ==> i in s.teamUsers && rows[i] == s.teamUsers[i]
    ensures UniqueTeamUsers(rows) <==> OneRowEach(s.(teamUsers := rows), team)
  {
  }

  lemma UniqueGivesOneRow(s: State, team: Id)
    requires UniqueTeamUsers(s.teamUsers)
    ensures OneRowEach(s, team)
  {
  }

  lemma AddingUniqueIff(s: State, team: Id, refs: Refs, current: set<Id>)
    requires Valid(s) && team in s.teams && UniqueTeamUsers(s.teamUsers)
    ensures UniqueTeamUsers(AddMissing(s, team, refs, current, |refs|).teamUsers) <==> NoRepeat(s, team, refs, current, |refs|)
  {
    var t := AddMissing(s, team, refs, current, |refs|);
    AddMissingRows(s, team, refs, current, |refs|);
    UniqueGivesOneRow(s, team);
    OneRowEachIff(s, team, refs, current, |refs|);
    UniqueByTeam(s, t.teamUsers, team);
    assert OneRowEach(s.(teamUsers := t.teamUsers), team) <==> OneRowEach(t, team);
  }

  /** Dropping the members who are not wanted cannot undo a repetition: a member named twice is wanted. */
  lemma {:induction false} DroppedIsNotRepeated(s: State, team: Id, refs: Refs, i: Id)
    requires Valid(s) && team in s.teams
    requires var t := AddMissing(s, team, refs, TeamMembers(s, team), |refs|);
             i in t.teamUsers && i !in Sync(s, team, refs).teamUsers
    ensures i in s.teamUsers && s.teamUsers[i].team == team
    ensures s.teamUsers[i].orgUser !in Resolved(s, s.teams[team].org, refs, |refs|)
  {
    AddMissingRows(s, team, refs, TeamMembers(s, team), |refs|);
  }

  lemma SyncUniqueIff(s: State, team: Id, refs: Refs)
    requires Valid(s) && team in s.teams && UniqueTeamUsers(s.teamUsers)
    ensures UniqueTeamUsers(Sync(s, team, refs).teamUsers) <==> NoRepeat(s, team, refs, TeamMembers(s, team), |refs|)
  {
    var t, u := AddMissing(s, team, refs, TeamMembers(s, team), |refs|), Sync(s, team, refs);
    AddingUniqueIff(s, team, refs, TeamMembers(s, team));
    AddMissingRows(s, team, refs, TeamMembers(s, team), |refs|);
    if UniqueTeamUsers(t.teamUsers) {
      FewerStayUnique(t.teamUsers, u.teamUsers);
    } else {
      var i, j :| i in t.teamUsers && j in t.teamUsers && t.teamUsers[i].team == t.teamUsers[j].team
                  && t.teamUsers[i].orgUser == t.teamUsers[j].orgUser && i != j;
      RepeatedIsKept(s, team, refs, i, j);
    }
  }

  /** Of two rows of one member at least one is new, so the member is wanted and both rows stay. */
  lemma RepeatedIsKept(s: State, team: Id, refs: Refs, i: Id, j: Id)
    requires Valid(s) && team in s.teams && UniqueTeamUsers(s.teamUsers) && i != j
    requires var t := AddMissing(s, team, refs, TeamMembers(s, team), |refs|);
             i in t.teamUsers && j in t.teamUsers && t.teamUsers[i].team == t.teamUsers[j].team
             && t.teamUsers[i].orgUser == t.teamUsers[j].orgUser
    ensures var u := Sync(s, team, refs);
            i in u.teamUsers && j in u.teamUsers && u.teamUsers[i].team == u.teamUsers[j].team
            && u.teamUsers[i].orgUser == u.teamUsers[j].orgUser
  {
    AddMissingRows(s, team, refs, TeamMembers(s, team), |refs|);
    if i !in Sync(s, team, refs).teamUsers {
      DroppedIsNotRepeated(s, team, refs, i);
    }
    if j !in Sync(s, team, refs).teamUsers {
      DroppedIsNotRepeated(s, team, refs, j);
    }
  }

  lemma AddToGroupUniqueIff(s: State, org: Id, id: Id, refs: Refs)
    requires Valid(s) && UniqueTeamUsers(s.teamUsers)
    ensures UniqueTeamUsers(AddToGroup(s, org, id, refs).0.teamUsers) <==> SafeGroupStep(s, AddToGroupStep(org, id, refs))
  {
    if TeamOf(s, id, org) {
      AddingUniqueIff(s, id, refs, {});
    }
  }

  lemma UpdateGroupUniqueIff(s: State, org: Id, id: Id, name: string, refs: Refs)
    requires Valid(s) && UniqueTeamUsers(s.teamUsers)
    ensures UniqueTeamUsers(UpdateGroup(s, org, id, name, refs).0.teamUsers)
            <==> SafeGroupStep(s, UpdateGroupStep(org, id, name, refs))
  {
    if TeamOf(s, id, org) {
      RenamedTeam(s, id, name);
      SyncUniqueIff(s.(teams := s.teams[id := s.teams[id].(name := name)]), id, refs);
    }
  }

  lemma RemoveFromGroupKeepsUnique(s: State, org: Id, id: Id, reference: Option<Id>)
    requires UniqueTeamUsers(s.teamUsers)
    ensures UniqueTeamUsers(RemoveFromGroup(s, org, id, reference).0.teamUsers)
  {
    FewerStayUnique(s.teamUsers, RemoveFromGroup(s, org, id, reference).0.teamUsers);
  }

  lemma DeletedTeamKeepsUnique(s: State, id: Id)
    requires UniqueTeamUsers(s.teamUsers)
    ensures UniqueTeamUsers(DeleteTeam(s, id).teamUsers)
  {
    FewerStayUnique(s.teamUsers, DeleteTeam(s, id).teamUsers);
  }

  lemma GroupCallUniqueIff(s: State, step: GroupStep)
    requires Valid(s) && UniqueTeamUsers(s.teamUsers)
    ensures UniqueTeamUsers(GroupCall(s, step).0.teamUsers) <==> SafeGroupStep(s, step)
  {
    match step
    case AddToGroupStep(org, id, refs) => AddToGroupUniqueIff(s, org, id, refs);
    case UpdateGroupStep(org, id, name, refs) => UpdateGroupUniqueIff(s, org, id, name, refs);
    case RemoveFromGroupStep(org, id, reference) => RemoveFromGroupKeepsUnique(s, org, id, reference);
    case DeleteGroupStep(org, id) => DeletedTeamKeepsUnique(s, id);
    case CreateGroupStep(_, _) =>
  }

  // ---- the other calls ----

  lemma CreateOrgKeepsUnique(s: State, user: Id, key: string, known: bool, planFound: bool)
    requires Valid(s) && UniqueTeamUsers(s.teamUsers)
    ensures UniqueTeamUsers(CreateOrg(s, user, key, known, planFound).0.teamUsers)
  {
    NewOrgKeepsUnique(s, user, key);
    FewerStayUnique(NewOrg(s, user, key).teamUsers, PurgeOrg(NewOrg(s, user, key), s.next).teamUsers);
  }

  lemma NewOrgKeepsUnique(s: State, user: Id, key: string)
    requires Valid(s) && UniqueTeamUsers(s.teamUsers)
    ensures UniqueTeamUsers(NewOrg(s, user, key).teamUsers)
  {
    var a := AddOrg(s, Org(false, false));
    var m := OrgUser(s.next, user, Owner, true, Confirmed, key);
    NewOrgRow(s, Org(false, false));
    OrgUserFound(a, s.next, user);
    NewOrgUser(a, m);
    var b := AddOrgUser(a, m);
    DefaultsKeep(b, s.next);
    JoinStaysUnique(EnsureDefaults(b, s.next), s.next, a.next);
  }

  lemma EnrollKeepsUnique(s: State, m: OrgUser)
    requires Valid(s) && UniqueTeamUsers(s.teamUsers) && m.org in s.orgs && FindOrgUser(s, m.org, m.user).None?
    ensures UniqueTeamUsers(EnsureInDefaultTeam(AddOrgUser(s, m), m.org, s.next).teamUsers)
    ensures UniqueTeamUsers(Enroll(s, m).teamUsers)
  {
    NewOrgUser(s, m);
    JoinStaysUnique(AddOrgUser(s, m), m.org, s.next);
  }

  lemma InviteKeepsUnique(s: State, org: Id, user: Id, role: Role, all: bool, key: string, invitee: Option<Id>,
                          limit: Option<nat>, enforcing: set<Id>, invited: bool)
    requires Valid(s) && UniqueTeamUsers(s.teamUsers)
    ensures UniqueTeamUsers(InviteUser(s, org, user, role, all, key, invitee, limit, enforcing, invited).0.teamUsers)
  {
    if InviteError(s, org, user, role, invitee, limit, enforcing, invited).None? {
      EnrollKeepsUnique(s, OrgUser(org, invitee.value, role, all, Invited, key));
    }
  }

  lemma DeletedOrgUserTeamUsers(s: State, id: Id)
    requires UniqueTeamUsers(s.teamUsers)
    ensures UniqueTeamUsers(DeleteOrgUser(s, id).teamUsers)
  {
    FewerStayUnique(s.teamUsers, DeleteOrgUser(s, id).teamUsers);
  }

  lemma DeleteOrgKeepsUnique(s: State, org: Id, user: Id)
    requires UniqueTeamUsers(s.teamUsers)
    ensures UniqueTeamUsers(DeleteOrg(s, org, user).0.teamUsers)
  {
    if org in s.orgs {
      FewerStayUnique(s.teamUsers, PurgeOrg(s, org).teamUsers);
    }
  }

  lemma RoleKeepsUnique(s: State, org: Id, id: Id, user: Id, role: Role, all: Option<bool>)
    ensures UpdateMemberRole(s, org, id, user, role, all).0.teamUsers == s.teamUsers
  {
  }

  lemma RemoveKeepsUnique(s: State, org: Id, id: Id, user: Id)
    requires UniqueTeamUsers(s.teamUsers)
    ensures UniqueTeamUsers(RemoveMember(s, org, id, user).0.teamUsers)
  {
    DeletedOrgUserTeamUsers(s, id);
  }

  lemma OrgCallKeepsUnique(s: State, step: OrgStep)
    requires Valid(s) && UniqueTeamUsers(s.teamUsers)
    ensures UniqueTeamUsers(OrgCall(s, step).0.teamUsers)
  {
    match step
    case CreateOrgStep(user, key, known, planFound) => CreateOrgKeepsUnique(s, user, key, known, planFound);
    case DeleteOrgStep(org, user) => DeleteOrgKeepsUnique(s, org, user);
    case InviteStep(org, user, role, all, key, invitee, limit, enforcing, invited) =>
      InviteKeepsUnique(s, org, user, role, all, key, invitee, limit, enforcing, invited);
    case RoleStep(org, id, user, role, all) => RoleKeepsUnique(s, org, id, user, role, all);
    case RemoveStep(org, id, user) => RemoveKeepsUnique(s, org, id, user);
  }

  /** A membership whose role, status or key changed and that then joins the default team. */
  lemma ChangeKeepsUnique(s: State, id: Id, m: OrgUser)
    requires Valid(s) && UniqueTeamUsers(s.teamUsers)
    requires id in s.orgUsers && m.org == s.orgUsers[id].org && m.user == s.orgUsers[id].user
    ensures UniqueTeamUsers(EnsureInDefaultTeam(s.(orgUsers := s.orgUsers[id := m]), m.org, id).teamUsers)
  {
    ChangedOrgUser(s, id, m);
    JoinStaysUnique(s.(orgUsers := s.orgUsers[id := m]), m.org, id);
  }

  lemma AcceptKeepsUnique(s: State, id: Id, user: Id, key: string, enforcing: set<Id>)
    requires Valid(s) && UniqueTeamUsers(s.teamUsers)
    ensures UniqueTeamUsers(AcceptInvitation(s, id, user, key, enforcing).0.teamUsers)
  {
    if id in s.orgUsers {
      ChangeKeepsUnique(s, id, s.orgUsers[id].(key := key, status := Accepted));
    }
  }

  lemma ConfirmKeepsUnique(s: State, org: Id, id: Id, user: Id, key: string)
    requires Valid(s) && UniqueTeamUsers(s.teamUsers)
    ensures UniqueTeamUsers(ConfirmProvisionedMember(s, org, id, user, key).0.teamUsers)
  {
    if id in s.orgUsers {
      ChangeKeepsUnique(s, id, s.orgUsers[id].(key := key, status := Confirmed));
    }
  }

  lemma AddExistingKeepsUnique(s: State, row: OrgUser)
    requires Valid(s) && UniqueTeamUsers(s.teamUsers)
    ensures UniqueTeamUsers(AddExistingMember(s, row).0.teamUsers)
  {
    if row.org in s.orgs && FindOrgUser(s, row.org, row.user).None? {
      EnrollKeepsUnique(s, row);
    }
  }

  lemma DeclineKeepsUnique(s: State, org: Id, user: Id)
    requires UniqueTeamUsers(s.teamUsers)
    ensures UniqueTeamUsers(DeclineInvitationForUser(s, org, user).0.teamUsers)
  {
    if FindOrgUser(s, org, user).Some? {
      DeletedOrgUserTeamUsers(s, FindOrgUser(s, org, user).value);
    }
  }

  lemma MemberCallKeepsUnique(s: State, step: MemberStep)
    requires Valid(s) && UniqueTeamUsers(s.teamUsers)
    ensures UniqueTeamUsers(MemberCall(s, step).0.teamUsers)
  {
    match step
    case AcceptStep(id, user, key, enforcing) => AcceptKeepsUnique(s, id, user, key, enforcing);
    case ConfirmStep(org, id, user, key) => ConfirmKeepsUnique(s, org, id, user, key);
    case AddExistingStep(row) => AddExistingKeepsUnique(s, row);
    case DeclineStep(org, user) => DeclineKeepsUnique(s, org, user);
  }

  lemma ScimUserCallKeepsUnique(s: State, step: ScimUserStep)
    requires UniqueTeamUsers(s.teamUsers)
    ensures UniqueTeamUsers(ScimUserCall(s, step).0.teamUsers)
  {
    if step.DeleteScimUserStep? && FindOrgUser(s, step.org, step.user).Some? {
      DeletedOrgUserTeamUsers(s, FindOrgUser(s, step.org, step.user).value);
    }
  }

  lemma AddTeamMemberKeepsUnique(s: State, team: Id, user: Id, target: Id, manager: bool)
    requires Valid(s) && UniqueTeamUsers(s.teamUsers)
    ensures UniqueTeamUsers(AddTeamMember(s, team, user, target, manager).0.teamUsers)
  {
    if FindTeamUser(s, team, target).None? {
      NewStaysUnique(s, TeamUser(team, target, manager));
    }
  }

  lemma FlagKeepsUnique(s: State, row: Id, manager: bool)
    requires UniqueTeamUsers(s.teamUsers) && row in s.teamUsers
    ensures UniqueTeamUsers(s.teamUsers[row := s.teamUsers[row].(manager := manager)])
  {
  }

  lemma RemoveTeamKeepsUnique(s: State, id: Id, user: Id)
    requires UniqueTeamUsers(s.teamUsers)
    ensures UniqueTeamUsers(RemoveTeam(s, id, user).0.teamUsers)
  {
    DeletedTeamKeepsUnique(s, id);
  }

  lemma RemoveTeamMemberKeepsUnique(s: State, id: Id, member: Id, user: Id)
    requires UniqueTeamUsers(s.teamUsers)
    ensures UniqueTeamUsers(RemoveTeamMember(s, id, member, user).0.teamUsers)
  {
    FewerStayUnique(s.teamUsers, s.teamUsers - {member});
  }

  lemma UpdateTeamMemberKeepsUnique(s: State, id: Id, member: Id, user: Id, manager: bool)
    requires UniqueTeamUsers(s.teamUsers)
    ensures UniqueTeamUsers(UpdateTeamMember(s, id, member, user, manager).0.teamUsers)
  {
    if member in s.teamUsers {
      FlagKeepsUnique(s, member, manager);
    }
  }

  lemma TeamCallKeepsUnique(s: State, step: TeamStep)
    requires Valid(s) && UniqueTeamUsers(s.teamUsers)
    ensures UniqueTeamUsers(TeamCall(s, step).0.teamUsers)
  {
    match step
    case AddTeamMemberStep(id, user, target, manager) => AddTeamMemberKeepsUnique(s, id, user, target, manager);
    case UpdateTeamMemberStep(id, member, user, manager) => UpdateTeamMemberKeepsUnique(s, id, member, user, manager);
    case RemoveTeamMemberStep(id, member, user) => RemoveTeamMemberKeepsUnique(s, id, member, user);
    case RemoveTeamStep(id, user) => RemoveTeamKeepsUnique(s, id, user);
    case CreateTeamStep(_, _, _) =>
  }

  lemma CollectionCallSameTeamUsers(s: State, step: CollectionStep)
    ensures CollectionCall(s, step).0.teamUsers == s.teamUsers
  {
  }

  lemma ItemCallSameTeamUsers(s: State, step: ItemStep)
    ensures ItemCall(s, step).0.teamUsers == s.teamUsers
  {
  }

  /** A call keeps one row per member in every team exactly when it is no group call that adds a member
      who is there or names one twice. */
  lemma CallUniqueIff(s: State, step: Step)
    requires Valid(s) && UniqueTeamUsers(s.teamUsers)
    ensures UniqueTeamUsers(Call(s, step).0.teamUsers) <==> SafeStep(s, step)
  {
    match step
    case OnOrg(o) => OrgCallKeepsUnique(s, o);
    case OnMember(m) => MemberCallKeepsUnique(s, m);
    case OnScimUser(u) => ScimUserCallKeepsUnique(s, u);
    case OnTeam(t) => TeamCallKeepsUnique(s, t);
    case OnGroup(g) => GroupCallUniqueIff(s, g);
    case OnCollection(c) => CollectionCallSameTeamUsers(s, c);
    case OnItem(i) => ItemCallSameTeamUsers(s, i);
  }

  // ---- runs ----

  predicate SafeUpTo(states: seq<State>, steps: seq<Step>, k: nat)
    requires k <= |steps| < |states|
  {
    forall i {:trigger steps[i]} :: 0 <= i < k ==> SafeStep(states[i], steps[i])
  }

  predicate UniqueUpTo(states: seq<State>, k: nat)
    requires k < |states|
  {
    forall i :: 0 <= i <= k ==> UniqueTeamUsers(states[i].teamUsers)
  }

  /** Main result: a run keeps every team at one row per member in all its states exactly when none of its
      group calls adds a member who is there or names one twice. */
  lemma {:induction false} RunUniqueIff(states: seq<State>, steps: seq<Step>, k: nat)
    requires IsRun(states, steps) && Valid(states[0]) && UniqueTeamUsers(states[0].teamUsers) && k <= |steps|
    ensures UniqueUpTo(states, k) <==> SafeUpTo(states, steps, k)
  {
    if k > 0 {
      RunUniqueIff(states, steps, k - 1);
      if UniqueUpTo(states, k - 1) {
        RunKeepsValid(states, steps, k - 1);
        CallUniqueIff(states[k - 1], steps[k - 1]);
        NextUniqueIff(states, steps, k - 1);
      }
    }
  }

  lemma NextUniqueIff(states: seq<State>, steps: seq<Step>, k: nat)
    requires k < |steps| < |states| && UniqueUpTo(states, k) && SafeUpTo(states, steps, k)
    requires UniqueTeamUsers(states[k + 1].teamUsers) <==> SafeStep(states[k], steps[k])
    ensures UniqueUpTo(states, k + 1) <==> SafeUpTo(states, steps, k + 1)
  {
    if SafeUpTo(states, steps, k + 1) {
      assert SafeStep(states[k], steps[k]);
    }
  }
}

/** What accepted calls on the organization graph leave behind, row by row, and that refused ones leave
    everything as it was. */
module OrgEffects {
  import opened Wrappers
  import opened Members
  import opened OrgTables
  import opened OrgInvariant
  import opened OrgMembership
  import opened OrgSharing
  import opened ScimGroups
  import opened OrgRuns
  import opened OrgAcceptance
  import CA = CollectionAccess

  // ---- refusals ----

  /** The two calls that can fail after a change. */
  predicate MayFailLate(step: Step) {
    (step.OnOrg? && step.o.CreateOrgStep?) || (step.OnItem? && step.i.CreateItemStep? && step.i.collection.None?)
  }

  lemma RefusalChangesNothing(s: State, step: Step)
    requires Call(s, step).1.Some? && !MayFailLate(step)
    ensures Call(s, step).0 == s
  {
    match step
    case OnOrg(c) => RefusedOrgCall(s, c);
    case OnMember(c) => RefusedMemberCall(s, c);
    case OnScimUser(c) => RefusedScimUserCall(s, c);
    case OnTeam(c) => RefusedTeamCall(s, c);
    case OnGroup(c) => RefusedGroupCall(s, c);
    case OnCollection(c) => RefusedCollectionCall(s, c);
    case OnItem(c) => RefusedItemCall(s, c);
  }

  lemma RefusedOrgCall(s: State, c: OrgStep)
    requires !c.CreateOrgStep? && OrgCall(s, c).1.Some?
    ensures OrgCall(s, c).0 == s
  {
  }

  lemma RefusedMemberCall(s: State, c: MemberStep)
    requires MemberCall(s, c).1.Some?
    ensures MemberCall(s, c).0 == s
  {
  }

  lemma RefusedScimUserCall(s: State, c: ScimUserStep)
    requires ScimUserCall(s, c).1.Some?
    ensures ScimUserCall(s, c).0 == s
  {
  }

  lemma RefusedTeamCall(s: State, c: TeamStep)
    requires TeamCall(s, c).1.Some?
    ensures TeamCall(s, c).0 == s
  {
  }

  lemma RefusedGroupCall(s: State, c: GroupStep)
    requires GroupCall(s, c).1.Some?
    ensures GroupCall(s, c).0 == s
  {
  }

  lemma RefusedCollectionCall(s: State, c: CollectionStep)
    requires CollectionCall(s, c).1.Some?
    ensures CollectionCall(s, c).0 == s
  {
  }

  lemma RefusedItemCall(s: State, c: ItemStep)
    requires ItemCall(s, c).1.Some? && !(c.CreateItemStep? && c.collection.None?)
    ensures ItemCall(s, c).0 == s
  {
  }

  // ---- defaults ----

  /** Every row is still there, and the new ones are defaults of one organization: a default team, a
      default collection, the team's read access to it, and one membership in the team. */
  predicate AddsDefaults(s: State, t: State, org: Id, id: Id) {
    && t.orgs == s.orgs && t.orgUsers == s.orgUsers && t.userGrants == s.userGrants && t.items == s.items
    && AddsTeams(s.teams, t.teams, org) && AddsCollections(s.collections, t.collections, org)
    && AddsTeamUsers(s.teamUsers, t.teamUsers, t.teams, org, id) && AddsTeamGrants(s.teamGrants, t.teamGrants)
  }

  predicate AddsTeams(a: map<Id, Team>, b: map<Id, Team>, org: Id) {
    && (forall i :: i in a ==> i in b && b[i] == a[i])
    && (forall i :: i in b && i !in a ==> b[i] == Team(org, "All Members", true))
  }

  predicate AddsCollections(a: map<Id, Collection>, b: map<Id, Collection>, org: Id) {
    && (forall i :: i in a ==> i in b && b[i] == a[i])
    && (forall i :: i in b && i !in a ==> b[i] == Collection(org, "General", true, false))
  }

  predicate AddsTeamUsers(a: map<Id, TeamUser>, b: map<Id, TeamUser>, teams: map<Id, Team>, org: Id, id: Id) {
    && (forall i :: i in a ==> i in b && b[i] == a[i])
    && (forall i :: i in b && i !in a ==> b[i].orgUser == id && !b[i].manager
                                          && b[i].team in teams && teams[b[i].team].org == org && teams[b[i].team].isDefault)
  }

  predicate AddsTeamGrants(a: map<Id, CollectionTeam>, b: map<Id, CollectionTeam>) {
    && (forall i :: i in a ==> i in b && b[i] == a[i])
    && (forall i :: i in b && i !in a ==> b[i].access == Access(true, false, false, false))
  }

  lemma NothingAdds(s: State, org: Id, id: Id)
    ensures AddsDefaults(s, s, org, id)
  {
  }

  lemma NewTeamAdds(s: State, org: Id, id: Id)
    requires Below(s.teams, s.next)
    ensures AddsDefaults(s, AddTeam(s, Team(org, DEFAULT_TEAM, true)), org, id)
  {
  }

  lemma TeamAdds(s: State, org: Id, id: Id)
    requires Below(s.teams, s.next)
    ensures AddsDefaults(s, EnsureDefaultTeam(s, org).0, org, id)
  {
    if FindDefaultTeam(s, org).Some? {
      NothingAdds(s, org, id);
    } else {
      NewTeamAdds(s, org, id);
    }
  }

  lemma NewCollectionAdds(s: State, org: Id, id: Id)
    requires Below(s.collections, s.next)
    ensures AddsDefaults(s, AddCollection(s, Collection(org, DEFAULT_COLLECTION, true, false)), org, id)
  {
  }

  lemma CollectionAdds(s: State, org: Id, id: Id)
    requires Below(s.collections, s.next)
    ensures AddsDefaults(s, EnsureDefaultCollection(s, org).0, org, id)
  {
    if FindDefaultCollection(s, org).Some? {
      NothingAdds(s, org, id);
    } else {
      NewCollectionAdds(s, org, id);
    }
  }

  lemma NewGrantAdds(s: State, collection: Id, team: Id, org: Id, id: Id)
    requires Below(s.teamGrants, s.next)
    ensures AddsDefaults(s, AddTeamGrant(s, CollectionTeam(collection, team, Access(true, false, false, false))), org, id)
  {
  }

  lemma GrantAdds(s: State, collection: Id, team: Id, org: Id, id: Id)
    requires Below(s.teamGrants, s.next)
    ensures AddsDefaults(s, EnsureDefaultGrant(s, collection, team), org, id)
  {
    if FindTeamGrant(s, collection, team).Some? {
      NothingAdds(s, org, id);
    } else {
      NewGrantAdds(s, collection, team, org, id);
    }
  }

  lemma AddsThrough(s: State, t: State, u: State, org: Id, id: Id)
    requires AddsDefaults(s, t, org, id) && AddsDefaults(t, u, org, id)
    ensures AddsDefaults(s, u, org, id)
  {
  }

  lemma MemberRowAdds(s: State, team: Id, org: Id, id: Id)
    requires Below(s.teamUsers, s.next) && TeamOf(s, team, org) && s.teams[team].isDefault
    ensures AddsDefaults(s, AddTeamUser(s, TeamUser(team, id, false)), org, id)
  {
  }

  lemma MembershipAdds(s: State, org: Id, id: Id)
    requires Valid(s)
    ensures AddsDefaults(s, EnsureInDefaultTeam(s, org, id), org, id)
  {
    var (t, team) := EnsureDefaultTeam(s, org);
    TeamAdds(s, org, id);
    DefaultTeamIs(s, org);
    DefaultTeamKeeps(s, org);
    if FindTeamUser(t, team, id).None? {
      MemberRowAdds(t, team, org, id);
      AddsThrough(s, t, AddTeamUser(t, TeamUser(team, id, false)), org, id);
    }
  }

  lemma DefaultsAdd(s: State, org: Id, id: Id)
    requires Valid(s)
    ensures AddsDefaults(s, EnsureDefaults(s, org), org, id)
  {
    var (t, team) := EnsureDefaultTeam(s, org);
    var (u, collection) := EnsureDefaultCollection(t, org);
    TeamAdds(s, org, id);
    DefaultTeamKeeps(s, org);
    CollectionAdds(t, org, id);
    DefaultCollectionKeeps(t, org);
    GrantAdds(u, collection, team, org, id);
    AddsThrough(s, t, u, org, id);
    AddsThrough(s, u, EnsureDefaults(s, org), org, id);
  }

  /** The organization has a default team with the member in it and with a row on its live default collection. */
  predicate Settled(s: State, org: Id, id: Id) {
    && (exists d :: d in s.teams && TeamOf(s, d, org) && s.teams[d].isDefault && CA.InTeam(s, d, id))
    && (exists g :: g in s.teamGrants && DefaultGrant(s, s.teamGrants[g], org))
  }

  predicate DefaultGrant(s: State, g: CollectionTeam, org: Id) {
    && TeamOf(s, g.team, org) && s.teams[g.team].isDefault
    && CollectionOf(s, g.collection, org) && LiveDefault(s.collections[g.collection])
  }

  lemma DefaultTeamIs(s: State, org: Id)
    requires Valid(s)
    ensures var (t, team) := EnsureDefaultTeam(s, org); TeamOf(t, team, org) && t.teams[team].isDefault
  {
  }

  lemma JoinedTeam(s: State, org: Id, id: Id)
    requires Valid(s)
    ensures var t := EnsureInDefaultTeam(s, org, id);
            exists d :: TeamOf(t, d, org) && t.teams[d].isDefault && CA.InTeam(t, d, id)
  {
    var (t, team) := EnsureDefaultTeam(s, org);
    DefaultTeamIs(s, org);
    DefaultTeamKeeps(s, org);
    TeamUserFound(t, team, id);
    var u := EnsureInDefaultTeam(s, org, id);
    if FindTeamUser(t, team, id).None? {
      assert u.teamUsers[t.next] == TeamUser(team, id, false);
    }
    assert TeamOf(u, team, org) && CA.InTeam(u, team, id);
  }

  lemma DefaultsGrant(s: State, org: Id)
    requires Valid(s)
    ensures var t := EnsureDefaults(s, org); exists g :: g in t.teamGrants && DefaultGrant(t, t.teamGrants[g], org)
  {
    var (t, team) := EnsureDefaultTeam(s, org);
    var (u, c) := EnsureDefaultCollection(t, org);
    DefaultTeamIs(s, org);
    DefaultTeamKeeps(s, org);
    DefaultCollectionKeeps(t, org);
    DefaultCollectionIs(t, org);
    TeamGrantFound(u, c, team);
    var v, found := EnsureDefaults(s, org), FindTeamGrant(u, c, team);
    var g := if found.Some? then found.value else u.next;
    assert g in v.teamGrants && DefaultGrant(v, v.teamGrants[g], org);
  }

  lemma DefaultCollectionIs(s: State, org: Id)
    requires Valid(s)
    ensures var (t, c) := EnsureDefaultCollection(s, org); CollectionOf(t, c, org) && LiveDefault(t.collections[c])
  {
    DefaultCollectionFound(s, org);
  }

  lemma StaysInTeam(s: State, org: Id, id: Id, d: Id)
    requires Below(s.teams, s.next) && TeamOf(s, d, org) && s.teams[d].isDefault && CA.InTeam(s, d, id)
    ensures var t := EnsureDefaults(s, org); TeamOf(t, d, org) && t.teams[d].isDefault && CA.InTeam(t, d, id)
  {
    DefaultTeamFound(s, org);
    assert EnsureDefaultTeam(s, org).0 == s;
    CA.SameInTeam(s, EnsureDefaults(s, org), d, id);
  }

  // ---- memberships ----

  lemma EnrollEffect(s: State, m: OrgUser)
    requires Valid(s) && m.org in s.orgs && FindOrgUser(s, m.org, m.user).None?
    ensures Settled(Enroll(s, m), m.org, s.next) && AddsDefaults(AddOrgUser(s, m), Enroll(s, m), m.org, s.next)
  {
    var t := EnsureInDefaultTeam(AddOrgUser(s, m), m.org, s.next);
    NewOrgUser(s, m);
    JoinKeeps(s, m);
    JoinedTeam(AddOrgUser(s, m), m.org, s.next);
    MembershipAdds(AddOrgUser(s, m), m.org, s.next);
    DefaultsGrant(t, m.org);
    DefaultsAdd(t, m.org, s.next);
    AddsThrough(AddOrgUser(s, m), t, Enroll(s, m), m.org, s.next);
    var d :| TeamOf(t, d, m.org) && t.teams[d].isDefault && CA.InTeam(t, d, s.next);
    StaysInTeam(t, m.org, s.next, d);
  }

  /** An accepted invitation adds one membership, in the default team, with the defaults in place, and
      nothing else. */
  lemma InviteEffect(s: State, org: Id, inviter: Id, role: Role, all: bool, key: string,
                     invitee: Option<Id>, limit: Option<nat>, enforcing: set<Id>, invited: bool)
    requires Valid(s) && InviteUser(s, org, inviter, role, all, key, invitee, limit, enforcing, invited).1.None?
    ensures var t := InviteUser(s, org, inviter, role, all, key, invitee, limit, enforcing, invited).0;
            var m := OrgUser(org, invitee.value, role, all, Invited, key);
            Settled(t, org, s.next) && AddsDefaults(s.(orgUsers := s.orgUsers[s.next := m]), t, org, s.next)
  {
    EnrollEffect(s, OrgUser(org, invitee.value, role, all, Invited, key));
  }

  /** The state with the new organization and its founder, before the defaults. */
  function Founding(s: State, user: Id, key: string): State {
    s.(orgs := s.orgs[s.next := Org(false, false)],
       orgUsers := s.orgUsers[s.next + 1 := OrgUser(s.next, user, Owner, true, Confirmed, key)], next := s.next + 2)
  }

  lemma FoundingIsValid(s: State, user: Id, key: string)
    requires Valid(s)
    ensures Valid(Founding(s, user, key))
  {
    var a, m := AddOrg(s, Org(false, false)), OrgUser(s.next, user, Owner, true, Confirmed, key);
    NewOrgRow(s, Org(false, false));
    OrgUserFound(a, s.next, user);
    NewOrgUser(a, m);
    assert Founding(s, user, key) == AddOrgUser(a, m);
  }

  lemma NewOrgIsFounding(s: State, user: Id, key: string)
    ensures NewOrg(s, user, key) == EnsureInDefaultTeam(EnsureDefaults(Founding(s, user, key), s.next), s.next, s.next + 1)
  {
    assert AddOrgUser(AddOrg(s, Org(false, false)), OrgUser(s.next, user, Owner, true, Confirmed, key)) == Founding(s, user, key);
  }

  lemma NewOrgEffect(s: State, user: Id, key: string)
    requires Valid(s)
    ensures Settled(NewOrg(s, user, key), s.next, s.next + 1)
    ensures AddsDefaults(Founding(s, user, key), NewOrg(s, user, key), s.next, s.next + 1)
  {
    NewOrgIsFounding(s, user, key);
    FoundingIsValid(s, user, key);
    FoundedSettled(Founding(s, user, key), s.next, s.next + 1);
    FoundedAdds(Founding(s, user, key), s.next, s.next + 1);
  }

  /** A new organization has its founder as confirmed owner, who reaches everything, and all defaults. */
  lemma CreateOrgEffect(s: State, user: Id, key: string)
    requires Valid(s)
    ensures var t := CreateOrg(s, user, key, true, true).0;
            Settled(t, s.next, s.next + 1) && AddsDefaults(Founding(s, user, key), t, s.next, s.next + 1)
  {
    NewOrgEffect(s, user, key);
  }

  lemma FoundedAdds(b: State, org: Id, id: Id)
    requires Valid(b)
    ensures AddsDefaults(b, EnsureInDefaultTeam(EnsureDefaults(b, org), org, id), org, id)
  {
    var c := EnsureDefaults(b, org);
    DefaultsKeep(b, org);
    DefaultsAdd(b, org, id);
    MembershipAdds(c, org, id);
    AddsThrough(b, c, EnsureInDefaultTeam(c, org, id), org, id);
  }

  lemma GrantStays(s: State, t: State, org: Id, id: Id)
    requires AddsDefaults(s, t, org, id) && exists g :: g in s.teamGrants && DefaultGrant(s, s.teamGrants[g], org)
    ensures exists g :: g in t.teamGrants && DefaultGrant(t, t.teamGrants[g], org)
  {
    var g :| g in s.teamGrants && DefaultGrant(s, s.teamGrants[g], org);
    assert g in t.teamGrants && DefaultGrant(t, t.teamGrants[g], org);
  }

  lemma FoundedSettled(b: State, org: Id, id: Id)
    requires Valid(b)
    ensures Settled(EnsureInDefaultTeam(EnsureDefaults(b, org), org, id), org, id)
  {
    var c := EnsureDefaults(b, org);
    DefaultsKeep(b, org);
    DefaultsGrant(b, org);
    MembershipAdds(c, org, id);
    GrantStays(c, EnsureInDefaultTeam(c, org, id), org, id);
    JoinedTeam(c, org, id);
  }

  /** No row of the organization is left. */
  predicate Emptied(s: State, org: Id) {
    && (forall i :: i in s.orgUsers ==> s.orgUsers[i].org != org)
    && (forall i :: i in s.teams ==> s.teams[i].org != org)
    && (forall i :: i in s.collections ==> s.collections[i].org != org)
    && (forall i :: i in s.items ==> s.items[i].org != org)
  }

  lemma PurgeEmpties(s: State, org: Id)
    requires org in s.orgs
    ensures Emptied(PurgeOrg(s, org), org)
  {
  }

  /** Without a free plan the new organization is left empty and marked, and no membership changed. */
  lemma CreateOrgUndone(s: State, user: Id, key: string)
    requires Valid(s)
    ensures var t := CreateOrg(s, user, key, true, false).0;
            t.orgs == s.orgs[s.next := Org(false, true)] && t.orgUsers == s.orgUsers && Emptied(t, s.next)
  {
    var t := NewOrg(s, user, key);
    NewOrgEffect(s, user, key);
    PurgeEmpties(t, s.next);
    PurgeUndoes(s, user, key, t);
  }

  lemma PurgeUndoes(s: State, user: Id, key: string, t: State)
    requires IdsBelow(s) && MembersOfOrgs(s.orgUsers, s.orgs)
    requires t.orgs == Founding(s, user, key).orgs && t.orgUsers == Founding(s, user, key).orgUsers
    ensures PurgeOrg(t, s.next).orgs == s.orgs[s.next := Org(false, true)] && PurgeOrg(t, s.next).orgUsers == s.orgUsers
  {
  }

  /** A purged organization has no rows any more, and its own row is marked. */
  lemma DeleteOrgEffect(s: State, org: Id, user: Id)
    requires DeleteOrg(s, org, user).1.None?
    ensures org in s.orgs
    ensures var t := DeleteOrg(s, org, user).0;
            t.orgs == s.orgs[org := Org(s.orgs[org].personal, true)] && Emptied(t, org)
  {
    PurgeEmpties(s, org);
  }

  /** The membership named has the role, and the access to everything if that was asked for; nothing else changes. */
  lemma RoleEffect(s: State, org: Id, id: Id, user: Id, role: Role, all: Option<bool>)
    requires UpdateMemberRole(s, org, id, user, role, all).1.None?
    ensures id in s.orgUsers
    ensures var t, was := UpdateMemberRole(s, org, id, user, role, all).0, s.orgUsers[id];
            && t == s.(orgUsers := t.orgUsers)
            && t.orgUsers == s.orgUsers[id := OrgUser(was.org, was.user, role, if all == None then was.accessAll else all.value,
                                                      was.status, was.key)]
  {
  }

  /** What every acceptance, confirmation and change of status leaves: one membership, changed so. */
  predicate OneMembershipChanged(s: State, t: State, id: Id, status: Status, key: string) {
    && id in s.orgUsers
    && t == s.(orgUsers := s.orgUsers[id := OrgUser(s.orgUsers[id].org, s.orgUsers[id].user, s.orgUsers[id].role,
                                                    s.orgUsers[id].accessAll, status, key)])
  }

  lemma ChangedJoins(s: State, id: Id, m: OrgUser)
    requires Valid(s) && id in s.orgUsers && m == s.orgUsers[id].(status := m.status, key := m.key)
    ensures var u := s.(orgUsers := s.orgUsers[id := m]);
            var t := EnsureInDefaultTeam(u, m.org, id);
            OneMembershipChanged(s, u, id, m.status, m.key) && AddsDefaults(u, t, m.org, id) && InDefaultTeam(t, m.org, id)
  {
    ChangedOrgUser(s, id, m);
    MembershipAdds(s.(orgUsers := s.orgUsers[id := m]), m.org, id);
    JoinedTeam(s.(orgUsers := s.orgUsers[id := m]), m.org, id);
  }

  predicate InDefaultTeam(s: State, org: Id, id: Id) {
    exists d :: d in s.teams && TeamOf(s, d, org) && s.teams[d].isDefault && CA.InTeam(s, d, id)
  }

  /** An accepted invitation becomes an accepted membership with the key given, in the default team. */
  lemma AcceptEffect(s: State, id: Id, user: Id, key: string, enforcing: set<Id>) returns (u: State)
    requires Valid(s) && AcceptInvitation(s, id, user, key, enforcing).1.None?
    ensures var t := AcceptInvitation(s, id, user, key, enforcing).0;
            && OneMembershipChanged(s, u, id, Accepted, key)
            && AddsDefaults(u, t, s.orgUsers[id].org, id) && InDefaultTeam(t, s.orgUsers[id].org, id)
  {
    var m := s.orgUsers[id].(key := key, status := Accepted);
    u := s.(orgUsers := s.orgUsers[id := m]);
    ChangedJoins(s, id, m);
  }

  lemma ConfirmEffect(s: State, org: Id, id: Id, user: Id, key: string) returns (u: State)
    requires Valid(s) && ConfirmProvisionedMember(s, org, id, user, key).1.None?
    ensures var t := ConfirmProvisionedMember(s, org, id, user, key).0;
            OneMembershipChanged(s, u, id, Confirmed, key) && AddsDefaults(u, t, org, id) && InDefaultTeam(t, org, id)
  {
    var m := s.orgUsers[id].(key := key, status := Confirmed);
    u := s.(orgUsers := s.orgUsers[id := m]);
    ChangedJoins(s, id, m);
  }

  /** A member who was invited is accepted with the role of the invitation; anyone else gets the new row,
      in the default team. */
  lemma AddExistingEffect(s: State, m: OrgUser)
    requires Valid(s) && AddExistingMember(s, m).1.None?
    ensures var t := AddExistingMember(s, m).0;
            if MemberIn(s, m.org, m.user)
            then exists i :: i in s.orgUsers && RowOf(s.orgUsers[i], m.org, m.user) && OneMembershipChanged(s, t, i, Accepted, m.key)
            else AddsDefaults(s.(orgUsers := s.orgUsers[s.next := m]), t, m.org, s.next) && InDefaultTeam(t, m.org, s.next)
  {
    FoundIsMember(s, m.org, m.user);
    if FindOrgUser(s, m.org, m.user).None? {
      NewOrgUser(s, m);
      MembershipAdds(AddOrgUser(s, m), m.org, s.next);
      JoinedTeam(AddOrgUser(s, m), m.org, s.next);
    }
  }

  /** The rows that deleting a membership leaves: all but its own. */
  predicate MembershipDeleted(s: State, t: State, id: Id) {
    && t == s.(orgUsers := t.orgUsers, teamUsers := t.teamUsers, userGrants := t.userGrants)
    && t.orgUsers == s.orgUsers - {id}
    && t.teamUsers == s.teamUsers - (set i | i in s.teamUsers && s.teamUsers[i].orgUser == id)
    && t.userGrants == s.userGrants - (set i | i in s.userGrants && s.userGrants[i].orgUser == id)
  }

  lemma DeclineEffect(s: State, org: Id, user: Id)
    requires Valid(s) && DeclineInvitationForUser(s, org, user).1.None?
    ensures var t := DeclineInvitationForUser(s, org, user).0;
            if MemberIn(s, org, user)
            then exists i :: i in s.orgUsers && RowOf(s.orgUsers[i], org, user) && MembershipDeleted(s, t, i)
            else t == s
  {
    FoundIsMember(s, org, user);
    if MemberIn(s, org, user) {
      var i := FindOrgUser(s, org, user).value;
      assert MembershipDeleted(s, DeleteOrgUser(s, i), i);
    }
  }

  // ---- provisioning ----

  lemma CreateScimUserEffect(s: State, org: Id, user: Id)
    requires CreateScimUser(s, org, Some(user)).1.None?
    ensures CreateScimUser(s, org, Some(user)).0 ==
            s.(orgUsers := s.orgUsers[s.next := OrgUser(org, user, Member, false, Provisioned, "pending_key_exchange")], next := s.next + 1)
  {
  }

  /** Switching off suspends; switching on confirms the suspended, and by a patch everyone; without an
      operation nothing changes. */
  lemma ScimStatusEffect(s: State, org: Id, user: Id, active: bool, actives: seq<bool>)
    requires OneMembership(s) && MemberIn(s, org, user)
    ensures exists i :: i in s.orgUsers && RowOf(s.orgUsers[i], org, user)
                        && OneMembershipChanged(s, UpdateScimUser(s, org, user, active).0, i,
                                                if !active then Suspended
                                                else if s.orgUsers[i].status == Suspended then Confirmed
                                                else s.orgUsers[i].status, s.orgUsers[i].key)
                        && OneMembershipChanged(s, PatchScimUser(s, org, user, actives).0, i,
                                                if actives == [] then s.orgUsers[i].status
                                                else if actives[|actives| - 1] then Confirmed else Suspended, s.orgUsers[i].key)
  {
    FoundIsMember(s, org, user);
    var i := FindOrgUser(s, org, user).value;
    assert RowOf(s.orgUsers[i], org, user);
  }

  lemma DeleteScimUserEffect(s: State, org: Id, user: Id)
    requires OneMembership(s) && MemberIn(s, org, user)
    ensures exists i :: i in s.orgUsers && RowOf(s.orgUsers[i], org, user) && MembershipDeleted(s, DeleteScimUser(s, org, user).0, i)
  {
    FoundIsMember(s, org, user);
    var i := FindOrgUser(s, org, user).value;
    assert MembershipDeleted(s, DeleteOrgUser(s, i), i);
  }

  // ---- teams and groups ----

  lemma CreateTeamEffect(s: State, org: Id, user: Id, name: string)
    requires CreateTeam(s, org, user, name).1.None?
    ensures CreateTeam(s, org, user, name).0 == s.(teams := s.teams[s.next := Team(org, name, false)], next := s.next + 1)
    ensures CreateGroup(s, org, name).0 == CreateTeam(s, org, user, name).0
  {
  }

  /** The rows that deleting a team leaves: all but its own. */
  predicate TeamDeleted(s: State, t: State, id: Id) {
    && t == s.(teams := t.teams, teamUsers := t.teamUsers, teamGrants := t.teamGrants)
    && t.teams == s.teams - {id}
    && t.teamUsers == s.teamUsers - (set i | i in s.teamUsers && s.teamUsers[i].team == id)
    && t.teamGrants == s.teamGrants - (set i | i in s.teamGrants && s.teamGrants[i].team == id)
  }

  lemma DeleteTeamEffect(s: State, id: Id, user: Id, org: Id)
    ensures RemoveTeam(s, id, user).1.None? ==> TeamDeleted(s, RemoveTeam(s, id, user).0, id)
    ensures DeleteGroup(s, org, id).1.None? ==> TeamDeleted(s, DeleteGroup(s, org, id).0, id)
  {
  }

  /** Calls on the rows of a team add, flag or remove the one row they name. */
  lemma TeamUserEffects(s: State, team: Id, row: Id, user: Id, target: Id, manager: bool)
    ensures AddTeamMember(s, team, user, target, manager).1.None? ==>
              AddTeamMember(s, team, user, target, manager).0 ==
              s.(teamUsers := s.teamUsers[s.next := TeamUser(team, target, manager)], next := s.next + 1)
    ensures UpdateTeamMember(s, team, row, user, manager).1.None? ==>
              row in s.teamUsers &&
              UpdateTeamMember(s, team, row, user, manager).0 ==
              s.(teamUsers := s.teamUsers[row := TeamUser(s.teamUsers[row].team, s.teamUsers[row].orgUser, manager)])
    ensures RemoveTeamMember(s, team, row, user).1.None? ==>
              RemoveTeamMember(s, team, row, user).0 == s.(teamUsers := s.teamUsers - {row})
  {
  }

  /** Removing from a group takes the rows of the member the reference names, if it names one. */
  lemma RemoveFromGroupEffect(s: State, org: Id, team: Id, ref: Option<Id>)
    requires OneMembership(s) && RemoveFromGroup(s, org, team, ref).1.None?
    ensures var t := RemoveFromGroup(s, org, team, ref).0;
            && t == s.(teamUsers := t.teamUsers)
            && t.teamUsers == s.teamUsers - set i | i in s.teamUsers && s.teamUsers[i].team == team && IsRef(s, s.teamUsers[i].orgUser, org, ref)
  {
    if ref.Some? {
      OrgUserFound(s, org, ref.value);
    }
  }

  predicate IsRef(s: State, id: Id, org: Id, ref: Option<Id>) {
    ref.Some? && id in s.orgUsers && RowOf(s.orgUsers[id], org, ref.value)
  }

  /** Updating a group renames it, changes the rows of that team, and nothing else. */
  lemma UpdateGroupEffect(s: State, org: Id, team: Id, name: string, refs: Refs)
    requires UpdateGroup(s, org, team, name, refs).1.None?
    ensures team in s.teams
    ensures var t := UpdateGroup(s, org, team, name, refs).0;
            && t == s.(teams := t.teams, teamUsers := t.teamUsers, next := t.next)
            && t.teams == s.teams[team := Team(s.teams[team].org, name, s.teams[team].isDefault)]
  {
  }

  // ---- collections and items ----

  lemma CreateCollectionEffect(s: State, org: Id, user: Id, name: string, limit: Option<nat>)
    requires CreateCollection(s, org, user, name, limit).1.None?
    ensures CreateCollection(s, org, user, name, limit).0 ==
            s.(collections := s.collections[s.next := Collection(org, name, false, false)], next := s.next + 1)
  {
  }

  /** Only the rows of the pair go. */
  lemma RevokeEffects(s: State, collection: Id, target: Id, user: Id)
    ensures RevokeUserAccess(s, collection, target, user).1.None? ==>
              var t := RevokeUserAccess(s, collection, target, user).0;
              && t == s.(userGrants := t.userGrants)
              && t.userGrants == s.userGrants - set i | i in s.userGrants && s.userGrants[i].collection == collection && s.userGrants[i].orgUser == target
    ensures RevokeTeamAccess(s, collection, target, user).1.None? ==>
              var t := RevokeTeamAccess(s, collection, target, user).0;
              && t == s.(teamGrants := t.teamGrants)
              && t.teamGrants == s.teamGrants - set i | i in s.teamGrants && s.teamGrants[i].collection == collection && s.teamGrants[i].team == target
  {
  }

  /** The state with one more item. */
  function WithItem(s: State, org: Id, collection: Id, creator: Id, content: nat): State {
    s.(items := s.items[s.next := Item(org, Some(collection), creator, content, false)], next := s.next + 1)
  }

  /** A new item lies where it was put ... */
  lemma CreateItemEffect(s: State, org: Id, user: Id, collection: Id, content: nat, typeValid: bool)
    requires CreateItem(s, org, user, Some(collection), content, typeValid).1.None?
    ensures CreateItem(s, org, user, Some(collection), content, typeValid).0 == WithItem(s, org, collection, user, content)
  {
  }

  /** ... or in the live default collection, which is made if there is none, even when the call then fails. */
  lemma CreateInDefaultEffect(s: State, org: Id, user: Id, content: nat, typeValid: bool)
    requires Valid(s) && MemberIn(s, org, user)
    ensures var (t, e) := CreateItem(s, org, user, None, content, typeValid);
            exists u, c :: AddsDefaults(s, u, org, 0) && IsHome(u, c, org)
                           && t == if e == None then WithItem(u, org, c, user, content) else u
  {
    FoundIsMember(s, org, user);
    var (u, c) := EnsureDefaultCollection(s, org);
    CollectionAdds(s, org, 0);
    DefaultCollectionIs(s, org);
    assert IsHome(u, c, org);
  }

  /** Updating changes that item alone, in the fields asked for alone; deleting marks it. */
  lemma ItemEffects(s: State, item: Id, user: Id, collection: Option<Id>, data: Option<nat>)
    ensures UpdateItem(s, item, user, collection, data).1.None? ==>
              item in s.items &&
              var x := s.items[item];
              UpdateItem(s, item, user, collection, data).0 ==
              s.(items := s.items[item := Item(x.org, if collection == None then x.collection else collection, x.creator,
                                               if data == None then x.data else data.value, x.deleted)])
    ensures DeleteItem(s, item, user).1.None? ==>
              item in s.items &&
              var x := s.items[item];
              DeleteItem(s, item, user).0 == s.(items := s.items[item := Item(x.org, x.collection, x.creator, x.data, true)])
  {
  }
}

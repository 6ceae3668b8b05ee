/** Tenants do not touch each other: which calls change only rows of the organization they are made for. */
module OrgTenants {
  import opened Wrappers
  import opened Members
  import opened OrgTables
  import opened OrgInvariant
  import opened OrgMembership
  import opened OrgSharing
  import opened ScimGroups
  import opened OrgRuns

  // ---- the rows of one organization ----

  datatype View = View(
    org: Option<Org>,
    orgUsers: map<Id, OrgUser>,
    teams: map<Id, Team>,
    teamUsers: map<Id, TeamUser>,
    collections: map<Id, Collection>,
    userGrants: map<Id, CollectionUser>,
    teamGrants: map<Id, CollectionTeam>,
    items: map<Id, Item>)

  function OrgUsersIn(rows: map<Id, OrgUser>, o: Id): map<Id, OrgUser> {
    map i | i in rows && rows[i].org == o :: rows[i]
  }

  function TeamsIn(rows: map<Id, Team>, o: Id): map<Id, Team> {
    map i | i in rows && rows[i].org == o :: rows[i]
  }

  function CollectionsIn(rows: map<Id, Collection>, o: Id): map<Id, Collection> {
    map i | i in rows && rows[i].org == o :: rows[i]
  }

  function ItemsIn(rows: map<Id, Item>, o: Id): map<Id, Item> {
    map i | i in rows && rows[i].org == o :: rows[i]
  }

  function TeamUsersIn(rows: map<Id, TeamUser>, teams: map<Id, Team>, o: Id): map<Id, TeamUser> {
    map i | i in rows && rows[i].team in teams && teams[rows[i].team].org == o :: rows[i]
  }

  function UserGrantsIn(rows: map<Id, CollectionUser>, collections: map<Id, Collection>, o: Id): map<Id, CollectionUser> {
    map i | i in rows && rows[i].collection in collections && collections[rows[i].collection].org == o :: rows[i]
  }

  function TeamGrantsIn(rows: map<Id, CollectionTeam>, collections: map<Id, Collection>, o: Id): map<Id, CollectionTeam> {
    map i | i in rows && rows[i].collection in collections && collections[rows[i].collection].org == o :: rows[i]
  }

  function ViewOf(s: State, o: Id): View {
    View(if o in s.orgs then Some(s.orgs[o]) else None, OrgUsersIn(s.orgUsers, o), TeamsIn(s.teams, o),
         TeamUsersIn(s.teamUsers, s.teams, o), CollectionsIn(s.collections, o),
         UserGrantsIn(s.userGrants, s.collections, o), TeamGrantsIn(s.teamGrants, s.collections, o), ItemsIn(s.items, o))
  }

  /** The organization has the same rows in both states. */
  predicate Same(s: State, t: State, o: Id) {
    ViewOf(s, o) == ViewOf(t, o)
  }

  // ---- row changes of another organization ----

  lemma OtherOrgAdded(s: State, r: Org, o: Id)
    requires o != s.next
    ensures Same(s, AddOrg(s, r), o)
  {
  }

  lemma OtherOrgUserAdded(s: State, m: OrgUser, o: Id)
    requires Below(s.orgUsers, s.next) && m.org != o
    ensures Same(s, AddOrgUser(s, m), o)
  {
    assert OrgUsersIn(s.orgUsers[s.next := m], o) == OrgUsersIn(s.orgUsers, o);
  }

  lemma OtherOrgUserChanged(s: State, id: Id, m: OrgUser, o: Id)
    requires id in s.orgUsers && s.orgUsers[id].org == m.org != o
    ensures Same(s, s.(orgUsers := s.orgUsers[id := m]), o)
  {
    assert OrgUsersIn(s.orgUsers[id := m], o) == OrgUsersIn(s.orgUsers, o);
  }

  lemma TeamUsersOfOtherOrgUser(s: State, id: Id, o: Id)
    requires TeamUsersJoin(s.teamUsers, s.teams, s.orgUsers) && !OrgUserOf(s, id, o)
    ensures TeamUsersIn(DeleteOrgUser(s, id).teamUsers, s.teams, o) == TeamUsersIn(s.teamUsers, s.teams, o)
  {
  }

  lemma UserGrantsOfOtherOrgUser(s: State, id: Id, o: Id)
    requires UserGrantsJoin(s.userGrants, s.collections, s.orgUsers) && !OrgUserOf(s, id, o)
    ensures UserGrantsIn(DeleteOrgUser(s, id).userGrants, s.collections, o) == UserGrantsIn(s.userGrants, s.collections, o)
  {
  }

  lemma OtherOrgUserDeleted(s: State, id: Id, o: Id)
    requires Tenancy(s) && !OrgUserOf(s, id, o)
    ensures Same(s, DeleteOrgUser(s, id), o)
  {
    TeamUsersOfOtherOrgUser(s, id, o);
    UserGrantsOfOtherOrgUser(s, id, o);
    assert OrgUsersIn(DeleteOrgUser(s, id).orgUsers, o) == OrgUsersIn(s.orgUsers, o);
  }

  lemma OtherTeamAdded(s: State, r: Team, o: Id)
    requires Below(s.teams, s.next) && r.org != o
    ensures Same(s, AddTeam(s, r), o)
  {
    var t := AddTeam(s, r);
    assert TeamsIn(t.teams, o) == TeamsIn(s.teams, o);
    assert TeamUsersIn(s.teamUsers, t.teams, o) == TeamUsersIn(s.teamUsers, s.teams, o);
  }

  lemma TeamUsersOfOtherTeam(s: State, id: Id, o: Id)
    requires !TeamOf(s, id, o)
    ensures TeamUsersIn(DeleteTeam(s, id).teamUsers, DeleteTeam(s, id).teams, o) == TeamUsersIn(s.teamUsers, s.teams, o)
  {
  }

  lemma TeamGrantsOfOtherTeam(s: State, id: Id, o: Id)
    requires TeamGrantsJoin(s.teamGrants, s.collections, s.teams) && !TeamOf(s, id, o)
    ensures TeamGrantsIn(DeleteTeam(s, id).teamGrants, s.collections, o) == TeamGrantsIn(s.teamGrants, s.collections, o)
  {
  }

  lemma OtherTeamDeleted(s: State, id: Id, o: Id)
    requires Tenancy(s) && !TeamOf(s, id, o)
    ensures Same(s, DeleteTeam(s, id), o)
  {
    TeamUsersOfOtherTeam(s, id, o);
    TeamGrantsOfOtherTeam(s, id, o);
    assert TeamsIn(DeleteTeam(s, id).teams, o) == TeamsIn(s.teams, o);
  }

  /** Rows of teams change, but none of the organization's teams. */
  lemma OtherTeamUsers(s: State, t: State, o: Id)
    requires t == s.(teamUsers := t.teamUsers, next := t.next)
    requires forall i :: i in s.teamUsers && TeamOf(s, s.teamUsers[i].team, o) ==> i in t.teamUsers && t.teamUsers[i] == s.teamUsers[i]
    requires forall i :: i in t.teamUsers && TeamOf(s, t.teamUsers[i].team, o) ==> i in s.teamUsers && t.teamUsers[i] == s.teamUsers[i]
    ensures Same(s, t, o)
  {
    assert TeamUsersIn(t.teamUsers, s.teams, o) == TeamUsersIn(s.teamUsers, s.teams, o);
  }

  lemma OtherTeamUserAdded(s: State, r: TeamUser, o: Id)
    requires Below(s.teamUsers, s.next) && !TeamOf(s, r.team, o)
    ensures Same(s, AddTeamUser(s, r), o)
  {
    OtherTeamUsers(s, AddTeamUser(s, r), o);
  }

  lemma GrantsBesideOtherCollection(s: State, r: Collection, o: Id)
    requires Below(s.collections, s.next) && r.org != o
    ensures UserGrantsIn(s.userGrants, AddCollection(s, r).collections, o) == UserGrantsIn(s.userGrants, s.collections, o)
    ensures TeamGrantsIn(s.teamGrants, AddCollection(s, r).collections, o) == TeamGrantsIn(s.teamGrants, s.collections, o)
  {
  }

  lemma OtherCollectionAdded(s: State, r: Collection, o: Id)
    requires Below(s.collections, s.next) && r.org != o
    ensures Same(s, AddCollection(s, r), o)
  {
    GrantsBesideOtherCollection(s, r, o);
    assert CollectionsIn(AddCollection(s, r).collections, o) == CollectionsIn(s.collections, o);
  }

  lemma OtherTeamGrantAdded(s: State, r: CollectionTeam, o: Id)
    requires Below(s.teamGrants, s.next) && !CollectionOf(s, r.collection, o)
    ensures Same(s, AddTeamGrant(s, r), o)
  {
    assert TeamGrantsIn(AddTeamGrant(s, r).teamGrants, s.collections, o) == TeamGrantsIn(s.teamGrants, s.collections, o);
  }

  lemma OtherUserGrantAdded(s: State, r: CollectionUser, o: Id)
    requires Below(s.userGrants, s.next) && !CollectionOf(s, r.collection, o)
    ensures Same(s, AddUserGrant(s, r), o)
  {
    assert UserGrantsIn(AddUserGrant(s, r).userGrants, s.collections, o) == UserGrantsIn(s.userGrants, s.collections, o);
  }

  lemma OtherUserGrantChanged(s: State, i: Id, r: CollectionUser, o: Id)
    requires i in s.userGrants && s.userGrants[i].collection == r.collection && !CollectionOf(s, r.collection, o)
    ensures Same(s, s.(userGrants := s.userGrants[i := r]), o)
  {
    assert UserGrantsIn(s.userGrants[i := r], s.collections, o) == UserGrantsIn(s.userGrants, s.collections, o);
  }

  lemma OtherTeamGrantChanged(s: State, i: Id, r: CollectionTeam, o: Id)
    requires i in s.teamGrants && s.teamGrants[i].collection == r.collection && !CollectionOf(s, r.collection, o)
    ensures Same(s, s.(teamGrants := s.teamGrants[i := r]), o)
  {
    assert TeamGrantsIn(s.teamGrants[i := r], s.collections, o) == TeamGrantsIn(s.teamGrants, s.collections, o);
  }

  lemma OtherItemAdded(s: State, x: Item, o: Id)
    requires Below(s.items, s.next) && x.org != o
    ensures Same(s, AddItem(s, x), o)
  {
    assert ItemsIn(s.items[s.next := x], o) == ItemsIn(s.items, o);
  }

  lemma OtherItemChanged(s: State, i: Id, x: Item, o: Id)
    requires i in s.items && s.items[i].org == x.org != o
    ensures Same(s, s.(items := s.items[i := x]), o)
  {
    assert ItemsIn(s.items[i := x], o) == ItemsIn(s.items, o);
  }

  lemma OtherItemsMoved(s: State, from: Id, to: Id, o: Id)
    requires ItemsPlaced(s.items, s.collections) && from in s.collections && s.collections[from].org != o
    ensures Same(s, MoveItems(s, from, to), o)
  {
    assert ItemsIn(MoveItems(s, from, to).items, o) == ItemsIn(s.items, o);
  }

  lemma OtherCollectionDeleted(s: State, id: Id, o: Id)
    requires id in s.collections && s.collections[id].org != o
    ensures Same(s, SoftDeleteCollection(s, id), o)
  {
    var t := SoftDeleteCollection(s, id);
    assert CollectionsIn(t.collections, o) == CollectionsIn(s.collections, o);
    assert UserGrantsIn(s.userGrants, t.collections, o) == UserGrantsIn(s.userGrants, s.collections, o);
    assert TeamGrantsIn(s.teamGrants, t.collections, o) == TeamGrantsIn(s.teamGrants, s.collections, o);
  }

  lemma OtherEntitiesPurged(s: State, org: Id, o: Id)
    requires org in s.orgs && org != o
    ensures var t := PurgeOrg(s, org);
            && OrgUsersIn(t.orgUsers, o) == OrgUsersIn(s.orgUsers, o) && TeamsIn(t.teams, o) == TeamsIn(s.teams, o)
            && CollectionsIn(t.collections, o) == CollectionsIn(s.collections, o) && ItemsIn(t.items, o) == ItemsIn(s.items, o)
  {
  }

  lemma OtherTeamUsersPurged(s: State, org: Id, o: Id)
    requires TeamUsersJoin(s.teamUsers, s.teams, s.orgUsers) && org in s.orgs && org != o
    ensures TeamUsersIn(PurgeOrg(s, org).teamUsers, PurgeOrg(s, org).teams, o) == TeamUsersIn(s.teamUsers, s.teams, o)
  {
  }

  lemma OtherUserGrantsPurged(s: State, org: Id, o: Id)
    requires UserGrantsJoin(s.userGrants, s.collections, s.orgUsers) && org in s.orgs && org != o
    ensures UserGrantsIn(PurgeOrg(s, org).userGrants, PurgeOrg(s, org).collections, o) == UserGrantsIn(s.userGrants, s.collections, o)
  {
  }

  lemma OtherTeamGrantsPurged(s: State, org: Id, o: Id)
    requires TeamGrantsJoin(s.teamGrants, s.collections, s.teams) && org in s.orgs && org != o
    ensures TeamGrantsIn(PurgeOrg(s, org).teamGrants, PurgeOrg(s, org).collections, o) == TeamGrantsIn(s.teamGrants, s.collections, o)
  {
  }

  lemma OtherOrgPurged(s: State, org: Id, o: Id)
    requires Valid(s) && org in s.orgs && org != o
    ensures Same(s, PurgeOrg(s, org), o)
  {
    OtherEntitiesPurged(s, org, o);
    OtherTeamUsersPurged(s, org, o);
    OtherUserGrantsPurged(s, org, o);
    OtherTeamGrantsPurged(s, org, o);
  }

  // ---- the defaults of another organization ----

  lemma OtherDefaultTeam(s: State, org: Id, o: Id)
    requires Valid(s) && org != o
    ensures Same(s, EnsureDefaultTeam(s, org).0, o)
  {
    OtherTeamAdded(s, Team(org, DEFAULT_TEAM, true), o);
  }

  lemma OtherDefaultCollection(s: State, org: Id, o: Id)
    requires Valid(s) && org != o
    ensures Same(s, EnsureDefaultCollection(s, org).0, o)
  {
    OtherCollectionAdded(s, Collection(org, DEFAULT_COLLECTION, true, false), o);
  }

  lemma OtherDefaultGrant(s: State, collection: Id, team: Id, org: Id, o: Id)
    requires Valid(s) && org != o && CollectionOf(s, collection, org)
    ensures Same(s, EnsureDefaultGrant(s, collection, team), o)
  {
    OtherTeamGrantAdded(s, CollectionTeam(collection, team, Access(true, false, false, false)), o);
  }

  lemma OtherDefaults(s: State, org: Id, o: Id)
    requires Valid(s) && org != o
    ensures Same(s, EnsureDefaults(s, org), o)
  {
    var (t, team) := EnsureDefaultTeam(s, org);
    var (u, collection) := EnsureDefaultCollection(t, org);
    DefaultTeamKeeps(s, org);
    DefaultCollectionKeeps(t, org);
    OtherDefaultTeam(s, org, o);
    OtherDefaultCollection(t, org, o);
    OtherDefaultGrant(u, collection, team, org, o);
  }

  lemma OtherJoins(s: State, org: Id, id: Id, o: Id)
    requires Valid(s) && org != o
    ensures Same(s, EnsureInDefaultTeam(s, org, id), o)
  {
    var (t, team) := EnsureDefaultTeam(s, org);
    DefaultTeamKeeps(s, org);
    OtherDefaultTeam(s, org, o);
    OtherTeamUserAdded(t, TeamUser(team, id, false), o);
  }

  // ---- calls of another organization ----

  lemma OtherNewOrg(s: State, user: Id, key: string, o: Id)
    requires Valid(s) && o != s.next
    ensures Same(s, NewOrg(s, user, key), o)
  {
    var a, m := AddOrg(s, Org(false, false)), OrgUser(s.next, user, Owner, true, Confirmed, key);
    var b := AddOrgUser(a, m);
    NewOrgRow(s, Org(false, false));
    OrgUserFound(a, s.next, user);
    NewOrgUser(a, m);
    DefaultsKeep(b, s.next);
    OtherOrgAdded(s, Org(false, false), o);
    OtherOrgUserAdded(a, m, o);
    OtherDefaults(b, s.next, o);
    OtherJoins(EnsureDefaults(b, s.next), s.next, a.next, o);
  }

  lemma OtherCreate(s: State, user: Id, key: string, known: bool, planFound: bool, o: Id)
    requires Valid(s) && o != s.next
    ensures Same(s, CreateOrg(s, user, key, known, planFound).0, o)
  {
    var t := NewOrg(s, user, key);
    NewOrgKeeps(s, user, key);
    OtherNewOrg(s, user, key, o);
    OtherOrgPurged(t, s.next, o);
  }

  lemma OtherDelete(s: State, org: Id, user: Id, o: Id)
    requires Valid(s) && org != o
    ensures Same(s, DeleteOrg(s, org, user).0, o)
  {
    if org in s.orgs {
      OtherOrgPurged(s, org, o);
    }
  }

  /** A new membership, brought into the default team. */
  lemma OtherJoined(s: State, m: OrgUser, o: Id)
    requires Valid(s) && m.org in s.orgs && FindOrgUser(s, m.org, m.user).None? && m.org != o
    ensures Same(s, EnsureInDefaultTeam(AddOrgUser(s, m), m.org, s.next), o)
  {
    var t := AddOrgUser(s, m);
    NewOrgUser(s, m);
    OtherOrgUserAdded(s, m, o);
    OtherJoins(t, m.org, s.next, o);
  }

  lemma OtherEnrolled(s: State, m: OrgUser, o: Id)
    requires Valid(s) && m.org in s.orgs && FindOrgUser(s, m.org, m.user).None? && m.org != o
    ensures Same(s, Enroll(s, m), o)
  {
    var t := EnsureInDefaultTeam(AddOrgUser(s, m), m.org, s.next);
    JoinKeeps(s, m);
    OtherJoined(s, m, o);
    OtherDefaults(t, m.org, o);
  }

  lemma OtherInvite(s: State, org: Id, user: Id, role: Role, all: bool, key: string, invitee: Option<Id>, limit: Option<nat>,
                    enforcing: set<Id>, invited: bool, o: Id)
    requires Valid(s) && org != o
    ensures Same(s, InviteUser(s, org, user, role, all, key, invitee, limit, enforcing, invited).0, o)
  {
    if InviteError(s, org, user, role, invitee, limit, enforcing, invited).None? {
      OtherEnrolled(s, OrgUser(org, invitee.value, role, all, Invited, key), o);
    }
  }

  lemma OtherRemove(s: State, org: Id, id: Id, user: Id, o: Id)
    requires Valid(s) && org != o
    ensures Same(s, RemoveMember(s, org, id, user).0, o)
  {
    if OrgUserOf(s, id, org) {
      OtherOrgUserDeleted(s, id, o);
    }
  }

  /** A membership whose role, status or key changed and that then joins the default team. */
  lemma OtherChanged(s: State, id: Id, m: OrgUser, o: Id)
    requires Valid(s) && id in s.orgUsers && m.org == s.orgUsers[id].org != o && m.user == s.orgUsers[id].user
    ensures Same(s, EnsureInDefaultTeam(s.(orgUsers := s.orgUsers[id := m]), m.org, id), o)
  {
    var t := s.(orgUsers := s.orgUsers[id := m]);
    ChangedOrgUser(s, id, m);
    OtherOrgUserChanged(s, id, m, o);
    OtherJoins(t, m.org, id, o);
  }

  lemma OtherAccept(s: State, id: Id, user: Id, key: string, enforcing: set<Id>, o: Id)
    requires Valid(s) && !OrgUserOf(s, id, o)
    ensures Same(s, AcceptInvitation(s, id, user, key, enforcing).0, o)
  {
    if id in s.orgUsers {
      OtherChanged(s, id, s.orgUsers[id].(key := key, status := Accepted), o);
    }
  }

  lemma OtherConfirm(s: State, org: Id, id: Id, user: Id, key: string, o: Id)
    requires Valid(s) && org != o
    ensures Same(s, ConfirmProvisionedMember(s, org, id, user, key).0, o)
  {
    if OrgUserOf(s, id, org) {
      OtherChanged(s, id, s.orgUsers[id].(key := key, status := Confirmed), o);
    }
  }

  lemma OtherAddExisting(s: State, row: OrgUser, o: Id)
    requires Valid(s) && row.org != o
    ensures Same(s, AddExistingMember(s, row).0, o)
  {
    var found := FindOrgUser(s, row.org, row.user);
    if found.Some? {
      OtherOrgUserChanged(s, found.value, s.orgUsers[found.value].(key := row.key, status := Accepted), o);
    } else if row.org in s.orgs {
      OtherJoined(s, row, o);
    }
  }

  lemma OtherDecline(s: State, org: Id, user: Id, o: Id)
    requires Valid(s) && org != o
    ensures Same(s, DeclineInvitationForUser(s, org, user).0, o)
  {
    if FindOrgUser(s, org, user).Some? {
      OtherOrgUserDeleted(s, FindOrgUser(s, org, user).value, o);
    }
  }

  lemma OtherStatus(s: State, org: Id, user: Id, status: Status, o: Id)
    requires Valid(s) && org != o && FindOrgUser(s, org, user).Some?
    ensures var id := FindOrgUser(s, org, user).value; Same(s, s.(orgUsers := s.orgUsers[id := s.orgUsers[id].(status := status)]), o)
  {
    var id := FindOrgUser(s, org, user).value;
    OtherOrgUserChanged(s, id, s.orgUsers[id].(status := status), o);
  }

  lemma OtherScimUser(s: State, step: ScimUserStep, o: Id)
    requires Valid(s) && step.org != o
    ensures Same(s, ScimUserCall(s, step).0, o)
  {
    match step
    case CreateScimUserStep(org, invitee) =>
      if invitee.Some? {
        OtherOrgUserAdded(s, OrgUser(org, invitee.value, Member, false, Provisioned, "pending_key_exchange"), o);
      }
    case UpdateScimUserStep(org, user, active) =>
      var found := FindOrgUser(s, org, user);
      if found.Some? {
        OtherStatus(s, org, user, ActiveStatus(s.orgUsers[found.value].status, active), o);
      }
    case PatchScimUserStep(org, user, actives) =>
      var found := FindOrgUser(s, org, user);
      if found.Some? {
        OtherStatus(s, org, user, PatchedStatus(s.orgUsers[found.value].status, actives), o);
      }
    case DeleteScimUserStep(org, user) =>
      if FindOrgUser(s, org, user).Some? {
        OtherOrgUserDeleted(s, FindOrgUser(s, org, user).value, o);
      }
  }

  // ---- teams and groups ----

  lemma OtherCreateTeam(s: State, org: Id, user: Id, name: string, o: Id)
    requires Valid(s) && org != o
    ensures Same(s, CreateTeam(s, org, user, name).0, o)
  {
    OtherTeamAdded(s, Team(org, name, false), o);
  }

  lemma OtherRemoveTeam(s: State, id: Id, user: Id, o: Id)
    requires Valid(s) && !TeamOf(s, id, o)
    ensures Same(s, RemoveTeam(s, id, user).0, o)
  {
    if id in s.teams {
      OtherTeamDeleted(s, id, o);
    }
  }

  lemma OtherAddTeamMember(s: State, team: Id, user: Id, target: Id, manager: bool, o: Id)
    requires Valid(s) && !TeamOf(s, team, o)
    ensures Same(s, AddTeamMember(s, team, user, target, manager).0, o)
  {
    OtherTeamUserAdded(s, TeamUser(team, target, manager), o);
  }

  lemma OtherAddMissing(s: State, team: Id, refs: Refs, current: set<Id>, o: Id)
    requires Valid(s) && team in s.teams && s.teams[team].org != o
    ensures Same(s, AddMissing(s, team, refs, current, |refs|), o)
  {
    AddMissingRows(s, team, refs, current, |refs|);
    OtherTeamUsers(s, AddMissing(s, team, refs, current, |refs|), o);
  }

  lemma OtherSync(s: State, team: Id, refs: Refs, o: Id)
    requires Valid(s) && team in s.teams && s.teams[team].org != o
    ensures Same(s, Sync(s, team, refs), o)
  {
    AddMissingRows(s, team, refs, TeamMembers(s, team), |refs|);
    OtherTeamUsers(s, Sync(s, team, refs), o);
  }

  lemma OtherRenamed(s: State, team: Id, name: string, o: Id)
    requires team in s.teams && s.teams[team].org != o
    ensures Same(s, s.(teams := s.teams[team := s.teams[team].(name := name)]), o)
  {
  }

  lemma OtherUpdateGroup(s: State, org: Id, team: Id, name: string, refs: Refs, o: Id)
    requires Valid(s) && org != o
    ensures Same(s, UpdateGroup(s, org, team, name, refs).0, o)
  {
    if TeamOf(s, team, org) {
      var t := s.(teams := s.teams[team := s.teams[team].(name := name)]);
      RenamedTeam(s, team, name);
      OtherRenamed(s, team, name, o);
      OtherSync(t, team, refs, o);
      }
  }

  lemma OtherRemoveFromGroup(s: State, org: Id, team: Id, reference: Option<Id>, o: Id)
    requires Valid(s) && org != o
    ensures Same(s, RemoveFromGroup(s, org, team, reference).0, o)
  {
    if TeamOf(s, team, org) {
      OtherTeamUsers(s, RemoveFromGroup(s, org, team, reference).0, o);
    }
  }

  lemma OtherGroup(s: State, step: GroupStep, o: Id)
    requires Valid(s) && step.org != o
    ensures Same(s, GroupCall(s, step).0, o)
  {
    match step
    case CreateGroupStep(org, name) => OtherTeamAdded(s, Team(org, name, false), o);
    case UpdateGroupStep(org, id, name, refs) => OtherUpdateGroup(s, org, id, name, refs, o);
    case AddToGroupStep(org, id, refs) =>
      if TeamOf(s, id, org) {
        OtherAddMissing(s, id, refs, {}, o);
      }
    case RemoveFromGroupStep(org, id, reference) => OtherRemoveFromGroup(s, org, id, reference, o);
    case DeleteGroupStep(org, id) =>
      if TeamOf(s, id, org) {
        OtherTeamDeleted(s, id, o);
      }
  }

  // ---- collections and items ----

  lemma OtherDeleteCollection(s: State, id: Id, user: Id, o: Id)
    requires Valid(s) && !CollectionOf(s, id, o)
    ensures Same(s, DeleteCollection(s, id, user).0, o)
  {
    if DeleteCollection(s, id, user).1.None? {
      var t := MoveItems(s, id, FindDefaultCollection(s, s.collections[id].org).value);
      OtherItemsMoved(s, id, FindDefaultCollection(s, s.collections[id].org).value, o);
      OtherCollectionDeleted(t, id, o);
      }
  }

  lemma OtherSetUserGrant(s: State, collection: Id, id: Id, access: Access, o: Id)
    requires Valid(s) && !CollectionOf(s, collection, o)
    ensures Same(s, SetUserGrant(s, collection, id, access), o)
  {
    var found := FindUserGrant(s, collection, id);
    UserGrantFound(s, collection, id);
    if found.Some? {
      OtherUserGrantChanged(s, found.value, s.userGrants[found.value].(access := access), o);
    } else {
      OtherUserGrantAdded(s, CollectionUser(collection, id, access), o);
    }
  }

  lemma OtherSetTeamGrant(s: State, collection: Id, team: Id, access: Access, o: Id)
    requires Valid(s) && !CollectionOf(s, collection, o)
    ensures Same(s, SetTeamGrant(s, collection, team, access), o)
  {
    var found := FindTeamGrant(s, collection, team);
    TeamGrantFound(s, collection, team);
    if found.Some? {
      OtherTeamGrantChanged(s, found.value, s.teamGrants[found.value].(access := access), o);
    } else {
      OtherTeamGrantAdded(s, CollectionTeam(collection, team, access), o);
    }
  }

  lemma OtherRevokeUser(s: State, collection: Id, id: Id, o: Id)
    requires !CollectionOf(s, collection, o)
    ensures Same(s, DeleteUserGrants(s, collection, id), o)
  {
  }

  lemma OtherRevokeTeam(s: State, collection: Id, team: Id, o: Id)
    requires !CollectionOf(s, collection, o)
    ensures Same(s, DeleteTeamGrants(s, collection, team), o)
  {
  }

  lemma OtherCreateCollection(s: State, org: Id, user: Id, name: string, limit: Option<nat>, o: Id)
    requires Valid(s) && org != o
    ensures Same(s, CreateCollection(s, org, user, name, limit).0, o)
  {
    OtherCollectionAdded(s, Collection(org, name, false, false), o);
  }

  lemma OtherCollection(s: State, step: CollectionStep, o: Id)
    requires Valid(s) && if step.CreateCollectionStep? then step.org != o else !CollectionOf(s, step.id, o)
    ensures Same(s, CollectionCall(s, step).0, o)
  {
    match step
    case CreateCollectionStep(org, user, name, limit) => OtherCreateCollection(s, org, user, name, limit, o);
    case DeleteCollectionStep(id, user) => OtherDeleteCollection(s, id, user, o);
    case GrantUserStep(id, target, user, access) => OtherSetUserGrant(s, id, target, access, o);
    case GrantTeamStep(id, target, user, access) => OtherSetTeamGrant(s, id, target, access, o);
    case RevokeUserStep(id, target, user) => OtherRevokeUser(s, id, target, o);
    case RevokeTeamStep(id, target, user) => OtherRevokeTeam(s, id, target, o);
  }

  lemma OtherCreateItem(s: State, org: Id, user: Id, collection: Option<Id>, content: nat, typeValid: bool, o: Id)
    requires Valid(s) && org != o
    ensures Same(s, CreateItem(s, org, user, collection, content, typeValid).0, o)
  {
    var (t, c) := if collection.Some? then (s, collection.value) else EnsureDefaultCollection(s, org);
    DefaultCollectionKeeps(s, org);
    OtherDefaultCollection(s, org, o);
    OtherItemAdded(t, Item(org, Some(c), user, content, false), o);
  }

  predicate ItemOf(s: State, id: Id, org: Id) {
    id in s.items && s.items[id].org == org
  }

  lemma OtherUpdateItem(s: State, item: Id, user: Id, collection: Option<Id>, content: Option<nat>, o: Id)
    requires !ItemOf(s, item, o)
    ensures Same(s, UpdateItem(s, item, user, collection, content).0, o)
  {
    if item in s.items {
      var y := if collection.Some? then s.items[item].(collection := collection) else s.items[item];
      OtherItemChanged(s, item, if content.Some? then y.(data := content.value) else y, o);
    }
  }

  lemma OtherDeleteItem(s: State, item: Id, user: Id, o: Id)
    requires !ItemOf(s, item, o)
    ensures Same(s, DeleteItem(s, item, user).0, o)
  {
    if item in s.items {
      OtherItemChanged(s, item, s.items[item].(deleted := true), o);
    }
  }

  lemma OtherItem(s: State, step: ItemStep, o: Id)
    requires Valid(s) && if step.CreateItemStep? then step.org != o else !ItemOf(s, step.id, o)
    ensures Same(s, ItemCall(s, step).0, o)
  {
    match step
    case CreateItemStep(org, user, collection, content, typeValid) => OtherCreateItem(s, org, user, collection, content, typeValid, o);
    case UpdateItemStep(id, user, collection, content) => OtherUpdateItem(s, id, user, collection, content, o);
    case DeleteItemStep(id, user) => OtherDeleteItem(s, id, user, o);
  }

  // ---- the calls that name a row without comparing its organization ----

  /** Nothing changes in any organization but one. */
  ghost predicate Isolated(s: State, t: State, own: Option<Id>) {
    forall o: Id :: own != Some(o) ==> Same(s, t, o)
  }

  lemma OrgUserSeen(s: State, t: State, id: Id)
    requires id in s.orgUsers && Same(s, t, s.orgUsers[id].org)
    ensures id in t.orgUsers && t.orgUsers[id] == s.orgUsers[id]
  {
    assert id in OrgUsersIn(s.orgUsers, s.orgUsers[id].org);
  }

  lemma TeamUserSeen(s: State, t: State, row: Id)
    requires row in s.teamUsers && s.teamUsers[row].team in s.teams && Same(s, t, s.teams[s.teamUsers[row].team].org)
    ensures row in t.teamUsers && t.teamUsers[row] == s.teamUsers[row]
  {
    assert row in TeamUsersIn(s.teamUsers, s.teams, s.teams[s.teamUsers[row].team].org);
  }

  /** The membership named keeps its role and access. */
  predicate RoleStays(m: OrgUser, role: Role, all: Option<bool>) {
    m.role == role && (all.None? || all.value == m.accessAll)
  }

  lemma RoleIsolatedIff(s: State, org: Id, id: Id, user: Id, role: Role, all: Option<bool>)
    requires UpdateMemberRole(s, org, id, user, role, all).1.None?
    ensures id in s.orgUsers
    ensures Isolated(s, UpdateMemberRole(s, org, id, user, role, all).0, Some(org)) <==>
            s.orgUsers[id].org == org || RoleStays(s.orgUsers[id], role, all)
  {
    var t, m := UpdateMemberRole(s, org, id, user, role, all).0, s.orgUsers[id];
    if m.org == org {
      forall o: Id | o != org
        ensures Same(s, t, o)
      {
        OtherOrgUserChanged(s, id, t.orgUsers[id], o);
      }
    } else if RoleStays(m, role, all) {
      assert t.orgUsers == s.orgUsers;
    } else if Same(s, t, m.org) {
      OrgUserSeen(s, t, id);
    }
  }

  lemma OwnTeamUserChanged(s: State, t: State, row: Id, org: Id)
    requires t == s.(teamUsers := t.teamUsers) && (row in s.teamUsers ==> TeamOf(s, s.teamUsers[row].team, org))
    requires forall i :: i != row ==> (i in t.teamUsers <==> i in s.teamUsers)
    requires forall i :: i != row && i in s.teamUsers ==> t.teamUsers[i] == s.teamUsers[i]
    requires row in t.teamUsers ==> TeamOf(s, t.teamUsers[row].team, org)
    ensures Isolated(s, t, Some(org))
  {
    forall o: Id | o != org
      ensures Same(s, t, o)
    {
      OtherTeamUsers(s, t, o);
    }
  }

  lemma ManagerIsolatedIff(s: State, team: Id, row: Id, user: Id, manager: bool)
    requires Valid(s) && UpdateTeamMember(s, team, row, user, manager).1.None?
    ensures team in s.teams && row in s.teamUsers
    ensures Isolated(s, UpdateTeamMember(s, team, row, user, manager).0, Some(s.teams[team].org)) <==>
            TeamOf(s, s.teamUsers[row].team, s.teams[team].org) || s.teamUsers[row].manager == manager
  {
    var t, org, r := UpdateTeamMember(s, team, row, user, manager).0, s.teams[team].org, s.teamUsers[row];
    if TeamOf(s, r.team, org) {
      OwnTeamUserChanged(s, t, row, org);
    } else if r.manager == manager {
      assert t.teamUsers == s.teamUsers;
    } else if Same(s, t, s.teams[r.team].org) {
      TeamUserSeen(s, t, row);
    }
  }

  lemma RemovalIsolatedIff(s: State, team: Id, row: Id, user: Id)
    requires Valid(s) && RemoveTeamMember(s, team, row, user).1.None?
    ensures team in s.teams
    ensures Isolated(s, RemoveTeamMember(s, team, row, user).0, Some(s.teams[team].org)) <==>
            (row in s.teamUsers ==> TeamOf(s, s.teamUsers[row].team, s.teams[team].org))
  {
    var t, org := RemoveTeamMember(s, team, row, user).0, s.teams[team].org;
    if row !in s.teamUsers || TeamOf(s, s.teamUsers[row].team, org) {
      OwnTeamUserChanged(s, t, row, org);
    } else if Same(s, t, s.teams[s.teamUsers[row].team].org) {
      TeamUserSeen(s, t, row);
    }
  }

  // ---- every call ----

  /** The organization a call is made for, or None when the entity it names is unknown. */
  function OwnOrg(s: State, step: Step): Option<Id> {
    match step
    case OnOrg(c) => Some(if c.CreateOrgStep? then s.next else c.org)
    case OnMember(c) =>
      if c.AcceptStep? then OrgUserOrg(s, c.id) else if c.AddExistingStep? then Some(c.row.org) else Some(c.org)
    case OnScimUser(c) => Some(c.org)
    case OnTeam(c) => if c.CreateTeamStep? then Some(c.org) else TeamOrg(s, c.id)
    case OnGroup(c) => Some(c.org)
    case OnCollection(c) => if c.CreateCollectionStep? then Some(c.org) else CollectionOrg(s, c.id)
    case OnItem(c) => if c.CreateItemStep? then Some(c.org) else ItemOrg(s, c.id)
  }

  function OrgUserOrg(s: State, id: Id): Option<Id> {
    if id in s.orgUsers then Some(s.orgUsers[id].org) else None
  }

  function TeamOrg(s: State, id: Id): Option<Id> {
    if id in s.teams then Some(s.teams[id].org) else None
  }

  function CollectionOrg(s: State, id: Id): Option<Id> {
    if id in s.collections then Some(s.collections[id].org) else None
  }

  function ItemOrg(s: State, id: Id): Option<Id> {
    if id in s.items then Some(s.items[id].org) else None
  }

  /** The membership whose role is set belongs to the organization named, or is not changed. */
  predicate OwnMember(s: State, step: OrgStep) {
    step.RoleStep? && UpdateMemberRole(s, step.org, step.id, step.user, step.role, step.setAccessAll).1.None? ==>
      OrgUserOf(s, step.id, step.org) || (step.id in s.orgUsers && RoleStays(s.orgUsers[step.id], step.role, step.setAccessAll))
  }

  /** The team row that is changed or removed belongs to the organization of the team named, or is not changed. */
  predicate OwnTeamUser(s: State, step: TeamStep) {
    match step
    case UpdateTeamMemberStep(id, member, user, manager) =>
      UpdateTeamMember(s, id, member, user, manager).1.None? ==>
        && id in s.teams && member in s.teamUsers
        && (TeamOf(s, s.teamUsers[member].team, s.teams[id].org) || s.teamUsers[member].manager == manager)
    case RemoveTeamMemberStep(id, member, user) =>
      RemoveTeamMember(s, id, member, user).1.None? && member in s.teamUsers ==>
        id in s.teams && TeamOf(s, s.teamUsers[member].team, s.teams[id].org)
    case _ => true
  }

  predicate OwnRow(s: State, step: Step) {
    (step.OnOrg? ==> OwnMember(s, step.o)) && (step.OnTeam? ==> OwnTeamUser(s, step.t))
  }

  lemma OrgCallIsolatedIff(s: State, step: OrgStep)
    requires Valid(s)
    ensures Isolated(s, OrgCall(s, step).0, OwnOrg(s, OnOrg(step))) <==> OwnMember(s, step)
  {
    if step.RoleStep? {
      if UpdateMemberRole(s, step.org, step.id, step.user, step.role, step.setAccessAll).1.None? {
        RoleIsolatedIff(s, step.org, step.id, step.user, step.role, step.setAccessAll);
      }
    } else {
      forall o: Id | Some(o) != OwnOrg(s, OnOrg(step))
        ensures Same(s, OrgCall(s, step).0, o)
      {
        OtherOrgCall(s, step, o);
      }
    }
  }

  lemma OtherOrgCall(s: State, step: OrgStep, o: Id)
    requires Valid(s) && !step.RoleStep? && Some(o) != OwnOrg(s, OnOrg(step))
    ensures Same(s, OrgCall(s, step).0, o)
  {
    match step
    case CreateOrgStep(user, key, known, planFound) => OtherCreate(s, user, key, known, planFound, o);
    case DeleteOrgStep(org, user) => OtherDelete(s, org, user, o);
    case InviteStep(org, user, role, all, key, invitee, limit, enforcing, invited) =>
      OtherInvite(s, org, user, role, all, key, invitee, limit, enforcing, invited, o);
    case RemoveStep(org, id, user) => OtherRemove(s, org, id, user, o);
  }

  lemma OtherMemberCall(s: State, step: MemberStep, o: Id)
    requires Valid(s) && Some(o) != OwnOrg(s, OnMember(step))
    ensures Same(s, MemberCall(s, step).0, o)
  {
    match step
    case AcceptStep(id, user, key, enforcing) => OtherAccept(s, id, user, key, enforcing, o);
    case ConfirmStep(org, id, user, key) => OtherConfirm(s, org, id, user, key, o);
    case AddExistingStep(row) => OtherAddExisting(s, row, o);
    case DeclineStep(org, user) => OtherDecline(s, org, user, o);
  }

  lemma OtherTeamCall(s: State, step: TeamStep, o: Id)
    requires Valid(s) && Some(o) != OwnOrg(s, OnTeam(step)) && !step.UpdateTeamMemberStep? && !step.RemoveTeamMemberStep?
    ensures Same(s, TeamCall(s, step).0, o)
  {
    match step
    case CreateTeamStep(org, user, name) => OtherCreateTeam(s, org, user, name, o);
    case RemoveTeamStep(id, user) => OtherRemoveTeam(s, id, user, o);
    case AddTeamMemberStep(id, user, target, manager) => OtherAddTeamMember(s, id, user, target, manager, o);
  }

  lemma UpdateTeamMemberIsolatedIff(s: State, step: TeamStep)
    requires Valid(s) && step.UpdateTeamMemberStep?
    ensures Isolated(s, TeamCall(s, step).0, OwnOrg(s, OnTeam(step))) <==> OwnTeamUser(s, step)
  {
    var r := UpdateTeamMember(s, step.id, step.member, step.user, step.manager);
    if r.1.None? {
      ManagerIsolatedIff(s, step.id, step.member, step.user, step.manager);
    } else {
      assert r.0 == s;
    }
  }

  lemma RemoveTeamMemberIsolatedIff(s: State, step: TeamStep)
    requires Valid(s) && step.RemoveTeamMemberStep?
    ensures Isolated(s, TeamCall(s, step).0, OwnOrg(s, OnTeam(step))) <==> OwnTeamUser(s, step)
  {
    if RemoveTeamMember(s, step.id, step.member, step.user).1.None? {
      RemovalIsolatedIff(s, step.id, step.member, step.user);
    }
  }

  lemma OtherTeamCallIsolated(s: State, step: TeamStep)
    requires Valid(s) && !step.UpdateTeamMemberStep? && !step.RemoveTeamMemberStep?
    ensures Isolated(s, TeamCall(s, step).0, OwnOrg(s, OnTeam(step)))
  {
    forall o: Id | Some(o) != OwnOrg(s, OnTeam(step))
      ensures Same(s, TeamCall(s, step).0, o)
    {
      OtherTeamCall(s, step, o);
    }
  }

  lemma TeamCallIsolatedIff(s: State, step: TeamStep)
    requires Valid(s)
    ensures Isolated(s, TeamCall(s, step).0, OwnOrg(s, OnTeam(step))) <==> OwnTeamUser(s, step)
  {
    if step.UpdateTeamMemberStep? {
      UpdateTeamMemberIsolatedIff(s, step);
    } else if step.RemoveTeamMemberStep? {
      RemoveTeamMemberIsolatedIff(s, step);
    } else {
      OtherTeamCallIsolated(s, step);
      assert OwnTeamUser(s, step);
    }
  }

  lemma OtherCall(s: State, step: Step, o: Id)
    requires Valid(s) && Some(o) != OwnOrg(s, step) && !step.OnOrg? && !step.OnTeam?
    ensures Same(s, Call(s, step).0, o)
  {
    match step
    case OnMember(m) => OtherMemberCall(s, m, o);
    case OnScimUser(u) => OtherScimUser(s, u, o);
    case OnGroup(g) => OtherGroup(s, g, o);
    case OnCollection(c) => OtherCollection(s, c, o);
    case OnItem(i) => OtherItem(s, i, o);
  }

  /** Main result: a call changes nothing in any organization but the one it is made for, exactly when it
      is no change of a role or of a team's row that takes effect on a row of another organization. */
  lemma CallIsolatedIff(s: State, step: Step)
    requires Valid(s)
    ensures Isolated(s, Call(s, step).0, OwnOrg(s, step)) <==> OwnRow(s, step)
  {
    match step
    case OnOrg(c) => OrgCallIsolatedIff(s, c);
    case OnTeam(c) => TeamCallIsolatedIff(s, c);
    case _ =>
      forall o: Id | Some(o) != OwnOrg(s, step)
        ensures Same(s, Call(s, step).0, o)
      {
        OtherCall(s, step, o);
      }
  }

  // ---- runs ----

  /** A call for another organization, on rows of its own. */
  predicate ForOther(s: State, step: Step, o: Id) {
    OwnOrg(s, step) != Some(o) && OwnRow(s, step)
  }

  predicate MadeForOthers(states: seq<State>, steps: seq<Step>, o: Id)
    requires |steps| <= |states|
  {
    forall i {:trigger steps[i]} :: 0 <= i < |steps| ==> ForOther(states[i], steps[i], o)
  }

  lemma OtherStep(s: State, step: Step, t: State, o: Id)
    requires Valid(s) && t == Call(s, step).0 && ForOther(s, step, o)
    ensures Same(s, t, o)
  {
    CallIsolatedIff(s, step);
  }

  lemma SameNext(states: seq<State>, steps: seq<Step>, o: Id, k: nat)
    requires IsRun(states, steps) && k < |steps| && MadeForOthers(states, steps, o) && Valid(states[k])
    ensures Same(states[k], states[k + 1], o)
  {
    OtherStep(states[k], steps[k], states[k + 1], o);
  }

  /** Whatever the tenants of other organizations do, an organization's rows stay as they are. */
  lemma {:induction false} TenantUntouched(states: seq<State>, steps: seq<Step>, o: Id, k: nat)
    requires IsRun(states, steps) && Valid(states[0]) && k <= |steps| && MadeForOthers(states, steps, o)
    ensures Same(states[0], states[k], o)
  {
    if k > 0 {
      TenantUntouched(states, steps, o, k - 1);
      RunKeepsValid(states, steps, k - 1);
      SameNext(states, steps, o, k - 1);
    }
  }
}

/** What every reachable state of the organization graph satisfies, and why each row change keeps it. */
module OrgInvariant {
  import opened Wrappers
  import opened Members
  import opened OrgTables

  predicate Below<T>(rows: map<Id, T>, next: Id) {
    forall i :: i in rows ==> i < next
  }

  predicate IdsBelow(s: State) {
    && Below(s.orgs, s.next) && Below(s.orgUsers, s.next) && Below(s.teams, s.next) && Below(s.teamUsers, s.next)
    && Below(s.collections, s.next) && Below(s.userGrants, s.next) && Below(s.teamGrants, s.next)
    && Below(s.items, s.next)
  }

  // ---- tenancy: rows join entities of one organization ----

  predicate JoinsTeam(r: TeamUser, teams: map<Id, Team>, orgUsers: map<Id, OrgUser>) {
    r.team in teams && r.orgUser in orgUsers && teams[r.team].org == orgUsers[r.orgUser].org
  }

  predicate JoinsUser(r: CollectionUser, collections: map<Id, Collection>, orgUsers: map<Id, OrgUser>) {
    r.collection in collections && r.orgUser in orgUsers && collections[r.collection].org == orgUsers[r.orgUser].org
  }

  predicate JoinsGroup(r: CollectionTeam, collections: map<Id, Collection>, teams: map<Id, Team>) {
    r.collection in collections && r.team in teams && collections[r.collection].org == teams[r.team].org
  }

  predicate MembersOfOrgs(orgUsers: map<Id, OrgUser>, orgs: map<Id, Org>) {
    forall i :: i in orgUsers ==> orgUsers[i].org in orgs
  }

  /** A live item lies in a live collection of its own organization. */
  predicate Placed(x: Item, collections: map<Id, Collection>) {
    x.deleted || (x.collection.Some? && x.collection.value in collections && !collections[x.collection.value].deleted
                  && collections[x.collection.value].org == x.org)
  }

  predicate TeamUsersJoin(rows: map<Id, TeamUser>, teams: map<Id, Team>, orgUsers: map<Id, OrgUser>) {
    forall i :: i in rows ==> JoinsTeam(rows[i], teams, orgUsers)
  }

  predicate UserGrantsJoin(rows: map<Id, CollectionUser>, collections: map<Id, Collection>, orgUsers: map<Id, OrgUser>) {
    forall i :: i in rows ==> JoinsUser(rows[i], collections, orgUsers)
  }

  predicate TeamGrantsJoin(rows: map<Id, CollectionTeam>, collections: map<Id, Collection>, teams: map<Id, Team>) {
    forall i :: i in rows ==> JoinsGroup(rows[i], collections, teams)
  }

  predicate ItemsPlaced(items: map<Id, Item>, collections: map<Id, Collection>) {
    forall i :: i in items ==> Placed(items[i], collections)
  }

  // ---- functionality: at most one row ----

  predicate UniqueOrgUsers(rows: map<Id, OrgUser>) {
    forall i, j :: i in rows && j in rows && rows[i].org == rows[j].org && rows[i].user == rows[j].user ==> i == j
  }

  predicate UniqueUserGrants(rows: map<Id, CollectionUser>) {
    forall i, j :: i in rows && j in rows && rows[i].collection == rows[j].collection && rows[i].orgUser == rows[j].orgUser ==> i == j
  }

  predicate UniqueTeamGrants(rows: map<Id, CollectionTeam>) {
    forall i, j :: i in rows && j in rows && rows[i].collection == rows[j].collection && rows[i].team == rows[j].team ==> i == j
  }

  predicate LiveDefault(c: Collection) {
    c.isDefault && !c.deleted
  }

  predicate OneDefaultCollection(rows: map<Id, Collection>) {
    forall i, j :: i in rows && j in rows && LiveDefault(rows[i]) && LiveDefault(rows[j]) && rows[i].org == rows[j].org ==> i == j
  }

  predicate OneDefaultTeam(rows: map<Id, Team>) {
    forall i, j :: i in rows && j in rows && rows[i].isDefault && rows[j].isDefault && rows[i].org == rows[j].org ==> i == j
  }

  predicate Tenancy(s: State) {
    && MembersOfOrgs(s.orgUsers, s.orgs)
    && TeamUsersJoin(s.teamUsers, s.teams, s.orgUsers)
    && UserGrantsJoin(s.userGrants, s.collections, s.orgUsers)
    && TeamGrantsJoin(s.teamGrants, s.collections, s.teams)
    && ItemsPlaced(s.items, s.collections)
  }

  predicate Functional(s: State) {
    && UniqueOrgUsers(s.orgUsers) && UniqueUserGrants(s.userGrants) && UniqueTeamGrants(s.teamGrants)
    && OneDefaultCollection(s.collections) && OneDefaultTeam(s.teams)
  }

  predicate Valid(s: State) {
    IdsBelow(s) && Tenancy(s) && Functional(s)
  }

  // ---- what the queries find ----

  lemma OrgUserFound(s: State, org: Id, user: Id)
    requires Below(s.orgUsers, s.next)
    ensures FindOrgUser(s, org, user).Some? ==>
              var i := FindOrgUser(s, org, user).value; i in s.orgUsers && s.orgUsers[i].org == org && s.orgUsers[i].user == user
    ensures FindOrgUser(s, org, user).None? ==> forall i :: i in s.orgUsers ==> !(s.orgUsers[i].org == org && s.orgUsers[i].user == user)
  {
    FirstIdFinds(s.orgUsers, (m: OrgUser) => m.org == org && m.user == user, 0, s.next);
  }

  lemma TeamUserFound(s: State, team: Id, orgUser: Id)
    requires Below(s.teamUsers, s.next)
    ensures FindTeamUser(s, team, orgUser).Some? <==> exists i :: i in s.teamUsers && s.teamUsers[i].team == team && s.teamUsers[i].orgUser == orgUser
  {
    FirstIdFinds(s.teamUsers, (r: TeamUser) => r.team == team && r.orgUser == orgUser, 0, s.next);
  }

  lemma UserGrantFound(s: State, collection: Id, orgUser: Id)
    requires Below(s.userGrants, s.next)
    ensures FindUserGrant(s, collection, orgUser).Some? ==>
              var i := FindUserGrant(s, collection, orgUser).value;
              i in s.userGrants && s.userGrants[i].collection == collection && s.userGrants[i].orgUser == orgUser
    ensures FindUserGrant(s, collection, orgUser).None? ==>
              forall i :: i in s.userGrants ==> !(s.userGrants[i].collection == collection && s.userGrants[i].orgUser == orgUser)
  {
    FirstIdFinds(s.userGrants, (r: CollectionUser) => r.collection == collection && r.orgUser == orgUser, 0, s.next);
  }

  lemma TeamGrantFound(s: State, collection: Id, team: Id)
    requires Below(s.teamGrants, s.next)
    ensures FindTeamGrant(s, collection, team).Some? ==>
              var i := FindTeamGrant(s, collection, team).value;
              i in s.teamGrants && s.teamGrants[i].collection == collection && s.teamGrants[i].team == team
    ensures FindTeamGrant(s, collection, team).None? ==>
              forall i :: i in s.teamGrants ==> !(s.teamGrants[i].collection == collection && s.teamGrants[i].team == team)
  {
    FirstIdFinds(s.teamGrants, (r: CollectionTeam) => r.collection == collection && r.team == team, 0, s.next);
  }

  lemma DefaultTeamFound(s: State, org: Id)
    requires Below(s.teams, s.next)
    ensures FindDefaultTeam(s, org).Some? ==>
              var i := FindDefaultTeam(s, org).value; i in s.teams && s.teams[i].org == org && s.teams[i].isDefault
    ensures FindDefaultTeam(s, org).None? ==> forall i :: i in s.teams ==> !(s.teams[i].org == org && s.teams[i].isDefault)
  {
    FirstIdFinds(s.teams, (t: Team) => t.org == org && t.isDefault, 0, s.next);
  }

  lemma DefaultCollectionFound(s: State, org: Id)
    requires Below(s.collections, s.next)
    ensures FindDefaultCollection(s, org).Some? ==>
              var i := FindDefaultCollection(s, org).value;
              i in s.collections && s.collections[i].org == org && LiveDefault(s.collections[i])
    ensures FindDefaultCollection(s, org).None? ==>
              forall i :: i in s.collections ==> !(s.collections[i].org == org && LiveDefault(s.collections[i]))
  {
    FirstIdFinds(s.collections, (c: Collection) => c.org == org && c.isDefault && !c.deleted, 0, s.next);
  }

  // ---- new rows ----

  lemma NewOrgRow(s: State, o: Org)
    requires Valid(s)
    ensures Valid(AddOrg(s, o))
  {
  }

  lemma NewOrgUser(s: State, m: OrgUser)
    requires Valid(s) && m.org in s.orgs && FindOrgUser(s, m.org, m.user).None?
    ensures Valid(AddOrgUser(s, m))
  {
    OrgUserFound(s, m.org, m.user);
  }

  lemma NewTeam(s: State, t: Team)
    requires Valid(s) && (t.isDefault ==> FindDefaultTeam(s, t.org).None?)
    ensures Valid(AddTeam(s, t))
  {
    DefaultTeamFound(s, t.org);
  }

  lemma NewTeamUser(s: State, r: TeamUser)
    requires Valid(s) && JoinsTeam(r, s.teams, s.orgUsers)
    ensures Valid(AddTeamUser(s, r))
  {
  }

  lemma NewCollection(s: State, c: Collection)
    requires Valid(s) && (c.isDefault ==> FindDefaultCollection(s, c.org).None?)
    ensures Valid(AddCollection(s, c))
  {
    DefaultCollectionFound(s, c.org);
  }

  lemma NewUserGrant(s: State, r: CollectionUser)
    requires Valid(s) && JoinsUser(r, s.collections, s.orgUsers) && FindUserGrant(s, r.collection, r.orgUser).None?
    ensures Valid(AddUserGrant(s, r))
  {
    UserGrantFound(s, r.collection, r.orgUser);
  }

  lemma NewTeamGrant(s: State, r: CollectionTeam)
    requires Valid(s) && JoinsGroup(r, s.collections, s.teams) && FindTeamGrant(s, r.collection, r.team).None?
    ensures Valid(AddTeamGrant(s, r))
  {
    TeamGrantFound(s, r.collection, r.team);
  }

  lemma NewItem(s: State, x: Item)
    requires Valid(s) && Placed(x, s.collections)
    ensures Valid(AddItem(s, x))
  {
  }

  // ---- changed rows ----

  lemma ChangedOrgUser(s: State, i: Id, m: OrgUser)
    requires Valid(s) && i in s.orgUsers && m.org == s.orgUsers[i].org && m.user == s.orgUsers[i].user
    ensures Valid(s.(orgUsers := s.orgUsers[i := m]))
  {
  }

  lemma ChangedTeamUser(s: State, i: Id, r: TeamUser)
    requires Valid(s) && i in s.teamUsers && r.team == s.teamUsers[i].team && r.orgUser == s.teamUsers[i].orgUser
    ensures Valid(s.(teamUsers := s.teamUsers[i := r]))
  {
  }

  lemma ChangedUserGrant(s: State, i: Id, r: CollectionUser)
    requires Valid(s) && i in s.userGrants && r.collection == s.userGrants[i].collection && r.orgUser == s.userGrants[i].orgUser
    ensures Valid(s.(userGrants := s.userGrants[i := r]))
  {
  }

  lemma ChangedTeamGrant(s: State, i: Id, r: CollectionTeam)
    requires Valid(s) && i in s.teamGrants && r.collection == s.teamGrants[i].collection && r.team == s.teamGrants[i].team
    ensures Valid(s.(teamGrants := s.teamGrants[i := r]))
  {
  }

  lemma ChangedItem(s: State, i: Id, x: Item)
    requires Valid(s) && i in s.items && Placed(x, s.collections)
    ensures Valid(s.(items := s.items[i := x]))
  {
  }

  // ---- deleted rows ----

  lemma FewerTeamUsers(s: State, rows: map<Id, TeamUser>)
    requires Valid(s) && forall i :: i in rows ==> i in s.teamUsers && rows[i] == s.teamUsers[i]
    ensures Valid(s.(teamUsers := rows))
  {
  }

  lemma FewerUserGrants(s: State, rows: map<Id, CollectionUser>)
    requires Valid(s) && forall i :: i in rows ==> i in s.userGrants && rows[i] == s.userGrants[i]
    ensures Valid(s.(userGrants := rows))
  {
  }

  lemma FewerTeamGrants(s: State, rows: map<Id, CollectionTeam>)
    requires Valid(s) && forall i :: i in rows ==> i in s.teamGrants && rows[i] == s.teamGrants[i]
    ensures Valid(s.(teamGrants := rows))
  {
  }

  lemma DeletedOrgUser(s: State, id: Id)
    requires Valid(s)
    ensures Valid(DeleteOrgUser(s, id))
  {
  }

  lemma DeletedTeam(s: State, id: Id)
    requires Valid(s)
    ensures Valid(DeleteTeam(s, id))
  {
  }

  lemma MovedItems(s: State, from: Id, to: Id)
    requires Valid(s) && LiveCollection(s, from) && LiveCollection(s, to) && s.collections[from].org == s.collections[to].org
    ensures Valid(MoveItems(s, from, to))
  {
  }

  /** After its items moved away a collection can be deleted. */
  lemma DeletedCollection(s: State, id: Id)
    requires Valid(s) && id in s.collections
    requires forall i :: LiveItem(s, i) ==> s.items[i].collection != Some(id)
    ensures Valid(SoftDeleteCollection(s, id))
  {
    assert forall i :: i in s.items && !s.items[i].deleted ==> LiveItem(s, i);
  }

  lemma PurgedTenancy(s: State, org: Id)
    requires Tenancy(s) && org in s.orgs
    ensures Tenancy(PurgeOrg(s, org))
  {
  }

  lemma PurgedFunctional(s: State, org: Id)
    requires Functional(s) && IdsBelow(s) && org in s.orgs
    ensures Functional(PurgeOrg(s, org)) && IdsBelow(PurgeOrg(s, org))
  {
  }

  lemma PurgedOrg(s: State, org: Id)
    requires Valid(s) && org in s.orgs
    ensures Valid(PurgeOrg(s, org))
  {
    PurgedTenancy(s, org);
    PurgedFunctional(s, org);
  }
}

/** The tables of the organization graph, the queries on them, and the row changes they go through.
    Row ids come from one counter, and a query for the first match takes the lowest id. */
module OrgTables {
  import opened Wrappers
  import opened Members

  type Id = nat

  datatype Org = Org(personal: bool, deleted: bool)

  datatype OrgUser = OrgUser(org: Id, user: Id, role: Role, accessAll: bool, status: Status, key: string) {
    predicate IsOwner() { role == Owner }
    predicate IsAdmin() { role == Owner || role == Admin }
    predicate CanManageCollections() { role == Owner || role == Admin || role == Manager }
    predicate Unrestricted() { IsAdmin() || accessAll }
  }

  datatype Team = Team(org: Id, name: string, isDefault: bool)

  datatype TeamUser = TeamUser(team: Id, orgUser: Id, manager: bool)

  datatype Collection = Collection(org: Id, name: string, isDefault: bool, deleted: bool)

  datatype Access = Access(read: bool, write: bool, admin: bool, hide: bool)

  datatype CollectionUser = CollectionUser(collection: Id, orgUser: Id, access: Access)

  datatype CollectionTeam = CollectionTeam(collection: Id, team: Id, access: Access)

  /** data stands for all encrypted content and display fields. */
  datatype Item = Item(org: Id, collection: Option<Id>, creator: Id, data: nat, deleted: bool)

  datatype State = State(
    orgs: map<Id, Org>,
    orgUsers: map<Id, OrgUser>,
    teams: map<Id, Team>,
    teamUsers: map<Id, TeamUser>,
    collections: map<Id, Collection>,
    userGrants: map<Id, CollectionUser>,
    teamGrants: map<Id, CollectionTeam>,
    items: map<Id, Item>,
    next: Id)

  const EMPTY := State(map[], map[], map[], map[], map[], map[], map[], map[], 0)

  // ---- queries ----

  /** The lowest id in a range whose row satisfies a condition. */
  function FirstId<T>(rows: map<Id, T>, p: T -> bool, low: nat, high: nat): (r: Option<Id>)
    ensures r.Some? ==> low <= r.value < high && r.value in rows && p(rows[r.value])
    decreases high - low
  {
    if low >= high then None
    else if low in rows && p(rows[low]) then Some(low)
    else FirstId(rows, p, low + 1, high)
  }

  lemma {:induction false} FirstIdFinds<T>(rows: map<Id, T>, p: T -> bool, low: nat, high: nat)
    ensures FirstId(rows, p, low, high).None? ==> forall i :: low <= i < high && i in rows ==> !p(rows[i])
    decreases high - low
  {
    if low < high && !(low in rows && p(rows[low])) {
      FirstIdFinds(rows, p, low + 1, high);
    }
  }

  function FindOrgUser(s: State, org: Id, user: Id): Option<Id> {
    FirstId(s.orgUsers, (m: OrgUser) => m.org == org && m.user == user, 0, s.next)
  }

  function FindTeamUser(s: State, team: Id, orgUser: Id): Option<Id> {
    FirstId(s.teamUsers, (r: TeamUser) => r.team == team && r.orgUser == orgUser, 0, s.next)
  }

  function FindUserGrant(s: State, collection: Id, orgUser: Id): Option<Id> {
    FirstId(s.userGrants, (r: CollectionUser) => r.collection == collection && r.orgUser == orgUser, 0, s.next)
  }

  function FindTeamGrant(s: State, collection: Id, team: Id): Option<Id> {
    FirstId(s.teamGrants, (r: CollectionTeam) => r.collection == collection && r.team == team, 0, s.next)
  }

  function FindDefaultTeam(s: State, org: Id): Option<Id> {
    FirstId(s.teams, (t: Team) => t.org == org && t.isDefault, 0, s.next)
  }

  function FindDefaultCollection(s: State, org: Id): Option<Id> {
    FirstId(s.collections, (c: Collection) => c.org == org && c.isDefault && !c.deleted, 0, s.next)
  }

  function FindTeamByName(s: State, org: Id, name: string): Option<Id> {
    FirstId(s.teams, (t: Team) => t.org == org && t.name == name, 0, s.next)
  }

  function FindCollectionByName(s: State, org: Id, name: string): Option<Id> {
    FirstId(s.collections, (c: Collection) => c.org == org && c.name == name && !c.deleted, 0, s.next)
  }

  predicate LiveCollection(s: State, id: Id) {
    id in s.collections && !s.collections[id].deleted
  }

  predicate LiveItem(s: State, id: Id) {
    id in s.items && !s.items[id].deleted
  }

  function MemberCount(s: State, org: Id): nat {
    |set i | i in s.orgUsers && s.orgUsers[i].org == org && IsActive(s.orgUsers[i].status)|
  }

  function CollectionCount(s: State, org: Id): nat {
    |set i | i in s.collections && s.collections[i].org == org && !s.collections[i].deleted && !s.collections[i].isDefault|
  }

  // ---- row changes ----

  function AddOrg(s: State, o: Org): State {
    s.(orgs := s.orgs[s.next := o], next := s.next + 1)
  }

  function AddOrgUser(s: State, m: OrgUser): State {
    s.(orgUsers := s.orgUsers[s.next := m], next := s.next + 1)
  }

  function AddTeam(s: State, t: Team): State {
    s.(teams := s.teams[s.next := t], next := s.next + 1)
  }

  function AddTeamUser(s: State, r: TeamUser): State {
    s.(teamUsers := s.teamUsers[s.next := r], next := s.next + 1)
  }

  function AddCollection(s: State, c: Collection): State {
    s.(collections := s.collections[s.next := c], next := s.next + 1)
  }

  /** The read column of a grant defaults to true, and inserting takes the default for false. */
  function Inserted(a: Access): Access {
    a.(read := true)
  }

  function AddUserGrant(s: State, r: CollectionUser): State {
    s.(userGrants := s.userGrants[s.next := r.(access := Inserted(r.access))], next := s.next + 1)
  }

  function AddTeamGrant(s: State, r: CollectionTeam): State {
    s.(teamGrants := s.teamGrants[s.next := r.(access := Inserted(r.access))], next := s.next + 1)
  }

  function AddItem(s: State, x: Item): State {
    s.(items := s.items[s.next := x], next := s.next + 1)
  }

  /** Deleting a membership row cascades to its team and collection rows. */
  function DeleteOrgUser(s: State, id: Id): State {
    s.(orgUsers := s.orgUsers - {id},
       teamUsers := map i | i in s.teamUsers && s.teamUsers[i].orgUser != id :: s.teamUsers[i],
       userGrants := map i | i in s.userGrants && s.userGrants[i].orgUser != id :: s.userGrants[i])
  }

  /** Deleting a team cascades to its members and its collection rows. */
  function DeleteTeam(s: State, id: Id): State {
    s.(teams := s.teams - {id},
       teamUsers := map i | i in s.teamUsers && s.teamUsers[i].team != id :: s.teamUsers[i],
       teamGrants := map i | i in s.teamGrants && s.teamGrants[i].team != id :: s.teamGrants[i])
  }

  function DeleteUserGrants(s: State, collection: Id, orgUser: Id): State {
    s.(userGrants := map i | i in s.userGrants && !(s.userGrants[i].collection == collection && s.userGrants[i].orgUser == orgUser)
                       :: s.userGrants[i])
  }

  function DeleteTeamGrants(s: State, collection: Id, team: Id): State {
    s.(teamGrants := map i | i in s.teamGrants && !(s.teamGrants[i].collection == collection && s.teamGrants[i].team == team)
                       :: s.teamGrants[i])
  }

  function DeleteTeamUsers(s: State, team: Id, orgUser: Id): State {
    s.(teamUsers := map i | i in s.teamUsers && !(s.teamUsers[i].team == team && s.teamUsers[i].orgUser == orgUser)
                      :: s.teamUsers[i])
  }

  /** Live items of one collection move to another; deleted items stay where they are. */
  function MoveItem(x: Item, from: Id, to: Id): Item {
    if x.collection == Some(from) && !x.deleted then x.(collection := Some(to)) else x
  }

  function MoveItems(s: State, from: Id, to: Id): State {
    s.(items := map i | i in s.items :: MoveItem(s.items[i], from, to))
  }

  function SoftDeleteCollection(s: State, id: Id): State
    requires id in s.collections
  {
    s.(collections := s.collections[id := s.collections[id].(deleted := true)])
  }

  predicate CollectionOf(s: State, id: Id, org: Id) {
    id in s.collections && s.collections[id].org == org
  }

  predicate TeamOf(s: State, id: Id, org: Id) {
    id in s.teams && s.teams[id].org == org
  }

  predicate OrgUserOf(s: State, id: Id, org: Id) {
    id in s.orgUsers && s.orgUsers[id].org == org
  }

  /** Deleting an organization purges its data but keeps its row. */
  function PurgeOrg(s: State, org: Id): State
    requires org in s.orgs
  {
    s.(orgs := s.orgs[org := s.orgs[org].(deleted := true)],
       items := map i | i in s.items && s.items[i].org != org :: s.items[i],
       userGrants := map i | i in s.userGrants && !CollectionOf(s, s.userGrants[i].collection, org)
                              && !OrgUserOf(s, s.userGrants[i].orgUser, org) :: s.userGrants[i],
       teamGrants := map i | i in s.teamGrants && !CollectionOf(s, s.teamGrants[i].collection, org)
                              && !TeamOf(s, s.teamGrants[i].team, org) :: s.teamGrants[i],
       teamUsers := map i | i in s.teamUsers && !TeamOf(s, s.teamUsers[i].team, org)
                             && !OrgUserOf(s, s.teamUsers[i].orgUser, org) :: s.teamUsers[i],
       teams := map i | i in s.teams && s.teams[i].org != org :: s.teams[i],
       collections := map i | i in s.collections && s.collections[i].org != org :: s.collections[i],
       orgUsers := map i | i in s.orgUsers && s.orgUsers[i].org != org :: s.orgUsers[i])
  }
}

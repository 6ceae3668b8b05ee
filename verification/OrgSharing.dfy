/** The calls of the team, collection and item services, as functions of the tables. */
module OrgSharing {
  import opened Wrappers
  import opened Members
  import opened OrgTables
  import opened OrgMembership
  import CA = CollectionAccess

  predicate CanManage(s: State, org: Id, user: Id) {
    var m := FindOrgUser(s, org, user);
    m.Some? && s.orgUsers[m.value].CanManageCollections()
  }

  // ---- teams ----

  function CreateTeam(s: State, org: Id, user: Id, name: string): (r: Outcome)
    ensures r.0.orgUsers == s.orgUsers && r.0.next >= s.next
  {
    if !CanManage(s, org, user) then Fail(s, Forbidden)
    else if FindTeamByName(s, org, name).Some? then Fail(s, Exists)
    else Done(AddTeam(s, Team(org, name, false)))
  }

  function RemoveTeam(s: State, id: Id, user: Id): (r: Outcome)
    ensures r.0.orgUsers == s.orgUsers && r.0.next >= s.next
  {
    if id !in s.teams then Fail(s, NotFound)
    else if s.teams[id].isDefault then Fail(s, Protected)
    else if !CanManage(s, s.teams[id].org, user) then Fail(s, Forbidden)
    else Done(DeleteTeam(s, id))
  }

  /** Administrators and the team's own managers. */
  predicate CanManageTeam(s: State, team: Id, user: Id)
    requires team in s.teams
  {
    var m := FindOrgUser(s, s.teams[team].org, user);
    && m.Some?
    && (s.orgUsers[m.value].IsAdmin()
        || exists i :: i in s.teamUsers && s.teamUsers[i].team == team && s.teamUsers[i].orgUser == m.value && s.teamUsers[i].manager)
  }

  function AddTeamMember(s: State, team: Id, user: Id, target: Id, manager: bool): (r: Outcome)
    ensures r.0.orgUsers == s.orgUsers && r.0.next >= s.next
  {
    if team !in s.teams then Fail(s, NotFound)
    else if !CanManageTeam(s, team, user) then Fail(s, Forbidden)
    else if target !in s.orgUsers then Fail(s, NotFound)
    else if s.orgUsers[target].org != s.teams[team].org then Fail(s, Invalid)
    else if FindTeamUser(s, team, target).Some? then Fail(s, Exists)
    else Done(AddTeamUser(s, TeamUser(team, target, manager)))
  }

  /** The row named need not belong to the team named. */
  function UpdateTeamMember(s: State, team: Id, row: Id, user: Id, manager: bool): (r: Outcome)
    ensures r.0.orgUsers == s.orgUsers && r.0.next >= s.next
  {
    if team !in s.teams then Fail(s, NotFound)
    else if !CanManageTeam(s, team, user) then Fail(s, Forbidden)
    else if row !in s.teamUsers then Fail(s, NotFound)
    else Done(s.(teamUsers := s.teamUsers[row := s.teamUsers[row].(manager := manager)]))
  }

  function RemoveTeamMember(s: State, team: Id, row: Id, user: Id): (r: Outcome)
    ensures r.0.orgUsers == s.orgUsers && r.0.next >= s.next
  {
    if team !in s.teams then Fail(s, NotFound)
    else if !CanManageTeam(s, team, user) then Fail(s, Forbidden)
    else Done(s.(teamUsers := s.teamUsers - {row}))
  }

  // ---- collections ----

  function CreateCollection(s: State, org: Id, user: Id, name: string, limit: Option<nat>): (r: Outcome)
    ensures r.0.orgUsers == s.orgUsers && r.0.next >= s.next && r.0.teamUsers == s.teamUsers
  {
    if !CanManage(s, org, user) then Fail(s, Forbidden)
    else if limit.None? then Fail(s, PlanMissing)
    else if CollectionCount(s, org) >= limit.value then Fail(s, LimitReached)
    else if FindCollectionByName(s, org, name).Some? then Fail(s, Exists)
    else Done(AddCollection(s, Collection(org, name, false, false)))
  }

  /** The items of a deleted collection move to the default one first. */
  function DeleteCollection(s: State, id: Id, user: Id): (r: Outcome)
    ensures r.0.orgUsers == s.orgUsers && r.0.next >= s.next && r.0.teamUsers == s.teamUsers
  {
    if !LiveCollection(s, id) then Fail(s, NotFound)
    else if s.collections[id].isDefault then Fail(s, Protected)
    else if PermissionError(s, s.collections[id].org, user).Some? then Fail(s, Forbidden)
    else
      var target := FindDefaultCollection(s, s.collections[id].org);
      if target.None? then Fail(s, NotFound)
      else Done(SoftDeleteCollection(MoveItems(s, id, target.value), id))
  }

  function ManageError(s: State, collection: Id, user: Id): Option<Error> {
    if !LiveCollection(s, collection) then Some(NotFound)
    else
      var m := FindOrgUser(s, s.collections[collection].org, user);
      if m.Some? && CA.AccessOf(s, collection, m.value).admin then None else Some(Forbidden)
  }

  function SetUserGrant(s: State, collection: Id, id: Id, access: Access): State {
    var found := FindUserGrant(s, collection, id);
    if found.Some?
    then s.(userGrants := s.userGrants[found.value := s.userGrants[found.value].(access := access)])
    else AddUserGrant(s, CollectionUser(collection, id, access))
  }

  function SetTeamGrant(s: State, collection: Id, team: Id, access: Access): State {
    var found := FindTeamGrant(s, collection, team);
    if found.Some?
    then s.(teamGrants := s.teamGrants[found.value := s.teamGrants[found.value].(access := access)])
    else AddTeamGrant(s, CollectionTeam(collection, team, access))
  }

  function GrantUserAccess(s: State, collection: Id, id: Id, user: Id, access: Access): (r: Outcome)
    ensures r.0.orgUsers == s.orgUsers && r.0.next >= s.next && r.0.teamUsers == s.teamUsers
  {
    var error := ManageError(s, collection, user);
    if error.Some? then Fail(s, error.value)
    else if id !in s.orgUsers then Fail(s, NotFound)
    else if s.orgUsers[id].org != s.collections[collection].org then Fail(s, Invalid)
    else Done(SetUserGrant(s, collection, id, access))
  }

  function GrantTeamAccess(s: State, collection: Id, team: Id, user: Id, access: Access): (r: Outcome)
    ensures r.0.orgUsers == s.orgUsers && r.0.next >= s.next && r.0.teamUsers == s.teamUsers
  {
    var error := ManageError(s, collection, user);
    if error.Some? then Fail(s, error.value)
    else if team !in s.teams then Fail(s, NotFound)
    else if s.teams[team].org != s.collections[collection].org then Fail(s, Invalid)
    else Done(SetTeamGrant(s, collection, team, access))
  }

  function RevokeUserAccess(s: State, collection: Id, id: Id, user: Id): (r: Outcome)
    ensures r.0.orgUsers == s.orgUsers && r.0.next >= s.next && r.0.teamUsers == s.teamUsers
  {
    var error := ManageError(s, collection, user);
    if error.Some? then Fail(s, error.value) else Done(DeleteUserGrants(s, collection, id))
  }

  function RevokeTeamAccess(s: State, collection: Id, team: Id, user: Id): (r: Outcome)
    ensures r.0.orgUsers == s.orgUsers && r.0.next >= s.next && r.0.teamUsers == s.teamUsers
  {
    var error := ManageError(s, collection, user);
    if error.Some? then Fail(s, error.value) else Done(DeleteTeamGrants(s, collection, team))
  }

  // ---- items ----

  predicate CanWrite(s: State, collection: Id, id: Id)
    requires id in s.orgUsers
  {
    s.orgUsers[id].Unrestricted() || CA.AccessOf(s, collection, id).write || CA.AccessOf(s, collection, id).admin
  }

  /** Without a collection the item goes to the default one, which stays even if the call then fails. */
  function CreateItem(s: State, org: Id, user: Id, collection: Option<Id>, data: nat, typeValid: bool): (r: Outcome)
    ensures r.0.orgUsers == s.orgUsers && r.0.next >= s.next && r.0.teamUsers == s.teamUsers
  {
    var m := FindOrgUser(s, org, user);
    if m.None? then Fail(s, Forbidden)
    else
      var (t, c) := if collection.Some? then (s, collection.value) else EnsureDefaultCollection(s, org);
      if !LiveCollection(t, c) then Fail(t, NotFound)
      else if t.collections[c].org != org then Fail(t, Forbidden)
      else if !CanWrite(t, c, m.value) then Fail(t, Forbidden)
      else if !typeValid then Fail(t, Invalid)
      else Done(AddItem(t, Item(org, Some(c), user, data, false)))
  }

  /** An item outside every collection is its creator's only. */
  predicate CanWriteItem(s: State, x: Item, id: Id, user: Id)
    requires id in s.orgUsers
  {
    s.orgUsers[id].Unrestricted() || (if x.collection.None? then x.creator == user else CanWrite(s, x.collection.value, id))
  }

  function UpdateItem(s: State, item: Id, user: Id, collection: Option<Id>, data: Option<nat>): (r: Outcome)
    ensures r.0.orgUsers == s.orgUsers && r.0.next >= s.next && r.0.teamUsers == s.teamUsers
  {
    if !LiveItem(s, item) then Fail(s, NotFound)
    else
      var x := s.items[item];
      var m := FindOrgUser(s, x.org, user);
      if m.None? then Fail(s, Forbidden)
      else if !CanWriteItem(s, x, m.value, user) then Fail(s, Forbidden)
      else if collection.Some? && !LiveCollection(s, collection.value) then Fail(s, NotFound)
      else if collection.Some? && s.collections[collection.value].org != x.org then Fail(s, Forbidden)
      else if collection.Some? && !CanWrite(s, collection.value, m.value) then Fail(s, Forbidden)
      else
        var y := if collection.Some? then x.(collection := collection) else x;
        Done(s.(items := s.items[item := if data.Some? then y.(data := data.value) else y]))
  }

  function DeleteItem(s: State, item: Id, user: Id): (r: Outcome)
    ensures r.0.orgUsers == s.orgUsers && r.0.next >= s.next && r.0.teamUsers == s.teamUsers
  {
    if !LiveItem(s, item) then Fail(s, NotFound)
    else
      var x := s.items[item];
      var m := FindOrgUser(s, x.org, user);
      if m.None? then Fail(s, Forbidden)
      else if !CanWriteItem(s, x, m.value, user) then Fail(s, Forbidden)
      else Done(s.(items := s.items[item := x.(deleted := true)]))
  }
}

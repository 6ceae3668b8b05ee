/** The services of the organization graph, which check a request and then change the tables row by row.
    Each method is proved to do exactly what the function of its call says. */
module OrgServices {
  import opened Wrappers
  import opened Members
  import opened OrgTables
  import Calls = OrgMembership
  import Shares = OrgSharing
  import CA = CollectionAccess

  type Error = Calls.Error

  class Database {
    var tables: State

    constructor ()
      ensures tables == EMPTY
    {
      tables := EMPTY;
    }
  }

  class OrganizationService {
    const db: Database

    constructor (db: Database)
      ensures this.db == db
    {
      this.db := db;
    }

    method EnsureDefaultTeam(org: Id) returns (team: Id)
      modifies db
      ensures (db.tables, team) == Calls.EnsureDefaultTeam(old(db.tables), org)
    {
      var found := FindDefaultTeam(db.tables, org);
      if found.Some? {
        return found.value;
      }
      team := db.tables.next;
      db.tables := AddTeam(db.tables, Team(org, Calls.DEFAULT_TEAM, true));
    }

    method EnsureDefaultCollection(org: Id) returns (collection: Id)
      modifies db
      ensures (db.tables, collection) == Calls.EnsureDefaultCollection(old(db.tables), org)
    {
      var found := FindDefaultCollection(db.tables, org);
      if found.Some? {
        return found.value;
      }
      collection := db.tables.next;
      db.tables := AddCollection(db.tables, Collection(org, Calls.DEFAULT_COLLECTION, true, false));
    }

    method EnsureDefaultCollectionTeamAccess(collection: Id, team: Id)
      modifies db
      ensures db.tables == Calls.EnsureDefaultGrant(old(db.tables), collection, team)
    {
      if FindTeamGrant(db.tables, collection, team).None? {
        db.tables := AddTeamGrant(db.tables, CollectionTeam(collection, team, Access(true, false, false, false)));
      }
    }

    method EnsureOrgUserInDefaultTeam(org: Id, id: Id)
      modifies db
      ensures db.tables == Calls.EnsureInDefaultTeam(old(db.tables), org, id)
    {
      var team := EnsureDefaultTeam(org);
      if FindTeamUser(db.tables, team, id).None? {
        db.tables := AddTeamUser(db.tables, TeamUser(team, id, false));
      }
    }

    method EnsureDefaults(org: Id)
      modifies db
      ensures db.tables == Calls.EnsureDefaults(old(db.tables), org)
    {
      var team := EnsureDefaultTeam(org);
      var collection := EnsureDefaultCollection(org);
      EnsureDefaultCollectionTeamAccess(collection, team);
    }

    method CheckPermission(org: Id, user: Id) returns (error: Option<Error>)
      ensures error == Calls.PermissionError(db.tables, org, user)
    {
      var m := FindOrgUser(db.tables, org, user);
      if m.None? || !db.tables.orgUsers[m.value].IsAdmin() {
        return Some(Calls.Forbidden);
      }
      return None;
    }

    /** The loops over the user's memberships of checkSingleOrganizationPolicy, in any order. */
    method CheckSingleOrganizationPolicy(enforcing: set<Id>, org: Id, user: Id) returns (ok: bool)
      ensures ok <==> !Calls.SinglePolicyForbids(db.tables, enforcing, org, user)
    {
      var todo: set<Id> := set i | i in db.tables.orgUsers && db.tables.orgUsers[i].user == user;
      while todo != {}
        invariant forall i :: i in todo ==> i in db.tables.orgUsers
        invariant forall i :: i in db.tables.orgUsers && db.tables.orgUsers[i].user == user && db.tables.orgUsers[i].org != org
                              && IsActive(db.tables.orgUsers[i].status) && i !in todo ==>
                                !(org in enforcing || db.tables.orgUsers[i].org in enforcing)
        invariant forall i :: i in todo ==> db.tables.orgUsers[i].user == user
        decreases |todo|
      {
        var i :| i in todo;
        todo := todo - {i};
        var m := db.tables.orgUsers[i];
        if m.org != org && IsActive(m.status) && (org in enforcing || m.org in enforcing) {
          return false;
        }
      }
      return true;
    }

    method Create(user: Id, key: string, known: bool, planFound: bool) returns (error: Option<Error>)
      modifies db
      ensures (db.tables, error) == Calls.CreateOrg(old(db.tables), user, key, known, planFound)
    {
      if !known {
        return Some(Calls.Forbidden);
      }
      var org := db.tables.next;
      db.tables := AddOrg(db.tables, Org(false, false));
      var id := db.tables.next;
      db.tables := AddOrgUser(db.tables, OrgUser(org, user, Owner, true, Confirmed, key));
      EnsureDefaults(org);
      EnsureOrgUserInDefaultTeam(org, id);
      if !planFound {
        db.tables := PurgeOrg(db.tables, org);
        return Some(Calls.PlanMissing);
      }
      return None;
    }

    method Delete(org: Id, user: Id) returns (error: Option<Error>)
      modifies db
      ensures (db.tables, error) == Calls.DeleteOrg(old(db.tables), org, user)
    {
      var m := FindOrgUser(db.tables, org, user);
      if m.None? {
        return Some(Calls.NotFound);
      }
      if !db.tables.orgUsers[m.value].IsOwner() {
        return Some(Calls.Forbidden);
      }
      if org !in db.tables.orgs {
        return Some(Calls.NotFound);
      }
      if db.tables.orgs[org].personal {
        return Some(Calls.Forbidden);
      }
      db.tables := PurgeOrg(db.tables, org);
      return None;
    }

    method CheckInvite(org: Id, inviter: Id, role: Role, invitee: Option<Id>, limit: Option<nat>, enforcing: set<Id>,
                       invited: bool)
      returns (error: Option<Error>)
      ensures error == Calls.InviteError(db.tables, org, inviter, role, invitee, limit, enforcing, invited)
    {
      if role == Billing {
        return Some(Calls.Invalid);
      }
      if org !in db.tables.orgs {
        return Some(Calls.NotFound);
      }
      if db.tables.orgs[org].personal {
        return Some(Calls.Invalid);
      }
      var denied := CheckPermission(org, inviter);
      if denied.Some? {
        return denied;
      }
      if role == Owner && !Calls.IsOwner(db.tables, org, inviter) {
        return Some(Calls.Forbidden);
      }
      if limit.None? {
        return Some(Calls.PlanMissing);
      }
      if MemberCount(db.tables, org) >= limit.value {
        return Some(Calls.LimitReached);
      }
      if invitee.None? {
        return Some(Calls.NotFound);
      }
      if FindOrgUser(db.tables, org, invitee.value).Some? {
        return Some(Calls.Exists);
      }
      var single := CheckSingleOrganizationPolicy(enforcing, org, invitee.value);
      if !single {
        return Some(Calls.SinglePolicy);
      }
      if !invited {
        return Some(Calls.NotInvited);
      }
      return None;
    }

    method InviteUser(org: Id, inviter: Id, role: Role, accessAll: bool, key: string, invitee: Option<Id>,
                      limit: Option<nat>, enforcing: set<Id>, invited: bool)
      returns (error: Option<Error>)
      modifies db
      ensures (db.tables, error) ==
              Calls.InviteUser(old(db.tables), org, inviter, role, accessAll, key, invitee, limit, enforcing, invited)
    {
      error := CheckInvite(org, inviter, role, invitee, limit, enforcing, invited);
      if error.Some? {
        return;
      }
      var id := db.tables.next;
      db.tables := AddOrgUser(db.tables, OrgUser(org, invitee.value, role, accessAll, Invited, key));
      EnsureOrgUserInDefaultTeam(org, id);
      EnsureDefaults(org);
    }

    method UpdateMemberRole(org: Id, id: Id, requester: Id, role: Role, accessAll: Option<bool>) returns (error: Option<Error>)
      modifies db
      ensures (db.tables, error) == Calls.UpdateMemberRole(old(db.tables), org, id, requester, role, accessAll)
    {
      if role == Billing {
        return Some(Calls.Invalid);
      }
      error := CheckPermission(org, requester);
      if error.Some? {
        return;
      }
      if role == Owner && !Calls.IsOwner(db.tables, org, requester) {
        return Some(Calls.Forbidden);
      }
      if id !in db.tables.orgUsers {
        return Some(Calls.NotFound);
      }
      var m := db.tables.orgUsers[id];
      if m.role == Owner {
        return Some(Calls.Protected);
      }
      m := m.(role := role);
      if accessAll.Some? {
        m := m.(accessAll := accessAll.value);
      }
      db.tables := db.tables.(orgUsers := db.tables.orgUsers[id := m]);
      return None;
    }

    /** Deletes the team rows of a member one by one, in any order. */
    method DeleteTeamRows(id: Id)
      modifies db
      ensures db.tables == old(db.tables).(
                teamUsers := map i | i in old(db.tables).teamUsers && old(db.tables).teamUsers[i].orgUser != id
                               :: old(db.tables).teamUsers[i])
    {
      ghost var s := db.tables;
      var todo: set<Id> := set i | i in db.tables.teamUsers && db.tables.teamUsers[i].orgUser == id;
      ghost var all := todo;
      while todo != {}
        invariant todo <= all
        invariant db.tables == s.(teamUsers := s.teamUsers - (all - todo))
        decreases |todo|
      {
        var i :| i in todo;
        todo := todo - {i};
        db.tables := db.tables.(teamUsers := db.tables.teamUsers - {i});
      }
      assert s.teamUsers - all == map i | i in s.teamUsers && s.teamUsers[i].orgUser != id :: s.teamUsers[i];
    }

    method DeleteCollectionRows(id: Id)
      modifies db
      ensures db.tables == old(db.tables).(
                userGrants := map i | i in old(db.tables).userGrants && old(db.tables).userGrants[i].orgUser != id
                                :: old(db.tables).userGrants[i])
    {
      ghost var s := db.tables;
      var todo: set<Id> := set i | i in db.tables.userGrants && db.tables.userGrants[i].orgUser == id;
      ghost var all := todo;
      while todo != {}
        invariant todo <= all
        invariant db.tables == s.(userGrants := s.userGrants - (all - todo))
        decreases |todo|
      {
        var i :| i in todo;
        todo := todo - {i};
        db.tables := db.tables.(userGrants := db.tables.userGrants - {i});
      }
      assert s.userGrants - all == map i | i in s.userGrants && s.userGrants[i].orgUser != id :: s.userGrants[i];
    }

    method RemoveMember(org: Id, id: Id, requester: Id) returns (error: Option<Error>)
      modifies db
      ensures (db.tables, error) == Calls.RemoveMember(old(db.tables), org, id, requester)
    {
      error := CheckPermission(org, requester);
      if error.Some? {
        return;
      }
      if id !in db.tables.orgUsers {
        return Some(Calls.NotFound);
      }
      var m := db.tables.orgUsers[id];
      if m.org != org {
        return Some(Calls.Forbidden);
      }
      if m.role == Owner {
        return Some(Calls.Protected);
      }
      DeleteTeamRows(id);
      DeleteCollectionRows(id);
      db.tables := db.tables.(orgUsers := db.tables.orgUsers - {id});
      return None;
    }

    method AcceptInvitation(id: Id, user: Id, key: string, enforcing: set<Id>) returns (error: Option<Error>)
      modifies db
      ensures (db.tables, error) == Calls.AcceptInvitation(old(db.tables), id, user, key, enforcing)
    {
      if key == "" {
        return Some(Calls.Invalid);
      }
      if id !in db.tables.orgUsers {
        return Some(Calls.NotFound);
      }
      var m := db.tables.orgUsers[id];
      if m.user != user {
        return Some(Calls.Forbidden);
      }
      if m.status != Invited {
        return Some(Calls.Processed);
      }
      var single := CheckSingleOrganizationPolicy(enforcing, m.org, user);
      if !single {
        return Some(Calls.SinglePolicy);
      }
      db.tables := db.tables.(orgUsers := db.tables.orgUsers[id := m.(key := key, status := Accepted)]);
      EnsureOrgUserInDefaultTeam(m.org, id);
      return None;
    }

    method ConfirmProvisionedMember(org: Id, id: Id, requester: Id, key: string) returns (error: Option<Error>)
      modifies db
      ensures (db.tables, error) == Calls.ConfirmProvisionedMember(old(db.tables), org, id, requester, key)
    {
      if key == "" {
        return Some(Calls.Invalid);
      }
      error := CheckPermission(org, requester);
      if error.Some? {
        return;
      }
      if id !in db.tables.orgUsers {
        return Some(Calls.NotFound);
      }
      var m := db.tables.orgUsers[id];
      if m.org != org {
        return Some(Calls.Forbidden);
      }
      if m.status != Provisioned {
        return Some(Calls.Processed);
      }
      db.tables := db.tables.(orgUsers := db.tables.orgUsers[id := m.(key := key, status := Confirmed)]);
      EnsureOrgUserInDefaultTeam(org, id);
      return None;
    }

    method AddExistingMember(row: OrgUser) returns (error: Option<Error>)
      modifies db
      ensures (db.tables, error) == Calls.AddExistingMember(old(db.tables), row)
    {
      if row.key == "" {
        return Some(Calls.Invalid);
      }
      if row.org !in db.tables.orgs {
        return Some(Calls.NotFound);
      }
      if db.tables.orgs[row.org].personal {
        return Some(Calls.Invalid);
      }
      var found := FindOrgUser(db.tables, row.org, row.user);
      if found.Some? {
        var existing := db.tables.orgUsers[found.value];
        if existing.status == Invited {
          existing := existing.(key := row.key, status := Accepted);
          db.tables := db.tables.(orgUsers := db.tables.orgUsers[found.value := existing]);
          return None;
        }
        return Some(Calls.Exists);
      }
      var id := db.tables.next;
      db.tables := AddOrgUser(db.tables, row);
      EnsureOrgUserInDefaultTeam(row.org, id);
      return None;
    }

    method DeclineInvitationForUser(org: Id, user: Id) returns (error: Option<Error>)
      modifies db
      ensures (db.tables, error) == Calls.DeclineInvitationForUser(old(db.tables), org, user)
    {
      var found := FindOrgUser(db.tables, org, user);
      if found.None? {
        return None;
      }
      if db.tables.orgUsers[found.value].status != Invited {
        return Some(Calls.Processed);
      }
      db.tables := DeleteOrgUser(db.tables, found.value);
      return None;
    }
  }

  class TeamService {
    const db: Database

    constructor (db: Database)
      ensures this.db == db
    {
      this.db := db;
    }

    method CheckTeamMemberManagePermission(org: Id, team: Id, user: Id) returns (ok: bool)
      requires team in db.tables.teams && db.tables.teams[team].org == org
      ensures ok <==> Shares.CanManageTeam(db.tables, team, user)
    {
      var m := FindOrgUser(db.tables, org, user);
      if m.None? {
        return false;
      }
      if db.tables.orgUsers[m.value].IsAdmin() {
        return true;
      }
      var todo: set<Id> := set i | i in db.tables.teamUsers && db.tables.teamUsers[i].team == team;
      while todo != {}
        invariant forall i :: i in todo ==> i in db.tables.teamUsers && db.tables.teamUsers[i].team == team
        invariant forall i :: i in db.tables.teamUsers && db.tables.teamUsers[i].team == team && i !in todo ==>
                                !(db.tables.teamUsers[i].orgUser == m.value && db.tables.teamUsers[i].manager)
        decreases |todo|
      {
        var i :| i in todo;
        todo := todo - {i};
        if db.tables.teamUsers[i].orgUser == m.value && db.tables.teamUsers[i].manager {
          return true;
        }
      }
      return false;
    }

    method Create(org: Id, user: Id, name: string) returns (error: Option<Error>)
      modifies db
      ensures (db.tables, error) == Shares.CreateTeam(old(db.tables), org, user, name)
    {
      if !Shares.CanManage(db.tables, org, user) {
        return Some(Calls.Forbidden);
      }
      if FindTeamByName(db.tables, org, name).Some? {
        return Some(Calls.Exists);
      }
      db.tables := AddTeam(db.tables, Team(org, name, false));
      return None;
    }

    method Delete(id: Id, user: Id) returns (error: Option<Error>)
      modifies db
      ensures (db.tables, error) == Shares.RemoveTeam(old(db.tables), id, user)
    {
      if id !in db.tables.teams {
        return Some(Calls.NotFound);
      }
      var team := db.tables.teams[id];
      if team.isDefault {
        return Some(Calls.Protected);
      }
      if !Shares.CanManage(db.tables, team.org, user) {
        return Some(Calls.Forbidden);
      }
      db.tables := DeleteTeam(db.tables, id);
      return None;
    }

    method AddMember(team: Id, user: Id, target: Id, manager: bool) returns (error: Option<Error>)
      modifies db
      ensures (db.tables, error) == Shares.AddTeamMember(old(db.tables), team, user, target, manager)
    {
      if team !in db.tables.teams {
        return Some(Calls.NotFound);
      }
      var ok := CheckTeamMemberManagePermission(db.tables.teams[team].org, team, user);
      if !ok {
        return Some(Calls.Forbidden);
      }
      if target !in db.tables.orgUsers {
        return Some(Calls.NotFound);
      }
      if db.tables.orgUsers[target].org != db.tables.teams[team].org {
        return Some(Calls.Invalid);
      }
      if FindTeamUser(db.tables, team, target).Some? {
        return Some(Calls.Exists);
      }
      db.tables := AddTeamUser(db.tables, TeamUser(team, target, manager));
      return None;
    }

    method UpdateMember(team: Id, row: Id, user: Id, manager: bool) returns (error: Option<Error>)
      modifies db
      ensures (db.tables, error) == Shares.UpdateTeamMember(old(db.tables), team, row, user, manager)
    {
      if team !in db.tables.teams {
        return Some(Calls.NotFound);
      }
      var ok := CheckTeamMemberManagePermission(db.tables.teams[team].org, team, user);
      if !ok {
        return Some(Calls.Forbidden);
      }
      if row !in db.tables.teamUsers {
        return Some(Calls.NotFound);
      }
      db.tables := db.tables.(teamUsers := db.tables.teamUsers[row := db.tables.teamUsers[row].(manager := manager)]);
      return None;
    }

    method RemoveMember(team: Id, row: Id, user: Id) returns (error: Option<Error>)
      modifies db
      ensures (db.tables, error) == Shares.RemoveTeamMember(old(db.tables), team, row, user)
    {
      if team !in db.tables.teams {
        return Some(Calls.NotFound);
      }
      var ok := CheckTeamMemberManagePermission(db.tables.teams[team].org, team, user);
      if !ok {
        return Some(Calls.Forbidden);
      }
      db.tables := db.tables.(teamUsers := db.tables.teamUsers - {row});
      return None;
    }
  }

  class CollectionService {
    const db: Database

    constructor (db: Database)
      ensures this.db == db
    {
      this.db := db;
    }

    method Create(org: Id, user: Id, name: string, limit: Option<nat>) returns (error: Option<Error>)
      modifies db
      ensures (db.tables, error) == Shares.CreateCollection(old(db.tables), org, user, name, limit)
    {
      if !Shares.CanManage(db.tables, org, user) {
        return Some(Calls.Forbidden);
      }
      if limit.None? {
        return Some(Calls.PlanMissing);
      }
      if CollectionCount(db.tables, org) >= limit.value {
        return Some(Calls.LimitReached);
      }
      if FindCollectionByName(db.tables, org, name).Some? {
        return Some(Calls.Exists);
      }
      db.tables := AddCollection(db.tables, Collection(org, name, false, false));
      return None;
    }

    method Delete(id: Id, user: Id) returns (error: Option<Error>)
      modifies db
      ensures (db.tables, error) == Shares.DeleteCollection(old(db.tables), id, user)
    {
      if !LiveCollection(db.tables, id) {
        return Some(Calls.NotFound);
      }
      var collection := db.tables.collections[id];
      if collection.isDefault {
        return Some(Calls.Protected);
      }
      var m := FindOrgUser(db.tables, collection.org, user);
      if m.None? || !db.tables.orgUsers[m.value].IsAdmin() {
        return Some(Calls.Forbidden);
      }
      var target := FindDefaultCollection(db.tables, collection.org);
      if target.None? {
        return Some(Calls.NotFound);
      }
      db.tables := MoveItems(db.tables, id, target.value);
      db.tables := SoftDeleteCollection(db.tables, id);
      return None;
    }

    method CheckCollectionManagePermission(collection: Id, user: Id) returns (error: Option<Error>)
      ensures error == Shares.ManageError(db.tables, collection, user)
    {
      if !LiveCollection(db.tables, collection) {
        return Some(Calls.NotFound);
      }
      var m := FindOrgUser(db.tables, db.tables.collections[collection].org, user);
      if m.None? || !CA.AccessOf(db.tables, collection, m.value).admin {
        return Some(Calls.Forbidden);
      }
      return None;
    }

    method GrantUserAccess(collection: Id, id: Id, user: Id, access: Access) returns (error: Option<Error>)
      modifies db
      ensures (db.tables, error) == Shares.GrantUserAccess(old(db.tables), collection, id, user, access)
    {
      error := CheckCollectionManagePermission(collection, user);
      if error.Some? {
        return;
      }
      if id !in db.tables.orgUsers {
        return Some(Calls.NotFound);
      }
      if db.tables.orgUsers[id].org != db.tables.collections[collection].org {
        return Some(Calls.Invalid);
      }
      var found := FindUserGrant(db.tables, collection, id);
      if found.Some? {
        var row := db.tables.userGrants[found.value].(access := access);
        db.tables := db.tables.(userGrants := db.tables.userGrants[found.value := row]);
        return None;
      }
      db.tables := AddUserGrant(db.tables, CollectionUser(collection, id, access));
      return None;
    }

    method GrantTeamAccess(collection: Id, team: Id, user: Id, access: Access) returns (error: Option<Error>)
      modifies db
      ensures (db.tables, error) == Shares.GrantTeamAccess(old(db.tables), collection, team, user, access)
    {
      error := CheckCollectionManagePermission(collection, user);
      if error.Some? {
        return;
      }
      if team !in db.tables.teams {
        return Some(Calls.NotFound);
      }
      if db.tables.teams[team].org != db.tables.collections[collection].org {
        return Some(Calls.Invalid);
      }
      var found := FindTeamGrant(db.tables, collection, team);
      if found.Some? {
        var row := db.tables.teamGrants[found.value].(access := access);
        db.tables := db.tables.(teamGrants := db.tables.teamGrants[found.value := row]);
        return None;
      }
      db.tables := AddTeamGrant(db.tables, CollectionTeam(collection, team, access));
      return None;
    }

    method RevokeUserAccess(collection: Id, id: Id, user: Id) returns (error: Option<Error>)
      modifies db
      ensures (db.tables, error) == Shares.RevokeUserAccess(old(db.tables), collection, id, user)
    {
      error := CheckCollectionManagePermission(collection, user);
      if error.None? {
        db.tables := DeleteUserGrants(db.tables, collection, id);
      }
    }

    method RevokeTeamAccess(collection: Id, team: Id, user: Id) returns (error: Option<Error>)
      modifies db
      ensures (db.tables, error) == Shares.RevokeTeamAccess(old(db.tables), collection, team, user)
    {
      error := CheckCollectionManagePermission(collection, user);
      if error.None? {
        db.tables := DeleteTeamGrants(db.tables, collection, team);
      }
    }
  }

  class OrganizationItemService {
    const db: Database

    constructor (db: Database)
      ensures this.db == db
    {
      this.db := db;
    }

    method Create(org: Id, user: Id, collection: Option<Id>, data: nat, typeValid: bool) returns (error: Option<Error>)
      modifies db
      ensures (db.tables, error) == Shares.CreateItem(old(db.tables), org, user, collection, data, typeValid)
    {
      var m := FindOrgUser(db.tables, org, user);
      if m.None? {
        return Some(Calls.Forbidden);
      }
      var place: Id;
      if collection.Some? {
        place := collection.value;
      } else {
        var found := FindDefaultCollection(db.tables, org);
        if found.Some? {
          place := found.value;
        } else {
          place := db.tables.next;
          db.tables := AddCollection(db.tables, Collection(org, Calls.DEFAULT_COLLECTION, true, false));
        }
      }
      if !LiveCollection(db.tables, place) {
        return Some(Calls.NotFound);
      }
      if db.tables.collections[place].org != org {
        return Some(Calls.Forbidden);
      }
      if !Shares.CanWrite(db.tables, place, m.value) {
        return Some(Calls.Forbidden);
      }
      if !typeValid {
        return Some(Calls.Invalid);
      }
      db.tables := AddItem(db.tables, Item(org, Some(place), user, data, false));
      return None;
    }

    method Update(item: Id, user: Id, collection: Option<Id>, data: Option<nat>) returns (error: Option<Error>)
      modifies db
      ensures (db.tables, error) == Shares.UpdateItem(old(db.tables), item, user, collection, data)
    {
      if !LiveItem(db.tables, item) {
        return Some(Calls.NotFound);
      }
      var x := db.tables.items[item];
      var m := FindOrgUser(db.tables, x.org, user);
      if m.None? || !Shares.CanWriteItem(db.tables, x, m.value, user) {
        return Some(Calls.Forbidden);
      }
      if collection.Some? {
        if !LiveCollection(db.tables, collection.value) {
          return Some(Calls.NotFound);
        }
        if db.tables.collections[collection.value].org != x.org || !Shares.CanWrite(db.tables, collection.value, m.value) {
          return Some(Calls.Forbidden);
        }
        x := x.(collection := collection);
      }
      if data.Some? {
        x := x.(data := data.value);
      }
      db.tables := db.tables.(items := db.tables.items[item := x]);
      return None;
    }

    method Delete(item: Id, user: Id) returns (error: Option<Error>)
      modifies db
      ensures (db.tables, error) == Shares.DeleteItem(old(db.tables), item, user)
    {
      if !LiveItem(db.tables, item) {
        return Some(Calls.NotFound);
      }
      var x := db.tables.items[item];
      var m := FindOrgUser(db.tables, x.org, user);
      if m.None? || !Shares.CanWriteItem(db.tables, x, m.value, user) {
        return Some(Calls.Forbidden);
      }
      db.tables := db.tables.(items := db.tables.items[item := x.(deleted := true)]);
      return None;
    }
  }
}

/** Whole runs over the organization graph: every call keeps the invariant. */
module OrgRuns {
  import opened Wrappers
  import opened Members
  import opened OrgTables
  import opened OrgInvariant
  import opened OrgMembership
  import opened OrgSharing
  import opened ScimGroups

  datatype OrgStep =
    | CreateOrgStep(user: Id, key: string, known: bool, planFound: bool)
    | DeleteOrgStep(org: Id, user: Id)
    | InviteStep(org: Id, user: Id, role: Role, accessAll: bool, key: string, invitee: Option<Id>, limit: Option<nat>,
                 enforcing: set<Id>, invited: bool)
    | RoleStep(org: Id, id: Id, user: Id, role: Role, setAccessAll: Option<bool>)
    | RemoveStep(org: Id, id: Id, user: Id)

  datatype MemberStep =
    | AcceptStep(id: Id, user: Id, key: string, enforcing: set<Id>)
    | ConfirmStep(org: Id, id: Id, user: Id, key: string)
    | AddExistingStep(row: OrgUser)
    | DeclineStep(org: Id, user: Id)

  datatype ScimUserStep =
    | CreateScimUserStep(org: Id, invitee: Option<Id>)
    | UpdateScimUserStep(org: Id, user: Id, active: bool)
    | PatchScimUserStep(org: Id, user: Id, actives: seq<bool>)
    | DeleteScimUserStep(org: Id, user: Id)

  datatype TeamStep =
    | CreateTeamStep(org: Id, user: Id, name: string)
    | RemoveTeamStep(id: Id, user: Id)
    | AddTeamMemberStep(id: Id, user: Id, target: Id, manager: bool)
    | UpdateTeamMemberStep(id: Id, member: Id, user: Id, manager: bool)
    | RemoveTeamMemberStep(id: Id, member: Id, user: Id)

  datatype GroupStep =
    | CreateGroupStep(org: Id, name: string)
    | UpdateGroupStep(org: Id, id: Id, name: string, refs: Refs)
    | AddToGroupStep(org: Id, id: Id, refs: Refs)
    | RemoveFromGroupStep(org: Id, id: Id, reference: Option<Id>)
    | DeleteGroupStep(org: Id, id: Id)

  datatype CollectionStep =
    | CreateCollectionStep(org: Id, user: Id, name: string, limit: Option<nat>)
    | DeleteCollectionStep(id: Id, user: Id)
    | GrantUserStep(id: Id, target: Id, user: Id, access: Access)
    | GrantTeamStep(id: Id, target: Id, user: Id, access: Access)
    | RevokeUserStep(id: Id, target: Id, user: Id)
    | RevokeTeamStep(id: Id, target: Id, user: Id)

  datatype ItemStep =
    | CreateItemStep(org: Id, user: Id, collection: Option<Id>, content: nat, typeValid: bool)
    | UpdateItemStep(id: Id, user: Id, collection: Option<Id>, newContent: Option<nat>)
    | DeleteItemStep(id: Id, user: Id)

  datatype Step =
    | OnOrg(o: OrgStep) | OnMember(m: MemberStep) | OnScimUser(u: ScimUserStep) | OnTeam(t: TeamStep)
    | OnGroup(g: GroupStep) | OnCollection(c: CollectionStep) | OnItem(i: ItemStep)

  function OrgCall(s: State, step: OrgStep): Outcome {
    match step
    case CreateOrgStep(user, key, known, planFound) => CreateOrg(s, user, key, known, planFound)
    case DeleteOrgStep(org, user) => DeleteOrg(s, org, user)
    case InviteStep(org, user, role, all, key, invitee, limit, enforcing, invited) =>
      InviteUser(s, org, user, role, all, key, invitee, limit, enforcing, invited)
    case RoleStep(org, id, user, role, all) => UpdateMemberRole(s, org, id, user, role, all)
    case RemoveStep(org, id, user) => RemoveMember(s, org, id, user)
  }

  function MemberCall(s: State, step: MemberStep): Outcome {
    match step
    case AcceptStep(id, user, key, enforcing) => AcceptInvitation(s, id, user, key, enforcing)
    case ConfirmStep(org, id, user, key) => ConfirmProvisionedMember(s, org, id, user, key)
    case AddExistingStep(row) => AddExistingMember(s, row)
    case DeclineStep(org, user) => DeclineInvitationForUser(s, org, user)
  }

  function ScimUserCall(s: State, step: ScimUserStep): Outcome {
    match step
    case CreateScimUserStep(org, invitee) => CreateScimUser(s, org, invitee)
    case UpdateScimUserStep(org, user, active) => UpdateScimUser(s, org, user, active)
    case PatchScimUserStep(org, user, actives) => PatchScimUser(s, org, user, actives)
    case DeleteScimUserStep(org, user) => DeleteScimUser(s, org, user)
  }

  function TeamCall(s: State, step: TeamStep): Outcome {
    match step
    case CreateTeamStep(org, user, name) => CreateTeam(s, org, user, name)
    case RemoveTeamStep(id, user) => RemoveTeam(s, id, user)
    case AddTeamMemberStep(id, user, target, manager) => AddTeamMember(s, id, user, target, manager)
    case UpdateTeamMemberStep(id, member, user, manager) => UpdateTeamMember(s, id, member, user, manager)
    case RemoveTeamMemberStep(id, member, user) => RemoveTeamMember(s, id, member, user)
  }

  function GroupCall(s: State, step: GroupStep): Outcome {
    match step
    case CreateGroupStep(org, name) => CreateGroup(s, org, name)
    case UpdateGroupStep(org, id, name, refs) => UpdateGroup(s, org, id, name, refs)
    case AddToGroupStep(org, id, refs) => AddToGroup(s, org, id, refs)
    case RemoveFromGroupStep(org, id, reference) => RemoveFromGroup(s, org, id, reference)
    case DeleteGroupStep(org, id) => DeleteGroup(s, org, id)
  }

  function CollectionCall(s: State, step: CollectionStep): Outcome {
    match step
    case CreateCollectionStep(org, user, name, limit) => CreateCollection(s, org, user, name, limit)
    case DeleteCollectionStep(id, user) => DeleteCollection(s, id, user)
    case GrantUserStep(id, target, user, access) => GrantUserAccess(s, id, target, user, access)
    case GrantTeamStep(id, target, user, access) => GrantTeamAccess(s, id, target, user, access)
    case RevokeUserStep(id, target, user) => RevokeUserAccess(s, id, target, user)
    case RevokeTeamStep(id, target, user) => RevokeTeamAccess(s, id, target, user)
  }

  function ItemCall(s: State, step: ItemStep): Outcome {
    match step
    case CreateItemStep(org, user, collection, content, typeValid) => CreateItem(s, org, user, collection, content, typeValid)
    case UpdateItemStep(id, user, collection, content) => UpdateItem(s, id, user, collection, content)
    case DeleteItemStep(id, user) => DeleteItem(s, id, user)
  }

  function Call(s: State, step: Step): Outcome {
    match step
    case OnOrg(o) => OrgCall(s, o)
    case OnMember(m) => MemberCall(s, m)
    case OnScimUser(u) => ScimUserCall(s, u)
    case OnTeam(t) => TeamCall(s, t)
    case OnGroup(g) => GroupCall(s, g)
    case OnCollection(c) => CollectionCall(s, c)
    case OnItem(i) => ItemCall(s, i)
  }

  // ---- defaults ----

  lemma DefaultTeamKeeps(s: State, org: Id)
    requires Valid(s)
    ensures var (t, team) := EnsureDefaultTeam(s, org);
            Valid(t) && t == s.(teams := t.teams, next := t.next) && TeamOf(t, team, org)
  {
    if FindDefaultTeam(s, org).None? {
      NewTeam(s, Team(org, DEFAULT_TEAM, true));
    }
  }

  lemma DefaultCollectionKeeps(s: State, org: Id)
    requires Valid(s)
    ensures var (t, c) := EnsureDefaultCollection(s, org);
            Valid(t) && t == s.(collections := t.collections, next := t.next) && CollectionOf(t, c, org) && LiveCollection(t, c)
  {
    if FindDefaultCollection(s, org).None? {
      NewCollection(s, Collection(org, DEFAULT_COLLECTION, true, false));
    }
  }

  lemma DefaultGrantKeeps(s: State, collection: Id, team: Id, org: Id)
    requires Valid(s) && CollectionOf(s, collection, org) && TeamOf(s, team, org)
    ensures Valid(EnsureDefaultGrant(s, collection, team))
  {
    if FindTeamGrant(s, collection, team).None? {
      NewTeamGrant(s, CollectionTeam(collection, team, Access(true, false, false, false)));
    }
  }

  lemma DefaultsKeep(s: State, org: Id)
    requires Valid(s)
    ensures Valid(EnsureDefaults(s, org))
  {
    DefaultTeamKeeps(s, org);
    var (t, team) := EnsureDefaultTeam(s, org);
    DefaultCollectionKeeps(t, org);
    var (u, collection) := EnsureDefaultCollection(t, org);
    DefaultGrantKeeps(u, collection, team, org);
  }

  lemma InDefaultTeamKeeps(s: State, org: Id, id: Id)
    requires Valid(s) && OrgUserOf(s, id, org)
    ensures Valid(EnsureInDefaultTeam(s, org, id))
  {
    DefaultTeamKeeps(s, org);
    var (t, team) := EnsureDefaultTeam(s, org);
    if FindTeamUser(t, team, id).None? {
      NewTeamUser(t, TeamUser(team, id, false));
    }
  }

  // ---- memberships ----

  lemma NewOrgKeeps(s: State, user: Id, key: string)
    requires Valid(s)
    ensures Valid(NewOrg(s, user, key))
  {
    var a := AddOrg(s, Org(false, false));
    var m := OrgUser(s.next, user, Owner, true, Confirmed, key);
    NewOrgRow(s, Org(false, false));
    OrgUserFound(a, s.next, user);
    NewOrgUser(a, m);
    var b := AddOrgUser(a, m);
    DefaultsKeep(b, s.next);
    InDefaultTeamKeeps(EnsureDefaults(b, s.next), s.next, a.next);
  }

  lemma CreateOrgKeeps(s: State, user: Id, key: string, known: bool, planFound: bool)
    requires Valid(s)
    ensures Valid(CreateOrg(s, user, key, known, planFound).0)
  {
    NewOrgKeeps(s, user, key);
    PurgedOrg(NewOrg(s, user, key), s.next);
  }

  /** A new membership, brought into the default team. */
  lemma JoinKeeps(s: State, m: OrgUser)
    requires Valid(s) && m.org in s.orgs && FindOrgUser(s, m.org, m.user).None?
    ensures Valid(EnsureInDefaultTeam(AddOrgUser(s, m), m.org, s.next))
  {
    NewOrgUser(s, m);
    InDefaultTeamKeeps(AddOrgUser(s, m), m.org, s.next);
  }

  lemma EnrollKeeps(s: State, m: OrgUser)
    requires Valid(s) && m.org in s.orgs && FindOrgUser(s, m.org, m.user).None?
    ensures Valid(Enroll(s, m))
  {
    JoinKeeps(s, m);
    DefaultsKeep(EnsureInDefaultTeam(AddOrgUser(s, m), m.org, s.next), m.org);
  }

  lemma InviteKeeps(s: State, org: Id, user: Id, role: Role, all: bool, key: string, invitee: Option<Id>, limit: Option<nat>,
                    enforcing: set<Id>, invited: bool)
    requires Valid(s)
    ensures Valid(InviteUser(s, org, user, role, all, key, invitee, limit, enforcing, invited).0)
  {
    if InviteError(s, org, user, role, invitee, limit, enforcing, invited).None? {
      EnrollKeeps(s, OrgUser(org, invitee.value, role, all, Invited, key));
    }
  }

  /** A membership whose role, status or key changed. */
  lemma ChangeKeeps(s: State, id: Id, m: OrgUser)
    requires Valid(s) && id in s.orgUsers && m.org == s.orgUsers[id].org && m.user == s.orgUsers[id].user
    ensures var t := s.(orgUsers := s.orgUsers[id := m]); Valid(t) && Valid(EnsureInDefaultTeam(t, m.org, id))
  {
    ChangedOrgUser(s, id, m);
    InDefaultTeamKeeps(s.(orgUsers := s.orgUsers[id := m]), m.org, id);
  }

  lemma RoleKeeps(s: State, org: Id, id: Id, user: Id, role: Role, all: Option<bool>)
    requires Valid(s)
    ensures Valid(UpdateMemberRole(s, org, id, user, role, all).0)
  {
    if id in s.orgUsers {
      var m := s.orgUsers[id].(role := role);
      ChangeKeeps(s, id, if all.Some? then m.(accessAll := all.value) else m);
    }
  }

  lemma AcceptKeeps(s: State, id: Id, user: Id, key: string, enforcing: set<Id>)
    requires Valid(s)
    ensures Valid(AcceptInvitation(s, id, user, key, enforcing).0)
  {
    if id in s.orgUsers {
      ChangeKeeps(s, id, s.orgUsers[id].(key := key, status := Accepted));
    }
  }

  lemma ConfirmKeeps(s: State, org: Id, id: Id, user: Id, key: string)
    requires Valid(s)
    ensures Valid(ConfirmProvisionedMember(s, org, id, user, key).0)
  {
    if id in s.orgUsers {
      ChangeKeeps(s, id, s.orgUsers[id].(key := key, status := Confirmed));
    }
  }

  lemma AddExistingKeeps(s: State, row: OrgUser)
    requires Valid(s)
    ensures Valid(AddExistingMember(s, row).0)
  {
    var found := FindOrgUser(s, row.org, row.user);
    if found.Some? {
      ChangeKeeps(s, found.value, s.orgUsers[found.value].(key := row.key, status := Accepted));
    } else if row.org in s.orgs {
      JoinKeeps(s, row);
    }
  }

  lemma ScimUserKeeps(s: State, org: Id, user: Id, status: Status)
    requires Valid(s) && FindOrgUser(s, org, user).Some?
    ensures var id := FindOrgUser(s, org, user).value;
            && Valid(s.(orgUsers := s.orgUsers[id := s.orgUsers[id].(status := status)]))
            && Valid(DeleteOrgUser(s, id))
  {
    var id := FindOrgUser(s, org, user).value;
    ChangedOrgUser(s, id, s.orgUsers[id].(status := status));
    DeletedOrgUser(s, id);
  }

  lemma OrgCallKeeps(s: State, step: OrgStep)
    requires Valid(s)
    ensures Valid(OrgCall(s, step).0)
  {
    match step
    case CreateOrgStep(user, key, known, planFound) => CreateOrgKeeps(s, user, key, known, planFound);
    case DeleteOrgStep(org, user) =>
      if org in s.orgs {
        PurgedOrg(s, org);
      }
    case InviteStep(org, user, role, all, key, invitee, limit, enforcing, invited) =>
      InviteKeeps(s, org, user, role, all, key, invitee, limit, enforcing, invited);
    case RoleStep(org, id, user, role, all) => RoleKeeps(s, org, id, user, role, all);
    case RemoveStep(org, id, user) => DeletedOrgUser(s, id);
  }

  lemma DeclineKeeps(s: State, org: Id, user: Id)
    requires Valid(s)
    ensures Valid(DeclineInvitationForUser(s, org, user).0)
  {
    if FindOrgUser(s, org, user).Some? {
      DeletedOrgUser(s, FindOrgUser(s, org, user).value);
    }
  }

  lemma MemberCallKeeps(s: State, step: MemberStep)
    requires Valid(s)
    ensures Valid(MemberCall(s, step).0)
  {
    match step
    case AcceptStep(id, user, key, enforcing) => AcceptKeeps(s, id, user, key, enforcing);
    case ConfirmStep(org, id, user, key) => ConfirmKeeps(s, org, id, user, key);
    case AddExistingStep(row) => AddExistingKeeps(s, row);
    case DeclineStep(org, user) => DeclineKeeps(s, org, user);
  }

  lemma ScimUserCallKeeps(s: State, step: ScimUserStep)
    requires Valid(s) && step.org in s.orgs
    ensures Valid(ScimUserCall(s, step).0)
  {
    if step.CreateScimUserStep? {
      if step.invitee.Some? && FindOrgUser(s, step.org, step.invitee.value).None? {
        NewOrgUser(s, OrgUser(step.org, step.invitee.value, Member, false, Provisioned, "pending_key_exchange"));
      }
    } else {
      var found := FindOrgUser(s, step.org, step.user);
      if found.Some? {
        var status := s.orgUsers[found.value].status;
        match step
        case UpdateScimUserStep(org, user, active) => ScimUserKeeps(s, org, user, ActiveStatus(status, active));
        case PatchScimUserStep(org, user, actives) => ScimUserKeeps(s, org, user, PatchedStatus(status, actives));
        case DeleteScimUserStep(org, user) => ScimUserKeeps(s, org, user, status);
      }
    }
  }

  // ---- teams ----

  lemma AddMissingKeeps(s: State, team: Id, refs: Refs, current: set<Id>, n: nat)
    requires Valid(s) && team in s.teams && n <= |refs|
    ensures Valid(AddMissing(s, team, refs, current, n))
    decreases n
  {
    if n > 0 {
      AddMissingKeeps(s, team, refs, current, n - 1);
      var t, m := AddMissing(s, team, refs, current, n - 1), ResolveOne(s, s.teams[team].org, refs[n - 1]);
      if m.Some? && m.value !in current {
        NewTeamUser(t, TeamUser(team, m.value, false));
      }
    }
  }

  lemma SyncKeeps(s: State, team: Id, refs: Refs)
    requires Valid(s) && team in s.teams
    ensures Valid(Sync(s, team, refs))
  {
    var t := AddMissing(s, team, refs, TeamMembers(s, team), |refs|);
    AddMissingKeeps(s, team, refs, TeamMembers(s, team), |refs|);
    FewerTeamUsers(t, Sync(s, team, refs).teamUsers);
  }

  lemma RenamedTeam(s: State, team: Id, name: string)
    requires Valid(s) && team in s.teams
    ensures Valid(s.(teams := s.teams[team := s.teams[team].(name := name)]))
  {
  }

  lemma AddTeamMemberKeeps(s: State, team: Id, user: Id, target: Id, manager: bool)
    requires Valid(s)
    ensures Valid(AddTeamMember(s, team, user, target, manager).0)
  {
    if AddTeamMember(s, team, user, target, manager).1.None? {
      NewTeamUser(s, TeamUser(team, target, manager));
    }
  }

  lemma TeamCallKeeps(s: State, step: TeamStep)
    requires Valid(s)
    ensures Valid(TeamCall(s, step).0)
  {
    match step
    case CreateTeamStep(org, user, name) => NewTeam(s, Team(org, name, false));
    case RemoveTeamStep(id, user) => DeletedTeam(s, id);
    case AddTeamMemberStep(id, user, target, manager) => AddTeamMemberKeeps(s, id, user, target, manager);
    case UpdateTeamMemberStep(id, member, user, manager) =>
      if member in s.teamUsers {
        ChangedTeamUser(s, member, s.teamUsers[member].(manager := manager));
      }
    case RemoveTeamMemberStep(id, member, user) => FewerTeamUsers(s, s.teamUsers - {member});
  }

  lemma UpdateGroupKeeps(s: State, org: Id, team: Id, name: string, refs: Refs)
    requires Valid(s)
    ensures Valid(UpdateGroup(s, org, team, name, refs).0)
  {
    if TeamOf(s, team, org) {
      RenamedTeam(s, team, name);
      SyncKeeps(s.(teams := s.teams[team := s.teams[team].(name := name)]), team, refs);
    }
  }

  lemma GroupCallKeeps(s: State, step: GroupStep)
    requires Valid(s)
    ensures Valid(GroupCall(s, step).0)
  {
    match step
    case CreateGroupStep(org, name) => NewTeam(s, Team(org, name, false));
    case UpdateGroupStep(org, id, name, refs) => UpdateGroupKeeps(s, org, id, name, refs);
    case AddToGroupStep(org, id, refs) =>
      if TeamOf(s, id, org) {
        AddMissingKeeps(s, id, refs, {}, |refs|);
      }
    case RemoveFromGroupStep(org, id, reference) =>
      var m := ResolveOne(s, org, reference);
      if m.Some? {
        FewerTeamUsers(s, DeleteTeamUsers(s, id, m.value).teamUsers);
      }
    case DeleteGroupStep(org, id) => DeletedTeam(s, id);
  }

  // ---- collections and items ----

  lemma DeleteCollectionKeeps(s: State, id: Id, user: Id)
    requires Valid(s)
    ensures Valid(DeleteCollection(s, id, user).0)
  {
    if DeleteCollection(s, id, user).1.None? {
      var target := FindDefaultCollection(s, s.collections[id].org).value;
      MovedItems(s, id, target);
      DeletedCollection(MoveItems(s, id, target), id);
    }
  }

  lemma SetUserGrantKeeps(s: State, collection: Id, id: Id, access: Access)
    requires Valid(s) && JoinsUser(CollectionUser(collection, id, access), s.collections, s.orgUsers)
    ensures Valid(SetUserGrant(s, collection, id, access))
  {
    var found := FindUserGrant(s, collection, id);
    if found.Some? {
      ChangedUserGrant(s, found.value, s.userGrants[found.value].(access := access));
    } else {
      NewUserGrant(s, CollectionUser(collection, id, access));
    }
  }

  lemma SetTeamGrantKeeps(s: State, collection: Id, team: Id, access: Access)
    requires Valid(s) && JoinsGroup(CollectionTeam(collection, team, access), s.collections, s.teams)
    ensures Valid(SetTeamGrant(s, collection, team, access))
  {
    var found := FindTeamGrant(s, collection, team);
    if found.Some? {
      ChangedTeamGrant(s, found.value, s.teamGrants[found.value].(access := access));
    } else {
      NewTeamGrant(s, CollectionTeam(collection, team, access));
    }
  }

  lemma CreateItemKeeps(s: State, org: Id, user: Id, collection: Option<Id>, content: nat, typeValid: bool)
    requires Valid(s)
    ensures Valid(CreateItem(s, org, user, collection, content, typeValid).0)
  {
    DefaultCollectionKeeps(s, org);
    var (t, c) := if collection.Some? then (s, collection.value) else EnsureDefaultCollection(s, org);
    var x := Item(org, Some(c), user, content, false);
    if Placed(x, t.collections) {
      NewItem(t, x);
    }
  }

  lemma UpdateItemKeeps(s: State, item: Id, user: Id, collection: Option<Id>, content: Option<nat>)
    requires Valid(s)
    ensures Valid(UpdateItem(s, item, user, collection, content).0)
  {
    if UpdateItem(s, item, user, collection, content).1.None? {
      var x := s.items[item];
      var y := if collection.Some? then x.(collection := collection) else x;
      ChangedItem(s, item, if content.Some? then y.(data := content.value) else y);
    }
  }

  lemma GrantUserKeeps(s: State, collection: Id, id: Id, user: Id, access: Access)
    requires Valid(s)
    ensures Valid(GrantUserAccess(s, collection, id, user, access).0)
  {
    if GrantUserAccess(s, collection, id, user, access).1.None? {
      SetUserGrantKeeps(s, collection, id, access);
    }
  }

  lemma GrantTeamKeeps(s: State, collection: Id, team: Id, user: Id, access: Access)
    requires Valid(s)
    ensures Valid(GrantTeamAccess(s, collection, team, user, access).0)
  {
    if GrantTeamAccess(s, collection, team, user, access).1.None? {
      SetTeamGrantKeeps(s, collection, team, access);
    }
  }

  lemma CollectionCallKeeps(s: State, step: CollectionStep)
    requires Valid(s)
    ensures Valid(CollectionCall(s, step).0)
  {
    match step
    case CreateCollectionStep(org, user, name, limit) => NewCollection(s, Collection(org, name, false, false));
    case DeleteCollectionStep(id, user) => DeleteCollectionKeeps(s, id, user);
    case GrantUserStep(id, target, user, access) => GrantUserKeeps(s, id, target, user, access);
    case GrantTeamStep(id, target, user, access) => GrantTeamKeeps(s, id, target, user, access);
    case RevokeUserStep(id, target, user) => FewerUserGrants(s, DeleteUserGrants(s, id, target).userGrants);
    case RevokeTeamStep(id, target, user) => FewerTeamGrants(s, DeleteTeamGrants(s, id, target).teamGrants);
  }

  lemma ItemCallKeeps(s: State, step: ItemStep)
    requires Valid(s)
    ensures Valid(ItemCall(s, step).0)
  {
    match step
    case CreateItemStep(org, user, collection, content, typeValid) => CreateItemKeeps(s, org, user, collection, content, typeValid);
    case UpdateItemStep(id, user, collection, content) => UpdateItemKeeps(s, id, user, collection, content);
    case DeleteItemStep(id, user) =>
      if LiveItem(s, id) {
        ChangedItem(s, id, s.items[id].(deleted := true));
      }
  }

  // ---- runs ----

  /** SCIM calls come with a token, which names an organization that exists. */
  predicate Authorized(s: State, step: Step) {
    step.OnScimUser? ==> step.u.org in s.orgs
  }

  predicate Follows(s: State, step: Step, t: State) {
    Authorized(s, step) && t == Call(s, step).0
  }

  /** The states a run goes through, the first one before any call. */
  predicate IsRun(states: seq<State>, steps: seq<Step>) {
    |states| == |steps| + 1 && forall i {:trigger steps[i]} :: 0 <= i < |steps| ==> Follows(states[i], steps[i], states[i + 1])
  }

  lemma CallKeeps(s: State, step: Step)
    requires Valid(s) && Authorized(s, step)
    ensures Valid(Call(s, step).0)
  {
    match step
    case OnOrg(o) => OrgCallKeeps(s, o);
    case OnMember(m) => MemberCallKeeps(s, m);
    case OnScimUser(u) => ScimUserCallKeeps(s, u);
    case OnTeam(t) => TeamCallKeeps(s, t);
    case OnGroup(g) => GroupCallKeeps(s, g);
    case OnCollection(c) => CollectionCallKeeps(s, c);
    case OnItem(i) => ItemCallKeeps(s, i);
  }

  /** Main result: after any calls by anyone every membership, grant and item row joins entities of one
      organization, no membership or grant is doubled, no organization has two default teams or default
      collections, and every live item lies in a live collection of its own organization. */
  lemma {:induction false} RunKeepsValid(states: seq<State>, steps: seq<Step>, k: nat)
    requires IsRun(states, steps) && Valid(states[0]) && k < |states|
    ensures Valid(states[k])
  {
    if k > 0 {
      RunKeepsValid(states, steps, k - 1);
      CallKeeps(states[k - 1], steps[k - 1]);
    }
  }

  lemma EmptyIsValid()
    ensures Valid(EMPTY)
  {
  }
}

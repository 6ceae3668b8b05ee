/** Who may do what: calls are accepted by the rows there are, not by the row a query happens to find. */
module OrgAcceptance {
  import opened Wrappers
  import opened Members
  import opened OrgTables
  import opened OrgInvariant
  import opened OrgMembership
  import opened OrgSharing
  import opened ScimGroups
  import opened OrgRuns
  import CA = CollectionAccess

  predicate RowOf(m: OrgUser, org: Id, user: Id) {
    m.org == org && m.user == user
  }

  predicate MemberIn(s: State, org: Id, user: Id) {
    exists i :: i in s.orgUsers && RowOf(s.orgUsers[i], org, user)
  }

  predicate OwnerIn(s: State, org: Id, user: Id) {
    exists i :: i in s.orgUsers && RowOf(s.orgUsers[i], org, user) && s.orgUsers[i].role == Owner
  }

  predicate AdminIn(s: State, org: Id, user: Id) {
    exists i :: i in s.orgUsers && RowOf(s.orgUsers[i], org, user) && s.orgUsers[i].role in {Owner, Role.Admin}
  }

  predicate ManagerIn(s: State, org: Id, user: Id) {
    exists i :: i in s.orgUsers && RowOf(s.orgUsers[i], org, user) && s.orgUsers[i].role in {Owner, Role.Admin, Manager}
  }

  /** The membership reaches every collection: by its role, or because it was given access to all. */
  predicate ReachesAll(m: OrgUser) {
    m.role in {Owner, Role.Admin} || m.accessAll
  }

  /** The user has a right on a live collection: by role, by access to everything, or by some grant. */
  predicate MayUse(s: State, collection: Id, user: Id, r: CA.Right) {
    LiveCollection(s, collection) && exists i :: i in s.orgUsers && RowOf(s.orgUsers[i], s.collections[collection].org, user)
                                                && (ReachesAll(s.orgUsers[i]) || CA.Granted(s, collection, i, r))
  }

  predicate MayWrite(s: State, collection: Id, user: Id) {
    MayUse(s, collection, user, CA.Right.Write) || MayUse(s, collection, user, CA.Right.Admin)
  }

  /** A user has at most one membership in an organization. */
  predicate OneMembership(s: State) {
    Below(s.orgUsers, s.next) && UniqueOrgUsers(s.orgUsers)
  }

  // ---- what the checks amount to ----

  lemma FoundIsMember(s: State, org: Id, user: Id)
    requires OneMembership(s)
    ensures FindOrgUser(s, org, user).Some? <==> MemberIn(s, org, user)
    ensures IsOwner(s, org, user) <==> OwnerIn(s, org, user)
    ensures PermissionError(s, org, user).None? <==> AdminIn(s, org, user)
    ensures CanManage(s, org, user) <==> ManagerIn(s, org, user)
  {
    OrgUserFound(s, org, user);
  }

  /** A user's membership is the one the query finds. */
  lemma FoundIsOnly(s: State, org: Id, user: Id, i: Id)
    requires OneMembership(s) && i in s.orgUsers && RowOf(s.orgUsers[i], org, user)
    ensures FindOrgUser(s, org, user) == Some(i)
  {
    OrgUserFound(s, org, user);
  }

  lemma ManagesIff(s: State, collection: Id, user: Id)
    requires OneMembership(s)
    ensures ManageError(s, collection, user).None? <==> MayUse(s, collection, user, CA.Right.Admin)
  {
    if LiveCollection(s, collection) {
      var org := s.collections[collection].org;
      OrgUserFound(s, org, user);
      if MayUse(s, collection, user, CA.Right.Admin) {
        var i :| i in s.orgUsers && RowOf(s.orgUsers[i], org, user)
                 && (ReachesAll(s.orgUsers[i]) || CA.Granted(s, collection, i, CA.Right.Admin));
        FoundIsOnly(s, org, user, i);
      }
    }
  }

  // ---- memberships ----

  /** The user is an active member of another organization, and that one or this one enforces the policy. */
  predicate Elsewhere(s: State, enforcing: set<Id>, org: Id, user: Id) {
    exists i :: i in s.orgUsers && s.orgUsers[i].user == user && s.orgUsers[i].org != org
                && s.orgUsers[i].status in {Accepted, Confirmed} && !({org, s.orgUsers[i].org} !! enforcing)
  }

  lemma ElsewhereIff(s: State, enforcing: set<Id>, org: Id, user: Id)
    ensures SinglePolicyForbids(s, enforcing, org, user) <==> Elsewhere(s, enforcing, org, user)
  {
    if SinglePolicyForbids(s, enforcing, org, user) {
      var i :| i in s.orgUsers && s.orgUsers[i].user == user && s.orgUsers[i].org != org && IsActive(s.orgUsers[i].status)
               && (org in enforcing || s.orgUsers[i].org in enforcing);
      assert (if org in enforcing then org else s.orgUsers[i].org) in {org, s.orgUsers[i].org} * enforcing;
    }
    if Elsewhere(s, enforcing, org, user) {
      var i :| i in s.orgUsers && s.orgUsers[i].user == user && s.orgUsers[i].org != org
               && s.orgUsers[i].status in {Accepted, Confirmed} && !({org, s.orgUsers[i].org} !! enforcing);
      assert IsActive(s.orgUsers[i].status);
    }
  }

  /** The memberships and collections that count against the plan. */
  function ActiveMembers(s: State, org: Id): set<Id> {
    set i | i in s.orgUsers && s.orgUsers[i].org == org && s.orgUsers[i].status in {Accepted, Confirmed}
  }

  function OwnCollections(s: State, org: Id): set<Id> {
    set i | i in s.collections && s.collections[i] == Collection(org, s.collections[i].name, false, false)
  }

  lemma CountsAre(s: State, org: Id)
    ensures MemberCount(s, org) == |ActiveMembers(s, org)| && CollectionCount(s, org) == |OwnCollections(s, org)|
  {
    assert ActiveMembers(s, org) == set i | i in s.orgUsers && s.orgUsers[i].org == org && IsActive(s.orgUsers[i].status);
    assert OwnCollections(s, org) == set i | i in s.collections && s.collections[i].org == org && !s.collections[i].deleted
                                           && !s.collections[i].isDefault;
  }

  predicate InvitationFits(s: State, org: Id, role: Role, invitee: Option<Id>, limit: Option<nat>, enforcing: set<Id>) {
    && org in s.orgs && !s.orgs[org].personal && role != Billing
    && limit.Some? && |ActiveMembers(s, org)| < limit.value
    && invitee.Some? && !MemberIn(s, org, invitee.value) && !Elsewhere(s, enforcing, org, invitee.value)
  }

  lemma NoInviteErrorIff(s: State, org: Id, inviter: Id, role: Role, invitee: Option<Id>, limit: Option<nat>,
                         enforcing: set<Id>, invited: bool)
    requires invitee.Some? ==> (FindOrgUser(s, org, invitee.value).Some? <==> MemberIn(s, org, invitee.value))
    requires invitee.Some? ==> (SinglePolicyForbids(s, enforcing, org, invitee.value) <==> Elsewhere(s, enforcing, org, invitee.value))
    ensures InviteError(s, org, inviter, role, invitee, limit, enforcing, invited).None? <==>
            && PermissionError(s, org, inviter).None? && (role == Owner ==> IsOwner(s, org, inviter))
            && InvitationFits(s, org, role, invitee, limit, enforcing) && invited
  {
    CountsAre(s, org);
  }

  lemma InviteAcceptedIff(s: State, org: Id, inviter: Id, role: Role, all: bool, key: string,
                          invitee: Option<Id>, limit: Option<nat>, enforcing: set<Id>, invited: bool)
    requires OneMembership(s)
    ensures InviteUser(s, org, inviter, role, all, key, invitee, limit, enforcing, invited).1.None? <==>
            && AdminIn(s, org, inviter) && (role == Owner ==> OwnerIn(s, org, inviter))
            && InvitationFits(s, org, role, invitee, limit, enforcing) && invited
  {
    FoundIsMember(s, org, inviter);
    if invitee.Some? {
      FoundIsMember(s, org, invitee.value);
      ElsewhereIff(s, enforcing, org, invitee.value);
    }
    NoInviteErrorIff(s, org, inviter, role, invitee, limit, enforcing, invited);
  }

  lemma RoleAcceptedIff(s: State, org: Id, id: Id, user: Id, role: Role, all: Option<bool>)
    requires OneMembership(s)
    ensures UpdateMemberRole(s, org, id, user, role, all).1.None? <==>
            && AdminIn(s, org, user) && (role == Owner ==> OwnerIn(s, org, user)) && role != Billing
            && id in s.orgUsers && s.orgUsers[id].role != Owner
  {
    FoundIsMember(s, org, user);
  }

  lemma RemoveAcceptedIff(s: State, org: Id, id: Id, user: Id)
    requires OneMembership(s)
    ensures RemoveMember(s, org, id, user).1.None? <==>
            AdminIn(s, org, user) && OrgUserOf(s, id, org) && s.orgUsers[id].role != Owner
  {
    FoundIsMember(s, org, user);
  }

  /** The founder needs an account, and the free plan must be there. */
  lemma CreateOrgAcceptedIff(s: State, user: Id, key: string, known: bool, planFound: bool)
    ensures CreateOrg(s, user, key, known, planFound).1.None? <==> known && planFound
    ensures CreateOrg(s, user, key, known, planFound).1 == Some(PlanMissing) <==> known && !planFound
  {
  }

  lemma DeleteOrgAcceptedIff(s: State, org: Id, user: Id)
    requires OneMembership(s) && MembersOfOrgs(s.orgUsers, s.orgs)
    ensures DeleteOrg(s, org, user).1.None? <==> OwnerIn(s, org, user) && !s.orgs[org].personal
  {
    FoundIsMember(s, org, user);
  }

  /** An invitation is accepted by the user it was made to, once, with a key, unless the policy forbids it. */
  lemma AcceptAcceptedIff(s: State, id: Id, user: Id, key: string, enforcing: set<Id>)
    ensures AcceptInvitation(s, id, user, key, enforcing).1.None? <==>
            && id in s.orgUsers && s.orgUsers[id].user == user && s.orgUsers[id].status == Invited && key != ""
            && !Elsewhere(s, enforcing, s.orgUsers[id].org, user)
  {
    if id in s.orgUsers {
      ElsewhereIff(s, enforcing, s.orgUsers[id].org, user);
    }
  }

  lemma ConfirmAcceptedIff(s: State, org: Id, id: Id, user: Id, key: string)
    requires OneMembership(s)
    ensures ConfirmProvisionedMember(s, org, id, user, key).1.None? <==>
            AdminIn(s, org, user) && OrgUserOf(s, id, org) && s.orgUsers[id].status == Provisioned && key != ""
  {
    FoundIsMember(s, org, user);
  }

  lemma AddExistingAcceptedIff(s: State, m: OrgUser)
    requires OneMembership(s)
    ensures AddExistingMember(s, m).1.None? <==>
            && m.key != "" && m.org in s.orgs && !s.orgs[m.org].personal
            && forall i :: i in s.orgUsers && RowOf(s.orgUsers[i], m.org, m.user) ==> s.orgUsers[i].status == Invited
  {
    OrgUserFound(s, m.org, m.user);
  }

  lemma DeclineAcceptedIff(s: State, org: Id, user: Id)
    requires OneMembership(s)
    ensures DeclineInvitationForUser(s, org, user).1.None? <==>
            forall i :: i in s.orgUsers && RowOf(s.orgUsers[i], org, user) ==> s.orgUsers[i].status == Invited
  {
    OrgUserFound(s, org, user);
  }

  /** Provisioning takes a registered user who is no member; the other calls take a member. */
  lemma ScimUserAcceptedIff(s: State, step: ScimUserStep)
    requires OneMembership(s)
    ensures ScimUserCall(s, step).1.None? <==>
            if step.CreateScimUserStep? then step.invitee.Some? && !MemberIn(s, step.org, step.invitee.value)
            else MemberIn(s, step.org, step.user)
  {
    if step.CreateScimUserStep? {
      if step.invitee.Some? {
        FoundIsMember(s, step.org, step.invitee.value);
      }
    } else {
      FoundIsMember(s, step.org, step.user);
    }
  }

  // ---- teams ----

  lemma CreateTeamAcceptedIff(s: State, org: Id, user: Id, name: string)
    requires OneMembership(s) && Below(s.teams, s.next)
    ensures CreateTeam(s, org, user, name).1.None? <==>
            ManagerIn(s, org, user) && forall i :: i in s.teams ==> !(s.teams[i].org == org && s.teams[i].name == name)
  {
    FoundIsMember(s, org, user);
    FirstIdFinds(s.teams, (t: Team) => t.org == org && t.name == name, 0, s.next);
  }

  lemma RemoveTeamAcceptedIff(s: State, id: Id, user: Id)
    requires OneMembership(s)
    ensures RemoveTeam(s, id, user).1.None? <==> id in s.teams && !s.teams[id].isDefault && ManagerIn(s, s.teams[id].org, user)
  {
    if id in s.teams {
      FoundIsMember(s, s.teams[id].org, user);
    }
  }

  /** The user is an administrator of the team's organization, or a manager of the team. */
  predicate RunsTeam(s: State, team: Id, user: Id) {
    && team in s.teams
    && (AdminIn(s, s.teams[team].org, user)
        || exists i, k :: i in s.orgUsers && RowOf(s.orgUsers[i], s.teams[team].org, user)
                          && k in s.teamUsers && s.teamUsers[k] == TeamUser(team, i, true))
  }

  lemma RunsTeamIff(s: State, team: Id, user: Id)
    requires OneMembership(s) && team in s.teams
    ensures CanManageTeam(s, team, user) <==> RunsTeam(s, team, user)
  {
    var org := s.teams[team].org;
    FoundIsMember(s, org, user);
    OrgUserFound(s, org, user);
    if CanManageTeam(s, team, user) && !AdminIn(s, org, user) {
      var m := FindOrgUser(s, org, user).value;
      var k :| k in s.teamUsers && s.teamUsers[k].team == team && s.teamUsers[k].orgUser == m && s.teamUsers[k].manager;
      assert s.teamUsers[k] == TeamUser(team, m, true);
    }
    if RunsTeam(s, team, user) && !AdminIn(s, org, user) {
      var i, k :| i in s.orgUsers && RowOf(s.orgUsers[i], org, user) && k in s.teamUsers && s.teamUsers[k] == TeamUser(team, i, true);
      FoundIsOnly(s, org, user, i);
    }
  }

  lemma AddTeamMemberAcceptedIff(s: State, team: Id, user: Id, target: Id, manager: bool)
    requires OneMembership(s) && Below(s.teamUsers, s.next)
    ensures AddTeamMember(s, team, user, target, manager).1.None? <==>
            RunsTeam(s, team, user) && OrgUserOf(s, target, s.teams[team].org) && !CA.InTeam(s, team, target)
  {
    if team in s.teams {
      RunsTeamIff(s, team, user);
      TeamUserFound(s, team, target);
    }
  }

  lemma UpdateTeamMemberAcceptedIff(s: State, team: Id, row: Id, user: Id, manager: bool)
    requires OneMembership(s)
    ensures UpdateTeamMember(s, team, row, user, manager).1.None? <==> RunsTeam(s, team, user) && row in s.teamUsers
  {
    if team in s.teams {
      RunsTeamIff(s, team, user);
    }
  }

  lemma RemoveTeamMemberAcceptedIff(s: State, team: Id, row: Id, user: Id)
    requires OneMembership(s)
    ensures RemoveTeamMember(s, team, row, user).1.None? <==> RunsTeam(s, team, user)
  {
    if team in s.teams {
      RunsTeamIff(s, team, user);
    }
  }

  /** Group calls other than creation take a group of the token's organization. */
  lemma GroupAcceptedIff(s: State, step: GroupStep)
    ensures GroupCall(s, step).1.None? <==> step.CreateGroupStep? || (step.id in s.teams && s.teams[step.id].org == step.org)
  {
  }

  // ---- sharing ----

  lemma GrantUserAcceptedIff(s: State, collection: Id, id: Id, user: Id, access: Access)
    requires OneMembership(s)
    ensures GrantUserAccess(s, collection, id, user, access).1.None? <==>
            MayUse(s, collection, user, CA.Right.Admin) && OrgUserOf(s, id, s.collections[collection].org)
  {
    ManagesIff(s, collection, user);
  }

  lemma GrantTeamAcceptedIff(s: State, collection: Id, team: Id, user: Id, access: Access)
    requires OneMembership(s)
    ensures GrantTeamAccess(s, collection, team, user, access).1.None? <==>
            MayUse(s, collection, user, CA.Right.Admin) && TeamOf(s, team, s.collections[collection].org)
  {
    ManagesIff(s, collection, user);
  }

  /** Deleting a collection takes an administrator and a default collection to move the items to. */
  lemma DeleteCollectionAcceptedIff(s: State, id: Id, user: Id)
    requires Valid(s)
    ensures DeleteCollection(s, id, user).1.None? <==>
            && LiveCollection(s, id) && !s.collections[id].isDefault && AdminIn(s, s.collections[id].org, user)
            && exists c :: CollectionOf(s, c, s.collections[id].org) && LiveDefault(s.collections[c])
  {
    if LiveCollection(s, id) {
      FoundIsMember(s, s.collections[id].org, user);
      DefaultCollectionFound(s, s.collections[id].org);
    }
  }

  /** An item goes only where its user may write: to a live collection of the organization named. */
  lemma CreateItemAcceptedIff(s: State, org: Id, user: Id, collection: Id, content: nat, typeValid: bool)
    requires OneMembership(s)
    ensures CreateItem(s, org, user, Some(collection), content, typeValid).1.None? <==>
            && CollectionOf(s, collection, org) && typeValid
            && MayWrite(s, collection, user)
  {
    OrgUserFound(s, org, user);
    if CollectionOf(s, collection, org) && LiveCollection(s, collection) {
      WritesIff(s, collection, user);
    }
  }

  lemma WritesIff(s: State, collection: Id, user: Id)
    requires OneMembership(s) && LiveCollection(s, collection)
    ensures var m := FindOrgUser(s, s.collections[collection].org, user);
            m.Some? && CanWrite(s, collection, m.value) <==>
            MayWrite(s, collection, user)
  {
    var org := s.collections[collection].org;
    OrgUserFound(s, org, user);
    forall i | i in s.orgUsers && RowOf(s.orgUsers[i], org, user)
      ensures FindOrgUser(s, org, user) == Some(i)
    {
      FoundIsOnly(s, org, user, i);
    }
  }

  lemma CreateCollectionAcceptedIff(s: State, org: Id, user: Id, name: string, limit: Option<nat>)
    requires OneMembership(s) && Below(s.collections, s.next)
    ensures CreateCollection(s, org, user, name, limit).1.None? <==>
            && ManagerIn(s, org, user) && limit.Some? && |OwnCollections(s, org)| < limit.value
            && forall i :: LiveCollection(s, i) ==> !(s.collections[i].org == org && s.collections[i].name == name)
  {
    CountsAre(s, org);
    FoundIsMember(s, org, user);
    FirstIdFinds(s.collections, (c: Collection) => c.org == org && c.name == name && !c.deleted, 0, s.next);
  }

  lemma RevokeAcceptedIff(s: State, collection: Id, target: Id, user: Id)
    requires OneMembership(s)
    ensures RevokeUserAccess(s, collection, target, user).1.None? <==> MayUse(s, collection, user, CA.Right.Admin)
    ensures RevokeTeamAccess(s, collection, target, user).1.None? <==> MayUse(s, collection, user, CA.Right.Admin)
  {
    ManagesIff(s, collection, user);
  }

  // ---- items ----

  /** Without a collection named, the item goes to the live default one; where there is none, one is
      created, on which only those who reach everything may write. */
  lemma CreateInDefaultAcceptedIff(s: State, org: Id, user: Id, content: nat, typeValid: bool)
    requires Valid(s)
    ensures CreateItem(s, org, user, None, content, typeValid).1.None? <==>
            && typeValid
            && ((exists c :: IsHome(s, c, org) && MayWrite(s, c, user))
                || ((forall c :: !IsHome(s, c, org))
                    && exists i :: i in s.orgUsers && RowOf(s.orgUsers[i], org, user) && ReachesAll(s.orgUsers[i])))
  {
    DefaultCollectionFound(s, org);
    OrgUserFound(s, org, user);
    var found := FindDefaultCollection(s, org);
    if found.Some? {
      HomeIsOnly(s, org, found.value);
      WritesIff(s, found.value, user);
    } else {
      var t := EnsureDefaultCollection(s, org).0;
      NewHomeHasNoGrants(s, org);
      forall i | i in s.orgUsers && RowOf(s.orgUsers[i], org, user)
        ensures FindOrgUser(s, org, user) == Some(i)
      {
        FoundIsOnly(s, org, user, i);
      }
    }
  }

  /** The live default collection of the organization. */
  predicate IsHome(s: State, c: Id, org: Id) {
    CollectionOf(s, c, org) && s.collections[c].isDefault && !s.collections[c].deleted
  }

  lemma HomeIsOnly(s: State, org: Id, c: Id)
    requires OneDefaultCollection(s.collections) && IsHome(s, c, org)
    ensures forall d :: IsHome(s, d, org) ==> d == c
  {
  }

  lemma NewHomeHasNoGrants(s: State, org: Id)
    requires Valid(s) && FindDefaultCollection(s, org).None?
    ensures var (t, c) := EnsureDefaultCollection(s, org);
            LiveCollection(t, c) && t.collections[c].org == org && forall i, r :: !CA.Granted(t, c, i, r)
  {
  }

  /** The user may change the item: a live item of a collection on which the user may write or administer,
      or of none if the user created it or reaches everything. */
  predicate MayEdit(s: State, item: Id, user: Id) {
    LiveItem(s, item) && exists i :: i in s.orgUsers && RowOf(s.orgUsers[i], s.items[item].org, user)
                                    && (ReachesAll(s.orgUsers[i]) || Holds(s, s.items[item], i, user))
  }

  predicate Holds(s: State, x: Item, id: Id, user: Id) {
    match x.collection
    case None => x.creator == user
    case Some(c) => CA.Granted(s, c, id, CA.Right.Write) || CA.Granted(s, c, id, CA.Right.Admin)
  }

  lemma EditsIff(s: State, item: Id, user: Id)
    requires OneMembership(s) && LiveItem(s, item)
    ensures var m := FindOrgUser(s, s.items[item].org, user);
            m.Some? && CanWriteItem(s, s.items[item], m.value, user) <==> MayEdit(s, item, user)
  {
    var x := s.items[item];
    OrgUserFound(s, x.org, user);
    forall i | i in s.orgUsers && RowOf(s.orgUsers[i], x.org, user)
      ensures FindOrgUser(s, x.org, user) == Some(i)
    {
      FoundIsOnly(s, x.org, user, i);
    }
  }

  /** An item is changed only by users who may edit it, and moved only to a live collection of its own
      organization on which they may write. */
  lemma UpdateItemAcceptedIff(s: State, item: Id, user: Id, collection: Option<Id>, data: Option<nat>)
    requires OneMembership(s)
    ensures UpdateItem(s, item, user, collection, data).1.None? <==>
            && MayEdit(s, item, user)
            && (collection.Some? ==> CollectionOf(s, collection.value, s.items[item].org) && MayWrite(s, collection.value, user))
  {
    if LiveItem(s, item) {
      EditsIff(s, item, user);
      if collection.Some? && LiveCollection(s, collection.value) && s.collections[collection.value].org == s.items[item].org {
        WritesIff(s, collection.value, user);
      }
    }
  }

  lemma DeleteItemAcceptedIff(s: State, item: Id, user: Id)
    requires OneMembership(s)
    ensures DeleteItem(s, item, user).1.None? <==> MayEdit(s, item, user)
  {
    if LiveItem(s, item) {
      EditsIff(s, item, user);
    }
  }

  /** In every valid state a live item has a collection, and may be edited exactly by those who may write
      or administer it. */
  lemma MayEditIff(s: State, item: Id, user: Id)
    requires Valid(s) && LiveItem(s, item)
    ensures s.items[item].collection.Some? && (MayEdit(s, item, user) <==> MayWrite(s, s.items[item].collection.value, user))
  {
    assert Placed(s.items[item], s.collections);
  }
}

/** The calls of the organization service, as functions of the tables. */
module OrgMembership {
  import opened Wrappers
  import opened Members
  import opened OrgTables

  datatype Error = NotFound | Forbidden | Invalid | Exists | LimitReached | PlanMissing | Processed | Protected | SinglePolicy | NotInvited

  type Outcome = (State, Option<Error>)

  function Fail(s: State, e: Error): Outcome {
    (s, Some(e))
  }

  function Done(s: State): Outcome {
    (s, None)
  }

  const DEFAULT_TEAM := "All Members"
  const DEFAULT_COLLECTION := "General"

  // ---- defaults ----

  function EnsureDefaultTeam(s: State, org: Id): (r: (State, Id))
    ensures r.0.orgs == s.orgs && r.0.orgUsers == s.orgUsers && r.0.next >= s.next && r.0.teamUsers == s.teamUsers
  {
    var found := FindDefaultTeam(s, org);
    if found.Some? then (s, found.value) else (AddTeam(s, Team(org, DEFAULT_TEAM, true)), s.next)
  }

  function EnsureDefaultCollection(s: State, org: Id): (r: (State, Id))
    ensures r.0.orgs == s.orgs && r.0.orgUsers == s.orgUsers && r.0.next >= s.next && r.0.teamUsers == s.teamUsers
  {
    var found := FindDefaultCollection(s, org);
    if found.Some? then (s, found.value) else (AddCollection(s, Collection(org, DEFAULT_COLLECTION, true, false)), s.next)
  }

  function EnsureDefaultGrant(s: State, collection: Id, team: Id): (t: State)
    ensures t.orgs == s.orgs && t.orgUsers == s.orgUsers && t.next >= s.next && t.teamUsers == s.teamUsers
  {
    if FindTeamGrant(s, collection, team).Some? then s
    else AddTeamGrant(s, CollectionTeam(collection, team, Access(true, false, false, false)))
  }

  function EnsureInDefaultTeam(s: State, org: Id, id: Id): (t: State)
    ensures t.orgs == s.orgs && t.orgUsers == s.orgUsers && t.next >= s.next
  {
    var (t, team) := EnsureDefaultTeam(s, org);
    if FindTeamUser(t, team, id).Some? then t else AddTeamUser(t, TeamUser(team, id, false))
  }

  /** The default team, the default collection, and the team's read access to it. */
  function EnsureDefaults(s: State, org: Id): (t: State)
    ensures t.orgs == s.orgs && t.orgUsers == s.orgUsers && t.next >= s.next && t.teamUsers == s.teamUsers
  {
    var (t, team) := EnsureDefaultTeam(s, org);
    var (u, collection) := EnsureDefaultCollection(t, org);
    EnsureDefaultGrant(u, collection, team)
  }

  // ---- checks ----

  function PermissionError(s: State, org: Id, user: Id): Option<Error> {
    var m := FindOrgUser(s, org, user);
    if m.Some? && s.orgUsers[m.value].IsAdmin() then None else Some(Forbidden)
  }

  predicate IsOwner(s: State, org: Id, user: Id) {
    var m := FindOrgUser(s, org, user);
    m.Some? && s.orgUsers[m.value].IsOwner()
  }

  /** The user has an active membership elsewhere that the single-organization policy forbids: any, if
      the target organization enforces it, or one in an organization that does. */
  predicate SinglePolicyForbids(s: State, enforcing: set<Id>, org: Id, user: Id) {
    exists i :: i in s.orgUsers && s.orgUsers[i].user == user && s.orgUsers[i].org != org && IsActive(s.orgUsers[i].status)
                && (org in enforcing || s.orgUsers[i].org in enforcing)
  }

  // ---- calls ----

  /** Without a free plan to subscribe to, the new organization is deleted again. */
  function CreateOrg(s: State, user: Id, key: string, known: bool, planFound: bool): Outcome {
    if !known then Fail(s, Forbidden)
    else if planFound then Done(NewOrg(s, user, key)) else Fail(PurgeOrg(NewOrg(s, user, key), s.next), PlanMissing)
  }

  /** The new organization has the next id; its owner's membership has the one after. */
  function NewOrg(s: State, user: Id, key: string): (t: State)
    ensures s.next in t.orgs && t.next >= s.next + 2
  {
    var a := AddOrg(s, Org(false, false));
    var b := AddOrgUser(a, OrgUser(s.next, user, Owner, true, Confirmed, key));
    EnsureInDefaultTeam(EnsureDefaults(b, s.next), s.next, a.next)
  }

  function DeleteOrg(s: State, org: Id, user: Id): Outcome {
    if FindOrgUser(s, org, user).None? then Fail(s, NotFound)
    else if !IsOwner(s, org, user) then Fail(s, Forbidden)
    else if org !in s.orgs then Fail(s, NotFound)
    else if s.orgs[org].personal then Fail(s, Forbidden)
    else Done(PurgeOrg(s, org))
  }

  /** A new membership, in the default team, with all defaults in place. */
  function Enroll(s: State, m: OrgUser): (t: State)
    ensures t.next >= s.next && t.orgUsers == s.orgUsers[s.next := m]
  {
    EnsureDefaults(EnsureInDefaultTeam(AddOrgUser(s, m), m.org, s.next), m.org)
  }

  /** The invitee is None when no user has the address, the limit when no plan is found; invited says
      whether the invitation service takes the invitation. */
  function InviteError(s: State, org: Id, inviter: Id, role: Role, invitee: Option<Id>, limit: Option<nat>,
                       enforcing: set<Id>, invited: bool): (e: Option<Error>)
    ensures e.None? ==> org in s.orgs && invitee.Some? && FindOrgUser(s, org, invitee.value).None?
  {
    if role == Billing then Some(Invalid)
    else if org !in s.orgs then Some(NotFound)
    else if s.orgs[org].personal then Some(Invalid)
    else if PermissionError(s, org, inviter).Some? then Some(Forbidden)
    else if role == Owner && !IsOwner(s, org, inviter) then Some(Forbidden)
    else if limit.None? then Some(PlanMissing)
    else if MemberCount(s, org) >= limit.value then Some(LimitReached)
    else if invitee.None? then Some(NotFound)
    else if FindOrgUser(s, org, invitee.value).Some? then Some(Exists)
    else if SinglePolicyForbids(s, enforcing, org, invitee.value) then Some(SinglePolicy)
    else if !invited then Some(NotInvited)
    else None
  }

  function InviteUser(s: State, org: Id, inviter: Id, role: Role, accessAll: bool, key: string,
                      invitee: Option<Id>, limit: Option<nat>, enforcing: set<Id>, invited: bool): Outcome
  {
    var e := InviteError(s, org, inviter, role, invitee, limit, enforcing, invited);
    if e.Some? then Fail(s, e.value) else Done(Enroll(s, OrgUser(org, invitee.value, role, accessAll, Invited, key)))
  }

  /** The target need not belong to the organization whose administrator asks. */
  function UpdateMemberRole(s: State, org: Id, id: Id, requester: Id, role: Role, accessAll: Option<bool>): Outcome {
    if role == Billing then Fail(s, Invalid)
    else if PermissionError(s, org, requester).Some? then Fail(s, Forbidden)
    else if role == Owner && !IsOwner(s, org, requester) then Fail(s, Forbidden)
    else if id !in s.orgUsers then Fail(s, NotFound)
    else if s.orgUsers[id].role == Owner then Fail(s, Protected)
    else
      var m := s.orgUsers[id].(role := role);
      Done(s.(orgUsers := s.orgUsers[id := if accessAll.Some? then m.(accessAll := accessAll.value) else m]))
  }

  function RemoveMember(s: State, org: Id, id: Id, requester: Id): Outcome {
    if PermissionError(s, org, requester).Some? then Fail(s, Forbidden)
    else if id !in s.orgUsers then Fail(s, NotFound)
    else if s.orgUsers[id].org != org then Fail(s, Forbidden)
    else if s.orgUsers[id].role == Owner then Fail(s, Protected)
    else Done(DeleteOrgUser(s, id))
  }

  function AcceptInvitation(s: State, id: Id, user: Id, key: string, enforcing: set<Id>): Outcome {
    if key == "" then Fail(s, Invalid)
    else if id !in s.orgUsers then Fail(s, NotFound)
    else if s.orgUsers[id].user != user then Fail(s, Forbidden)
    else if s.orgUsers[id].status != Invited then Fail(s, Processed)
    else if SinglePolicyForbids(s, enforcing, s.orgUsers[id].org, user) then Fail(s, SinglePolicy)
    else
      var m := s.orgUsers[id];
      Done(EnsureInDefaultTeam(s.(orgUsers := s.orgUsers[id := m.(key := key, status := Accepted)]), m.org, id))
  }

  function ConfirmProvisionedMember(s: State, org: Id, id: Id, requester: Id, key: string): Outcome {
    if key == "" then Fail(s, Invalid)
    else if PermissionError(s, org, requester).Some? then Fail(s, Forbidden)
    else if id !in s.orgUsers then Fail(s, NotFound)
    else if s.orgUsers[id].org != org then Fail(s, Forbidden)
    else if s.orgUsers[id].status != Provisioned then Fail(s, Processed)
    else
      var m := s.orgUsers[id];
      Done(EnsureInDefaultTeam(s.(orgUsers := s.orgUsers[id := m.(key := key, status := Confirmed)]), org, id))
  }

  /** A pending invitation is accepted with the role it was given, whatever the new row says. */
  function AddExistingMember(s: State, m: OrgUser): Outcome {
    if m.key == "" then Fail(s, Invalid)
    else if m.org !in s.orgs then Fail(s, NotFound)
    else if s.orgs[m.org].personal then Fail(s, Invalid)
    else
      var found := FindOrgUser(s, m.org, m.user);
      if found.None? then Done(EnsureInDefaultTeam(AddOrgUser(s, m), m.org, s.next))
      else if s.orgUsers[found.value].status == Invited then
        Done(s.(orgUsers := s.orgUsers[found.value := s.orgUsers[found.value].(key := m.key, status := Accepted)]))
      else Fail(s, Exists)
  }

  function DeclineInvitationForUser(s: State, org: Id, user: Id): Outcome {
    var found := FindOrgUser(s, org, user);
    if found.None? then Done(s)
    else if s.orgUsers[found.value].status != Invited then Fail(s, Processed)
    else Done(DeleteOrgUser(s, found.value))
  }

  // ---- provisioning through SCIM ----

  function CreateScimUser(s: State, org: Id, user: Option<Id>): Outcome {
    if user.None? then Fail(s, NotFound)
    else if FindOrgUser(s, org, user.value).Some? then Fail(s, Exists)
    else Done(AddOrgUser(s, OrgUser(org, user.value, Member, false, Provisioned, "pending_key_exchange")))
  }

  function ActiveStatus(current: Status, active: bool): Status {
    if !active then Suspended else if current == Suspended then Confirmed else current
  }

  function UpdateScimUser(s: State, org: Id, user: Id, active: bool): Outcome {
    var found := FindOrgUser(s, org, user);
    if found.None? then Fail(s, NotFound)
    else
      var m := s.orgUsers[found.value];
      Done(s.(orgUsers := s.orgUsers[found.value := m.(status := ActiveStatus(m.status, active))]))
  }

  /** The last replacement of active counts; it confirms even a member who was not suspended. */
  function PatchedStatus(current: Status, actives: seq<bool>): Status {
    if actives == [] then current else if actives[|actives| - 1] then Confirmed else Suspended
  }

  function PatchScimUser(s: State, org: Id, user: Id, actives: seq<bool>): Outcome {
    var found := FindOrgUser(s, org, user);
    if found.None? then Fail(s, NotFound)
    else
      var m := s.orgUsers[found.value];
      Done(s.(orgUsers := s.orgUsers[found.value := m.(status := PatchedStatus(m.status, actives))]))
  }

  function DeleteScimUser(s: State, org: Id, user: Id): Outcome {
    var found := FindOrgUser(s, org, user);
    if found.None? then Fail(s, NotFound) else Done(DeleteOrgUser(s, found.value))
  }
}

/** What refusals mean: Forbidden that the caller is not entitled to the call, NotFound that something the
    call names is missing, and every other one what stands in the way. */
module OrgReasons {
  import opened Wrappers
  import opened Members
  import opened OrgTables
  import opened OrgInvariant
  import opened OrgMembership
  import opened OrgSharing
  import opened ScimGroups
  import opened OrgRuns
  import opened OrgAcceptance
  import CA = CollectionAccess

  // ---- who is entitled ----

  predicate MayAppoint(s: State, org: Id, user: Id, role: Role) {
    AdminIn(s, org, user) && (role == Owner ==> OwnerIn(s, org, user))
  }

  predicate EntitledToOrgCall(s: State, c: OrgStep) {
    match c
    case CreateOrgStep(_, _, known, _) => known
    case DeleteOrgStep(org, user) => OwnerIn(s, org, user) && (org in s.orgs ==> !s.orgs[org].personal)
    case InviteStep(org, user, role, _, _, _, _, _, _) => MayAppoint(s, org, user, role)
    case RoleStep(org, _, user, role, _) => MayAppoint(s, org, user, role)
    case RemoveStep(org, id, user) => AdminIn(s, org, user) && (id in s.orgUsers ==> s.orgUsers[id].org == org)
  }

  predicate EntitledToMemberCall(s: State, c: MemberStep) {
    match c
    case AcceptStep(id, user, _, _) => id in s.orgUsers ==> s.orgUsers[id].user == user
    case ConfirmStep(org, id, user, _) => AdminIn(s, org, user) && (id in s.orgUsers ==> s.orgUsers[id].org == org)
    case _ => true
  }

  predicate EntitledToTeamCall(s: State, c: TeamStep) {
    match c
    case CreateTeamStep(org, user, _) => ManagerIn(s, org, user)
    case RemoveTeamStep(id, user) => id in s.teams ==> ManagerIn(s, s.teams[id].org, user)
    case _ => c.id in s.teams ==> RunsTeam(s, c.id, c.user)
  }

  predicate EntitledToCollectionCall(s: State, c: CollectionStep) {
    match c
    case CreateCollectionStep(org, user, _, _) => ManagerIn(s, org, user)
    case DeleteCollectionStep(id, user) => id in s.collections ==> AdminIn(s, s.collections[id].org, user)
    case _ => LiveCollection(s, c.id) ==> MayUse(s, c.id, c.user, CA.Right.Admin)
  }

  /** The collection may take items of the organization from the user. */
  predicate Takes(s: State, collection: Id, org: Id, user: Id) {
    LiveCollection(s, collection) ==> s.collections[collection].org == org && MayWrite(s, collection, user)
  }

  predicate EntitledToItemCall(s: State, c: ItemStep) {
    match c
    case CreateItemStep(org, user, collection, _, _) =>
      MemberIn(s, org, user) && (collection.Some? ==> Takes(s, collection.value, org, user))
    case UpdateItemStep(id, user, collection, _) =>
      LiveItem(s, id) ==> MayEdit(s, id, user) && (collection.Some? ==> Takes(s, collection.value, s.items[id].org, user))
    case DeleteItemStep(id, user) => LiveItem(s, id) ==> MayEdit(s, id, user)
  }

  lemma OrgCallForbidden(s: State, c: OrgStep)
    requires OneMembership(s)
    ensures OrgCall(s, c).1 == Some(Forbidden) ==> !EntitledToOrgCall(s, c)
    ensures !EntitledToOrgCall(s, c) ==> OrgCall(s, c).1.Some?
  {
    if !c.CreateOrgStep? {
      FoundIsMember(s, c.org, c.user);
    }
  }

  lemma MemberCallForbidden(s: State, c: MemberStep)
    requires OneMembership(s)
    ensures MemberCall(s, c).1 == Some(Forbidden) ==> !EntitledToMemberCall(s, c)
    ensures !EntitledToMemberCall(s, c) ==> MemberCall(s, c).1.Some?
  {
    if c.ConfirmStep? {
      FoundIsMember(s, c.org, c.user);
    }
  }

  lemma TeamCallForbidden(s: State, c: TeamStep)
    requires OneMembership(s)
    ensures TeamCall(s, c).1 == Some(Forbidden) ==> !EntitledToTeamCall(s, c)
    ensures !EntitledToTeamCall(s, c) ==> TeamCall(s, c).1.Some?
  {
    if c.CreateTeamStep? {
      FoundIsMember(s, c.org, c.user);
    } else if c.id in s.teams {
      FoundIsMember(s, s.teams[c.id].org, c.user);
      RunsTeamIff(s, c.id, c.user);
    }
  }

  lemma CollectionCallForbidden(s: State, c: CollectionStep)
    requires OneMembership(s)
    ensures CollectionCall(s, c).1 == Some(Forbidden) ==> !EntitledToCollectionCall(s, c)
    ensures !EntitledToCollectionCall(s, c) ==> CollectionCall(s, c).1.Some?
  {
    if c.CreateCollectionStep? {
      FoundIsMember(s, c.org, c.user);
    } else if c.id in s.collections {
      FoundIsMember(s, s.collections[c.id].org, c.user);
      ManagesIff(s, c.id, c.user);
    }
  }

  lemma ItemCallForbidden(s: State, c: ItemStep)
    requires OneMembership(s) && !(c.CreateItemStep? && c.collection.None?)
    ensures ItemCall(s, c).1 == Some(Forbidden) ==> !EntitledToItemCall(s, c)
    ensures !EntitledToItemCall(s, c) ==> ItemCall(s, c).1.Some?
  {
    if c.CreateItemStep? {
      FoundIsMember(s, c.org, c.user);
    } else if LiveItem(s, c.id) {
      EditsIff(s, c.id, c.user);
    }
    if !c.DeleteItemStep? && c.collection.Some? && LiveCollection(s, c.collection.value) {
      WritesIff(s, c.collection.value, c.user);
    }
  }

  predicate Entitled(s: State, step: Step) {
    match step
    case OnOrg(c) => EntitledToOrgCall(s, c)
    case OnMember(c) => EntitledToMemberCall(s, c)
    case OnTeam(c) => EntitledToTeamCall(s, c)
    case OnCollection(c) => EntitledToCollectionCall(s, c)
    case OnItem(c) => EntitledToItemCall(s, c)
    case _ => true
  }

  /** Forbidden is answered only to callers who are not entitled to the call, and those are always refused. */
  lemma ForbiddenMeansNotEntitled(s: State, step: Step)
    requires OneMembership(s) && (step.OnItem? && step.i.CreateItemStep? ==> step.i.collection.Some?)
    ensures Call(s, step).1 == Some(Forbidden) ==> !Entitled(s, step)
    ensures !Entitled(s, step) ==> Call(s, step).1.Some?
  {
    match step
    case OnOrg(c) => OrgCallForbidden(s, c);
    case OnMember(c) => MemberCallForbidden(s, c);
    case OnTeam(c) => TeamCallForbidden(s, c);
    case OnCollection(c) => CollectionCallForbidden(s, c);
    case OnItem(c) => ItemCallForbidden(s, c);
    case OnScimUser(c) =>
    case OnGroup(c) =>
  }

  // ---- what is missing ----

  predicate OrgCallMisses(s: State, c: OrgStep) {
    match c
    case CreateOrgStep(_, _, _, _) => false
    case DeleteOrgStep(org, user) => !MemberIn(s, org, user) || org !in s.orgs
    case InviteStep(org, _, _, _, _, invitee, _, _, _) => org !in s.orgs || invitee.None?
    case RoleStep(_, id, _, _, _) => id !in s.orgUsers
    case RemoveStep(_, id, _) => id !in s.orgUsers
  }

  predicate MemberCallMisses(s: State, c: MemberStep) {
    match c
    case AcceptStep(id, _, _, _) => id !in s.orgUsers
    case ConfirmStep(_, id, _, _) => id !in s.orgUsers
    case AddExistingStep(row) => row.org !in s.orgs
    case DeclineStep(_, _) => false
  }

  predicate ScimUserCallMisses(s: State, c: ScimUserStep) {
    if c.CreateScimUserStep? then c.invitee.None? else !MemberIn(s, c.org, c.user)
  }

  predicate TeamCallMisses(s: State, c: TeamStep) {
    match c
    case CreateTeamStep(_, _, _) => false
    case RemoveTeamStep(id, _) => id !in s.teams
    case AddTeamMemberStep(id, _, target, _) => id !in s.teams || target !in s.orgUsers
    case UpdateTeamMemberStep(id, member, _, _) => id !in s.teams || member !in s.teamUsers
    case RemoveTeamMemberStep(id, _, _) => id !in s.teams
  }

  predicate CollectionCallMisses(s: State, c: CollectionStep) {
    match c
    case CreateCollectionStep(_, _, _, _) => false
    case DeleteCollectionStep(id, _) => !LiveCollection(s, id) || forall h :: h in s.collections ==> !IsHome(s, h, s.collections[id].org)
    case GrantUserStep(id, target, _, _) => !LiveCollection(s, id) || target !in s.orgUsers
    case GrantTeamStep(id, target, _, _) => !LiveCollection(s, id) || target !in s.teams
    case _ => !LiveCollection(s, c.id)
  }

  predicate ItemCallMisses(s: State, c: ItemStep) {
    match c
    case CreateItemStep(_, _, collection, _, _) => collection.Some? && !LiveCollection(s, collection.value)
    case UpdateItemStep(id, _, collection, _) => !LiveItem(s, id) || (collection.Some? && !LiveCollection(s, collection.value))
    case DeleteItemStep(id, _) => !LiveItem(s, id)
  }

  lemma OrgCallNotFound(s: State, c: OrgStep)
    requires OneMembership(s)
    ensures OrgCall(s, c).1 == Some(NotFound) ==> OrgCallMisses(s, c)
    ensures OrgCallMisses(s, c) ==> OrgCall(s, c).1.Some?
  {
    if !c.CreateOrgStep? {
      FoundIsMember(s, c.org, c.user);
    }
  }

  lemma MemberCallNotFound(s: State, c: MemberStep)
    ensures MemberCall(s, c).1 == Some(NotFound) ==> MemberCallMisses(s, c)
    ensures MemberCallMisses(s, c) ==> MemberCall(s, c).1.Some?
  {
  }

  lemma ScimUserCallNotFound(s: State, c: ScimUserStep)
    requires OneMembership(s)
    ensures ScimUserCall(s, c).1 == Some(NotFound) <==> ScimUserCallMisses(s, c)
  {
    if !c.CreateScimUserStep? {
      FoundIsMember(s, c.org, c.user);
    }
  }

  lemma TeamCallNotFound(s: State, c: TeamStep)
    ensures TeamCall(s, c).1 == Some(NotFound) ==> TeamCallMisses(s, c)
    ensures TeamCallMisses(s, c) ==> TeamCall(s, c).1.Some?
  {
  }

  lemma GroupCallNotFound(s: State, c: GroupStep)
    ensures GroupCall(s, c).1 == Some(NotFound) <==> !c.CreateGroupStep? && !TeamOf(s, c.id, c.org)
  {
  }

  lemma CollectionCallNotFound(s: State, c: CollectionStep)
    requires Below(s.collections, s.next)
    ensures CollectionCall(s, c).1 == Some(NotFound) ==> CollectionCallMisses(s, c)
    ensures CollectionCallMisses(s, c) ==> CollectionCall(s, c).1.Some?
  {
    if c.DeleteCollectionStep? && LiveCollection(s, c.id) {
      DefaultCollectionFound(s, s.collections[c.id].org);
    }
  }

  lemma ItemCallNotFound(s: State, c: ItemStep)
    requires Valid(s)
    ensures ItemCall(s, c).1 == Some(NotFound) ==> ItemCallMisses(s, c)
    ensures ItemCallMisses(s, c) ==> ItemCall(s, c).1.Some?
  {
    if c.CreateItemStep? {
      DefaultCollectionKeeps(s, c.org);
    }
  }

  predicate Misses(s: State, step: Step) {
    match step
    case OnOrg(c) => OrgCallMisses(s, c)
    case OnMember(c) => MemberCallMisses(s, c)
    case OnScimUser(c) => ScimUserCallMisses(s, c)
    case OnTeam(c) => TeamCallMisses(s, c)
    case OnGroup(c) => !c.CreateGroupStep? && !TeamOf(s, c.id, c.org)
    case OnCollection(c) => CollectionCallMisses(s, c)
    case OnItem(c) => ItemCallMisses(s, c)
  }

  /** NotFound is answered only when something the call names is missing, and then the call is always refused. */
  lemma NotFoundMeansMissing(s: State, step: Step)
    requires Valid(s)
    ensures Call(s, step).1 == Some(NotFound) ==> Misses(s, step)
    ensures Misses(s, step) ==> Call(s, step).1.Some?
  {
    match step
    case OnOrg(c) => OrgCallNotFound(s, c);
    case OnMember(c) => MemberCallNotFound(s, c);
    case OnScimUser(c) => ScimUserCallNotFound(s, c);
    case OnTeam(c) => TeamCallNotFound(s, c);
    case OnGroup(c) => GroupCallNotFound(s, c);
    case OnCollection(c) => CollectionCallNotFound(s, c);
    case OnItem(c) => ItemCallNotFound(s, c);
  }

  // ---- the other reasons ----

  predicate OrgCallCause(s: State, c: OrgStep, e: Error) {
    match c
    case CreateOrgStep(_, _, _, planFound) => e == PlanMissing && !planFound
    case DeleteOrgStep(_, _) => false
    case InviteStep(org, _, role, _, _, invitee, limit, enforcing, invited) =>
      (match e
       case Invalid => role == Billing || (org in s.orgs && s.orgs[org].personal)
       case PlanMissing => limit.None?
       case LimitReached => limit.Some? && |ActiveMembers(s, org)| >= limit.value
       case Exists => invitee.Some? && MemberIn(s, org, invitee.value)
       case SinglePolicy => invitee.Some? && Elsewhere(s, enforcing, org, invitee.value)
       case NotInvited => !invited
       case _ => false)
    case RoleStep(_, id, _, role, _) =>
      (e == Invalid && role == Billing) || (e == Protected && id in s.orgUsers && s.orgUsers[id].role == Owner)
    case RemoveStep(_, id, _) => e == Protected && id in s.orgUsers && s.orgUsers[id].role == Owner
  }

  predicate MemberCallCause(s: State, c: MemberStep, e: Error) {
    match c
    case AcceptStep(id, user, key, enforcing) =>
      (match e
       case Invalid => key == ""
       case Processed => id in s.orgUsers && s.orgUsers[id].status != Invited
       case SinglePolicy => id in s.orgUsers && Elsewhere(s, enforcing, s.orgUsers[id].org, user)
       case _ => false)
    case ConfirmStep(_, id, _, key) =>
      (e == Invalid && key == "") || (e == Processed && id in s.orgUsers && s.orgUsers[id].status != Provisioned)
    case AddExistingStep(row) =>
      || (e == Invalid && (row.key == "" || (row.org in s.orgs && s.orgs[row.org].personal)))
      || (e == Exists && MemberIn(s, row.org, row.user))
    case DeclineStep(org, user) => e == Processed && MemberIn(s, org, user)
  }

  predicate TeamCallCause(s: State, c: TeamStep, e: Error) {
    match c
    case CreateTeamStep(org, _, name) => e == Exists && exists i :: i in s.teams && s.teams[i].org == org && s.teams[i].name == name
    case RemoveTeamStep(id, _) => e == Protected && id in s.teams && s.teams[id].isDefault
    case AddTeamMemberStep(id, _, target, _) =>
      || (e == Exists && CA.InTeam(s, id, target))
      || (e == Invalid && id in s.teams && target in s.orgUsers && s.orgUsers[target].org != s.teams[id].org)
    case _ => false
  }

  predicate CollectionCallCause(s: State, c: CollectionStep, e: Error) {
    match c
    case CreateCollectionStep(org, _, name, limit) =>
      (match e
       case PlanMissing => limit.None?
       case LimitReached => limit.Some? && |OwnCollections(s, org)| >= limit.value
       case Exists => exists i :: i in s.collections && LiveCollection(s, i) && s.collections[i].org == org && s.collections[i].name == name
       case _ => false)
    case DeleteCollectionStep(id, _) => e == Protected && LiveCollection(s, id) && s.collections[id].isDefault
    case GrantUserStep(id, target, _, _) =>
      e == Invalid && LiveCollection(s, id) && target in s.orgUsers && s.orgUsers[target].org != s.collections[id].org
    case GrantTeamStep(id, target, _, _) =>
      e == Invalid && LiveCollection(s, id) && target in s.teams && s.teams[target].org != s.collections[id].org
    case _ => false
  }

  predicate Cause(s: State, step: Step, e: Error) {
    match step
    case OnOrg(c) => OrgCallCause(s, c, e)
    case OnMember(c) => MemberCallCause(s, c, e)
    case OnScimUser(c) => e == Exists && c.CreateScimUserStep? && c.invitee.Some? && MemberIn(s, c.org, c.invitee.value)
    case OnTeam(c) => TeamCallCause(s, c, e)
    case OnGroup(c) => false
    case OnCollection(c) => CollectionCallCause(s, c, e)
    case OnItem(c) => e == Invalid && c.CreateItemStep? && !c.typeValid
  }

  predicate OtherReason(e: Option<Error>) {
    e.Some? && e != Some(Forbidden) && e != Some(NotFound)
  }

  lemma OrgCallRefused(s: State, c: OrgStep)
    requires OneMembership(s)
    ensures OtherReason(OrgCall(s, c).1) ==> OrgCallCause(s, c, OrgCall(s, c).1.value)
  {
    if c.InviteStep? {
      CountsAre(s, c.org);
      if c.invitee.Some? {
        FoundIsMember(s, c.org, c.invitee.value);
        ElsewhereIff(s, c.enforcing, c.org, c.invitee.value);
      }
    }
  }

  lemma MemberCallRefused(s: State, c: MemberStep)
    requires OneMembership(s)
    ensures OtherReason(MemberCall(s, c).1) ==> MemberCallCause(s, c, MemberCall(s, c).1.value)
  {
    match c
    case AcceptStep(id, user, _, enforcing) =>
      if id in s.orgUsers {
        ElsewhereIff(s, enforcing, s.orgUsers[id].org, user);
      }
    case ConfirmStep(_, _, _, _) =>
    case AddExistingStep(row) => FoundIsMember(s, row.org, row.user);
    case DeclineStep(org, user) => FoundIsMember(s, org, user);
  }

  lemma TeamCallRefused(s: State, c: TeamStep)
    requires Below(s.teamUsers, s.next)
    ensures OtherReason(TeamCall(s, c).1) ==> TeamCallCause(s, c, TeamCall(s, c).1.value)
  {
    if c.AddTeamMemberStep? {
      TeamUserFound(s, c.id, c.target);
    }
  }

  lemma CollectionCallRefused(s: State, c: CollectionStep)
    ensures OtherReason(CollectionCall(s, c).1) ==> CollectionCallCause(s, c, CollectionCall(s, c).1.value)
  {
    if c.CreateCollectionStep? {
      CountsAre(s, c.org);
    }
  }

  lemma ItemCallRefused(s: State, c: ItemStep)
    ensures OtherReason(ItemCall(s, c).1) ==> Cause(s, OnItem(c), ItemCall(s, c).1.value)
  {
  }

  lemma ScimUserCallRefused(s: State, c: ScimUserStep)
    requires OneMembership(s)
    ensures OtherReason(ScimUserCall(s, c).1) ==> Cause(s, OnScimUser(c), ScimUserCall(s, c).1.value)
  {
    if c.CreateScimUserStep? && c.invitee.Some? {
      FoundIsMember(s, c.org, c.invitee.value);
    }
  }

  /** Every other refusal names what stands in the way of the call. */
  lemma RefusalNamesItsCause(s: State, step: Step)
    requires Valid(s) && OtherReason(Call(s, step).1)
    ensures Cause(s, step, Call(s, step).1.value)
  {
    match step
    case OnOrg(c) => OrgCallRefused(s, c);
    case OnMember(c) => MemberCallRefused(s, c);
    case OnScimUser(c) => ScimUserCallRefused(s, c);
    case OnTeam(c) => TeamCallRefused(s, c);
    case OnGroup(c) =>
    case OnCollection(c) => CollectionCallRefused(s, c);
    case OnItem(c) => ItemCallRefused(s, c);
  }
}

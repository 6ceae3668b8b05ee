/** What single calls on the organization graph do to everything else: removing a member, deleting a
    collection, granting and revoking access. */
module OrgConsequences {
  import opened Wrappers
  import opened Members
  import opened OrgTables
  import opened OrgInvariant
  import opened OrgMembership
  import opened OrgSharing
  import opened ScimGroups
  import opened OrgRuns
  import CA = CollectionAccess

  // ---- removing a member ----

  predicate NamesNowhere(s: State, id: Id) {
    && id !in s.orgUsers
    && (forall i :: i in s.teamUsers ==> s.teamUsers[i].orgUser != id)
    && (forall i :: i in s.userGrants ==> s.userGrants[i].orgUser != id)
  }

  /** A removed member leaves no row behind, and takes no one else's row along. */
  lemma RemoveMemberLeavesNoRows(s: State, org: Id, id: Id, user: Id)
    requires RemoveMember(s, org, id, user).1.None?
    ensures var t := RemoveMember(s, org, id, user).0;
            && NamesNowhere(t, id)
            && t == s.(orgUsers := t.orgUsers, teamUsers := t.teamUsers, userGrants := t.userGrants)
            && (forall i :: i in s.orgUsers && i != id ==> i in t.orgUsers && t.orgUsers[i] == s.orgUsers[i])
            && (forall i :: i in s.teamUsers && s.teamUsers[i].orgUser != id ==> i in t.teamUsers && t.teamUsers[i] == s.teamUsers[i])
            && (forall i :: i in s.userGrants && s.userGrants[i].orgUser != id ==> i in t.userGrants && t.userGrants[i] == s.userGrants[i])
  {
  }

  /** Later memberships get later ids. */
  predicate NewIdsOnly(s: State, t: State) {
    t.next >= s.next && forall i :: i in t.orgUsers ==> i in s.orgUsers || i >= s.next
  }

  lemma NewOrgAddsNewIds(s: State, user: Id, key: string)
    ensures NewIdsOnly(s, NewOrg(s, user, key))
  {
  }

  lemma CreateOrgAddsNewIds(s: State, user: Id, key: string, known: bool, planFound: bool)
    ensures NewIdsOnly(s, CreateOrg(s, user, key, known, planFound).0)
  {
    NewOrgAddsNewIds(s, user, key);
  }

  lemma JoinAddsNewIds(s: State, m: OrgUser)
    ensures NewIdsOnly(s, EnsureInDefaultTeam(AddOrgUser(s, m), m.org, s.next))
  {
  }

  lemma InviteAddsNewIds(s: State, org: Id, user: Id, role: Role, all: bool, key: string, invitee: Option<Id>,
                         limit: Option<nat>, enforcing: set<Id>, invited: bool)
    ensures NewIdsOnly(s, InviteUser(s, org, user, role, all, key, invitee, limit, enforcing, invited).0)
  {
  }

  lemma DeleteOrgAddsNewIds(s: State, org: Id, user: Id)
    ensures NewIdsOnly(s, DeleteOrg(s, org, user).0)
  {
  }

  lemma RoleAddsNewIds(s: State, org: Id, id: Id, user: Id, role: Role, all: Option<bool>)
    ensures NewIdsOnly(s, UpdateMemberRole(s, org, id, user, role, all).0)
  {
  }

  lemma RemoveAddsNewIds(s: State, org: Id, id: Id, user: Id)
    ensures NewIdsOnly(s, RemoveMember(s, org, id, user).0)
  {
  }

  lemma OrgCallAddsNewIds(s: State, step: OrgStep)
    ensures NewIdsOnly(s, OrgCall(s, step).0)
  {
    match step
    case CreateOrgStep(user, key, known, planFound) => CreateOrgAddsNewIds(s, user, key, known, planFound);
    case DeleteOrgStep(org, user) => DeleteOrgAddsNewIds(s, org, user);
    case InviteStep(org, user, role, all, key, invitee, limit, enforcing, invited) =>
      InviteAddsNewIds(s, org, user, role, all, key, invitee, limit, enforcing, invited);
    case RoleStep(org, id, user, role, all) => RoleAddsNewIds(s, org, id, user, role, all);
    case RemoveStep(org, id, user) => RemoveAddsNewIds(s, org, id, user);
  }

  lemma ChangeAddsNewIds(s: State, id: Id, m: OrgUser)
    requires id in s.orgUsers
    ensures var t := s.(orgUsers := s.orgUsers[id := m]); NewIdsOnly(s, t) && NewIdsOnly(s, EnsureInDefaultTeam(t, m.org, id))
  {
  }

  lemma AcceptAddsNewIds(s: State, id: Id, user: Id, key: string, enforcing: set<Id>)
    ensures NewIdsOnly(s, AcceptInvitation(s, id, user, key, enforcing).0)
  {
    if id in s.orgUsers {
      ChangeAddsNewIds(s, id, s.orgUsers[id].(key := key, status := Accepted));
    }
  }

  lemma ConfirmAddsNewIds(s: State, org: Id, id: Id, user: Id, key: string)
    ensures NewIdsOnly(s, ConfirmProvisionedMember(s, org, id, user, key).0)
  {
    if id in s.orgUsers {
      ChangeAddsNewIds(s, id, s.orgUsers[id].(key := key, status := Confirmed));
    }
  }

  lemma AddExistingAddsNewIds(s: State, row: OrgUser)
    ensures NewIdsOnly(s, AddExistingMember(s, row).0)
  {
    JoinAddsNewIds(s, row);
  }

  lemma MemberCallAddsNewIds(s: State, step: MemberStep)
    ensures NewIdsOnly(s, MemberCall(s, step).0)
  {
    match step
    case AcceptStep(id, user, key, enforcing) => AcceptAddsNewIds(s, id, user, key, enforcing);
    case ConfirmStep(org, id, user, key) => ConfirmAddsNewIds(s, org, id, user, key);
    case AddExistingStep(row) => AddExistingAddsNewIds(s, row);
    case DeclineStep(_, _) =>
  }

  lemma ScimUserCallAddsNewIds(s: State, step: ScimUserStep)
    ensures NewIdsOnly(s, ScimUserCall(s, step).0)
  {
  }

  lemma TeamCallAddsNewIds(s: State, step: TeamStep)
    ensures NewIdsOnly(s, TeamCall(s, step).0)
  {
  }

  lemma GroupCallAddsNewIds(s: State, step: GroupStep)
    ensures NewIdsOnly(s, GroupCall(s, step).0)
  {
  }

  lemma CollectionCallAddsNewIds(s: State, step: CollectionStep)
    ensures NewIdsOnly(s, CollectionCall(s, step).0)
  {
  }

  lemma ItemCallAddsNewIds(s: State, step: ItemStep)
    ensures NewIdsOnly(s, ItemCall(s, step).0)
  {
  }

  lemma CallAddsNewIds(s: State, step: Step)
    ensures NewIdsOnly(s, Call(s, step).0)
  {
    match step
    case OnOrg(o) => OrgCallAddsNewIds(s, o);
    case OnMember(m) => MemberCallAddsNewIds(s, m);
    case OnScimUser(u) => ScimUserCallAddsNewIds(s, u);
    case OnTeam(t) => TeamCallAddsNewIds(s, t);
    case OnGroup(g) => GroupCallAddsNewIds(s, g);
    case OnCollection(c) => CollectionCallAddsNewIds(s, c);
    case OnItem(i) => ItemCallAddsNewIds(s, i);
  }

  predicate Absent(s: State, id: Id) {
    id < s.next && id !in s.orgUsers
  }

  lemma AbsentNext(states: seq<State>, steps: seq<Step>, k: nat, id: Id)
    requires IsRun(states, steps) && k < |steps| && Absent(states[k], id)
    ensures Absent(states[k + 1], id)
  {
    CallAddsNewIds(states[k], steps[k]);
  }

  lemma {:induction false} AbsentLater(states: seq<State>, steps: seq<Step>, j: nat, k: nat, id: Id)
    requires IsRun(states, steps) && j <= k < |states| && Absent(states[j], id)
    ensures Absent(states[k], id)
    decreases k
  {
    if j < k {
      AbsentLater(states, steps, j, k - 1, id);
      AbsentNext(states, steps, k - 1, id);
    }
  }

  /** And no later state of the run has a row that names the removed membership. */
  lemma RemovalIsPermanent(states: seq<State>, steps: seq<Step>, j: nat, k: nat, id: Id)
    requires IsRun(states, steps) && Valid(states[0]) && j <= k < |states| && Absent(states[j], id)
    ensures NamesNowhere(states[k], id)
  {
    RunKeepsValid(states, steps, k);
    AbsentLater(states, steps, j, k, id);
  }

  // ---- deleting a collection ----

  /** The live items stay the same set; those of the deleted collection move to the default one of their
      organization, the others do not change, and no item changes otherwise. */
  lemma DeleteCollectionConserves(s: State, id: Id, user: Id)
    requires Valid(s) && DeleteCollection(s, id, user).1.None?
    ensures var t, home := DeleteCollection(s, id, user).0, FindDefaultCollection(s, s.collections[id].org);
            && !LiveCollection(t, id) && home.Some? && home.value != id && LiveCollection(t, home.value)
            && (forall i :: LiveItem(t, i) <==> LiveItem(s, i))
            && (forall i :: LiveItem(s, i) && s.items[i].collection == Some(id) ==> t.items[i] == s.items[i].(collection := home))
            && (forall i :: i in s.items && !(LiveItem(s, i) && s.items[i].collection == Some(id)) ==>
                  i in t.items && t.items[i] == s.items[i])
  {
  }

  // ---- granting and revoking ----

  predicate HasUserRow(s: State, collection: Id, id: Id) {
    exists i :: i in s.userGrants && s.userGrants[i].collection == collection && s.userGrants[i].orgUser == id
  }

  predicate HasTeamRow(s: State, collection: Id, team: Id) {
    exists i :: i in s.teamGrants && s.teamGrants[i].collection == collection && s.teamGrants[i].team == team
  }

  /** What a grant stores: an overwritten row takes the rights as they are, a first one always reads. */
  function Stored(hasRow: bool, access: Access): Access {
    if hasRow then access else Inserted(access)
  }

  /** After a grant a member without special status has the stored rights and those of the teams, no
      matter what the member was granted before; nobody else's access changes, nor on any other collection. */
  lemma GrantUserSetsAccess(s: State, collection: Id, id: Id, user: Id, access: Access, c: Id, other: Id)
    requires Valid(s) && GrantUserAccess(s, collection, id, user, access).1.None? && other in s.orgUsers
    ensures var t, stored := GrantUserAccess(s, collection, id, user, access).0, Stored(HasUserRow(s, collection, id), access);
            && t.orgUsers == s.orgUsers
            && (c != collection || other != id ==> CA.AccessOf(t, c, other) == CA.AccessOf(s, c, other))
            && (forall r :: CA.Granted(t, collection, id, r) <==> CA.Has(stored, r) || CA.ViaTeam(s, collection, id, r))
  {
    var t, stored := GrantUserAccess(s, collection, id, user, access).0, Stored(HasUserRow(s, collection, id), access);
    SetUserGrantRows(s, collection, id, access);
    if c != collection || other != id {
      CA.UserGrantFrame(s, t, collection, id, c, other);
    }
    forall r
      ensures CA.Granted(t, collection, id, r) <==> CA.Has(stored, r) || CA.ViaTeam(s, collection, id, r)
    {
      SameTeams(s, t, collection, id, r);
    }
  }

  /** The row then grants what was asked for exactly when that includes reading or there was a row before. */
  lemma GrantedAsAskedIff(s: State, collection: Id, id: Id, access: Access)
    requires Below(s.userGrants, s.next) && UniqueUserGrants(s.userGrants)
    ensures (forall r :: CA.Direct(SetUserGrant(s, collection, id, access), collection, id, r) <==> CA.Has(access, r)) <==>
            access.read || HasUserRow(s, collection, id)
  {
    SetUserGrantRows(s, collection, id, access);
    assert CA.Has(access, CA.Right.Read) <==> access.read;
    assert CA.Has(Inserted(access), CA.Right.Read);
    if access.read {
      assert Inserted(access) == access;
    }
  }

  /** One row of a pair is written, and the pair has no other row. */
  lemma WrittenUserGrant(s: State, t: State, i: Id, g: CollectionUser)
    requires t == s.(userGrants := s.userGrants[i := g], next := t.next)
    requires forall k :: k in s.userGrants && k != i ==> !(s.userGrants[k].collection == g.collection && s.userGrants[k].orgUser == g.orgUser)
    requires i in s.userGrants ==> s.userGrants[i].collection == g.collection && s.userGrants[i].orgUser == g.orgUser
    ensures CA.SameButUserGrant(s, t, g.collection, g.orgUser)
    ensures forall r :: CA.Direct(t, g.collection, g.orgUser, r) <==> CA.Has(g.access, r)
  {
    assert t.userGrants[i] == g;
    assert forall k :: k in s.userGrants && k != i ==> t.userGrants[k] == s.userGrants[k];
  }

  lemma SetUserGrantRows(s: State, collection: Id, id: Id, access: Access)
    requires Below(s.userGrants, s.next) && UniqueUserGrants(s.userGrants)
    ensures var t := SetUserGrant(s, collection, id, access);
            && CA.SameButUserGrant(s, t, collection, id)
            && (forall r :: CA.Direct(t, collection, id, r) <==> CA.Has(Stored(HasUserRow(s, collection, id), access), r))
  {
    UserGrantFound(s, collection, id);
    var t, found := SetUserGrant(s, collection, id, access), FindUserGrant(s, collection, id);
    assert found.Some? <==> HasUserRow(s, collection, id);
    WrittenUserGrant(s, t, if found.Some? then found.value else s.next,
                     CollectionUser(collection, id, Stored(found.Some?, access)));
  }

  lemma SameTeams(s: State, t: State, collection: Id, id: Id, r: CA.Right)
    requires t.teamUsers == s.teamUsers && t.teamGrants == s.teamGrants
    ensures CA.ViaTeam(t, collection, id, r) <==> CA.ViaTeam(s, collection, id, r)
  {
    if CA.ViaTeam(s, collection, id, r) {
      var i :| i in s.teamGrants && CA.GrantsTeam(s.teamGrants[i], collection, r) && CA.InTeam(s, s.teamGrants[i].team, id);
      CA.SameInTeam(s, t, s.teamGrants[i].team, id);
    }
    if CA.ViaTeam(t, collection, id, r) {
      var i :| i in t.teamGrants && CA.GrantsTeam(t.teamGrants[i], collection, r) && CA.InTeam(t, t.teamGrants[i].team, id);
      CA.SameInTeam(t, s, t.teamGrants[i].team, id);
    }
  }

  /** After a revocation only the teams' rights are left, and nobody else's access changes. */
  lemma RevokeUserLeavesTeams(s: State, collection: Id, id: Id, user: Id, c: Id, other: Id)
    requires RevokeUserAccess(s, collection, id, user).1.None? && other in s.orgUsers
    ensures var t := RevokeUserAccess(s, collection, id, user).0;
            && t.orgUsers == s.orgUsers
            && (c != collection || other != id ==> CA.AccessOf(t, c, other) == CA.AccessOf(s, c, other))
            && (forall r :: CA.Granted(t, collection, id, r) <==> CA.ViaTeam(s, collection, id, r))
  {
    var t := RevokeUserAccess(s, collection, id, user).0;
    if c != collection || other != id {
      CA.UserGrantFrame(s, t, collection, id, c, other);
    }
    forall r
      ensures CA.Granted(t, collection, id, r) <==> CA.ViaTeam(s, collection, id, r)
    {
      SameTeams(s, t, collection, id, r);
    }
  }

  /** One row of a pair is written, and the pair has no other row. */
  lemma WrittenTeamGrant(s: State, t: State, i: Id, g: CollectionTeam)
    requires t == s.(teamGrants := s.teamGrants[i := g], next := t.next)
    requires forall k :: k in s.teamGrants && k != i ==> !(s.teamGrants[k].collection == g.collection && s.teamGrants[k].team == g.team)
    requires i in s.teamGrants ==> s.teamGrants[i].collection == g.collection && s.teamGrants[i].team == g.team
    ensures CA.SameButTeamGrant(s, t, g.collection, g.team)
    ensures forall r :: OwnGrant(t, g.collection, g.team, r) <==> CA.Has(g.access, r)
  {
    assert t.teamGrants[i] == g;
    assert forall k :: k in s.teamGrants && k != i ==> t.teamGrants[k] == s.teamGrants[k];
  }

  lemma SetTeamGrantRows(s: State, collection: Id, team: Id, access: Access)
    requires Below(s.teamGrants, s.next) && UniqueTeamGrants(s.teamGrants)
    ensures var t := SetTeamGrant(s, collection, team, access);
            && CA.SameButTeamGrant(s, t, collection, team)
            && (forall r :: OwnGrant(t, collection, team, r) <==> CA.Has(Stored(HasTeamRow(s, collection, team), access), r))
  {
    TeamGrantFound(s, collection, team);
    var t, found := SetTeamGrant(s, collection, team, access), FindTeamGrant(s, collection, team);
    assert found.Some? <==> HasTeamRow(s, collection, team);
    WrittenTeamGrant(s, t, if found.Some? then found.value else s.next,
                     CollectionTeam(collection, team, Stored(found.Some?, access)));
  }

  /** What a team's own row on a collection grants. */
  predicate OwnGrant(s: State, collection: Id, team: Id, r: CA.Right) {
    exists i :: i in s.teamGrants && s.teamGrants[i].team == team && CA.GrantsTeam(s.teamGrants[i], collection, r)
  }

  /** What a member is granted on a collection besides the row of one team. */
  predicate GrantedBesides(s: State, collection: Id, id: Id, team: Id, r: CA.Right) {
    || CA.Direct(s, collection, id, r)
    || exists i :: i in s.teamGrants && s.teamGrants[i].team != team && CA.GrantsTeam(s.teamGrants[i], collection, r)
                   && CA.InTeam(s, s.teamGrants[i].team, id)
  }

  lemma SplitByTeam(s: State, collection: Id, id: Id, team: Id, r: CA.Right)
    requires CA.InTeam(s, team, id)
    ensures CA.Granted(s, collection, id, r) <==> GrantedBesides(s, collection, id, team, r) || OwnGrant(s, collection, team, r)
  {
    if OwnGrant(s, collection, team, r) {
      var i :| i in s.teamGrants && s.teamGrants[i].team == team && CA.GrantsTeam(s.teamGrants[i], collection, r);
      assert CA.InTeam(s, s.teamGrants[i].team, id);
    }
  }

  lemma BesidesSame(s: State, t: State, collection: Id, id: Id, team: Id, r: CA.Right)
    requires CA.SameButTeamGrant(s, t, collection, team)
    ensures GrantedBesides(s, collection, id, team, r) ==> GrantedBesides(t, collection, id, team, r)
  {
    if CA.Direct(s, collection, id, r) {
      var i :| i in s.userGrants && CA.GrantsDirectly(s.userGrants[i], collection, id, r);
      assert CA.GrantsDirectly(t.userGrants[i], collection, id, r);
    } else if GrantedBesides(s, collection, id, team, r) {
      var i :| i in s.teamGrants && s.teamGrants[i].team != team && CA.GrantsTeam(s.teamGrants[i], collection, r)
               && CA.InTeam(s, s.teamGrants[i].team, id);
      CA.SameInTeam(s, t, s.teamGrants[i].team, id);
      assert CA.GrantsTeam(t.teamGrants[i], collection, r);
    }
  }

  /** A change of one team's row gives its members on that collection exactly what they have besides it
      and what the row grants now; all other access stays. */
  lemma TeamGrantChange(s: State, t: State, collection: Id, team: Id, c: Id, id: Id)
    requires CA.SameButTeamGrant(s, t, collection, team) && id in s.orgUsers
    ensures c != collection || !CA.InTeam(s, team, id) ==> CA.AccessOf(t, c, id) == CA.AccessOf(s, c, id)
    ensures CA.InTeam(s, team, id) ==>
              forall r :: CA.Granted(t, collection, id, r) <==>
                          GrantedBesides(s, collection, id, team, r) || OwnGrant(t, collection, team, r)
  {
    if c != collection || !CA.InTeam(s, team, id) {
      CA.TeamGrantFrame(s, t, collection, team, c, id);
    }
    if CA.InTeam(s, team, id) {
      CA.SameInTeam(s, t, team, id);
      forall r
        ensures CA.Granted(t, collection, id, r) <==>
                GrantedBesides(s, collection, id, team, r) || OwnGrant(t, collection, team, r)
      {
        SplitByTeam(t, collection, id, team, r);
        BesidesSame(s, t, collection, id, team, r);
        BesidesSame(t, s, collection, id, team, r);
      }
    }
  }

  /** After a grant to a team its members have exactly the stored rights and those they have besides the
      team's row, whatever that row granted before; nobody else's access changes, nor on any other
      collection. */
  lemma GrantTeamSetsAccess(s: State, collection: Id, team: Id, user: Id, access: Access, c: Id, id: Id)
    requires Valid(s) && GrantTeamAccess(s, collection, team, user, access).1.None? && id in s.orgUsers
    ensures var t := GrantTeamAccess(s, collection, team, user, access).0;
            && t.orgUsers == s.orgUsers
            && (c != collection || !CA.InTeam(s, team, id) ==> CA.AccessOf(t, c, id) == CA.AccessOf(s, c, id))
            && (CA.InTeam(s, team, id) ==>
                  forall r :: CA.Granted(t, collection, id, r) <==>
                              || GrantedBesides(s, collection, id, team, r)
                              || CA.Has(Stored(HasTeamRow(s, collection, team), access), r))
  {
    var t := GrantTeamAccess(s, collection, team, user, access).0;
    SetTeamGrantRows(s, collection, team, access);
    TeamGrantChange(s, t, collection, team, c, id);
  }

  /** After a revocation they have exactly what they have besides the team's row. */
  lemma RevokeTeamLeavesRest(s: State, collection: Id, team: Id, user: Id, c: Id, id: Id)
    requires RevokeTeamAccess(s, collection, team, user).1.None? && id in s.orgUsers
    ensures var t := RevokeTeamAccess(s, collection, team, user).0;
            && t.orgUsers == s.orgUsers
            && (c != collection || !CA.InTeam(s, team, id) ==> CA.AccessOf(t, c, id) == CA.AccessOf(s, c, id))
            && (CA.InTeam(s, team, id) ==>
                  forall r :: CA.Granted(t, collection, id, r) <==> GrantedBesides(s, collection, id, team, r))
            && (forall i :: i in t.teamGrants ==> !(t.teamGrants[i].collection == collection && t.teamGrants[i].team == team))
  {
    TeamGrantChange(s, RevokeTeamAccess(s, collection, team, user).0, collection, team, c, id);
  }
}

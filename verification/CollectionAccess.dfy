/** A member's rights on a collection: the join of the direct grant and the grants to the member's teams. */
module CollectionAccess {
  import opened Wrappers
  import opened OrgTables
  import opened OrgInvariant

  datatype Right = Read | Write | Admin | Hide

  predicate Has(a: Access, r: Right) {
    match r
    case Read => a.read
    case Write => a.write
    case Admin => a.admin
    case Hide => a.hide
  }

  predicate GrantsDirectly(g: CollectionUser, collection: Id, orgUser: Id, r: Right) {
    g.collection == collection && g.orgUser == orgUser && Has(g.access, r)
  }

  predicate GrantsTeam(g: CollectionTeam, collection: Id, r: Right) {
    g.collection == collection && Has(g.access, r)
  }

  predicate Direct(s: State, collection: Id, orgUser: Id, r: Right) {
    exists i :: i in s.userGrants && GrantsDirectly(s.userGrants[i], collection, orgUser, r)
  }

  predicate InTeam(s: State, team: Id, orgUser: Id) {
    exists i :: i in s.teamUsers && s.teamUsers[i].team == team && s.teamUsers[i].orgUser == orgUser
  }

  predicate ViaTeam(s: State, collection: Id, orgUser: Id, r: Right) {
    exists i :: i in s.teamGrants && GrantsTeam(s.teamGrants[i], collection, r) && InTeam(s, s.teamGrants[i].team, orgUser)
  }

  /** The union of all grants that reach a member, whatever their order. */
  predicate Granted(s: State, collection: Id, orgUser: Id, r: Right) {
    Direct(s, collection, orgUser, r) || ViaTeam(s, collection, orgUser, r)
  }

  const FULL := Access(true, true, true, false)

  /** The rights ComputeCollectionAccess reports for a member. */
  function AccessOf(s: State, collection: Id, id: Id): Access
    requires id in s.orgUsers
  {
    if s.orgUsers[id].Unrestricted() then FULL
    else Access(Granted(s, collection, id, Read), Granted(s, collection, id, Write),
                Granted(s, collection, id, Right.Admin), Granted(s, collection, id, Hide))
  }

  function Join(a: Access, b: Access): Access {
    Access(a.read || b.read, a.write || b.write, a.admin || b.admin, a.hide || b.hide)
  }

  // ---- the computation ----

  /** The rows of a query, in the order the database chooses to return them. */
  predicate Lists<T(==)>(rows: seq<T>, table: map<Id, T>, p: T -> bool) {
    && (forall k :: 0 <= k < |rows| ==> exists i :: i in table && table[i] == rows[k] && p(rows[k]))
    && (forall i :: i in table && p(table[i]) ==> table[i] in rows)
  }

  /** The grants to one collection that name one of the given teams. */
  predicate SomeGrant(rows: seq<CollectionTeam>, teams: set<Id>, n: nat, r: Right)
    requires n <= |rows|
  {
    exists k :: 0 <= k < n && rows[k].team in teams && Has(rows[k].access, r)
  }

  method TeamIds(teamRows: seq<TeamUser>) returns (teams: set<Id>)
    ensures teams == set k | 0 <= k < |teamRows| :: teamRows[k].team
  {
    teams := {};
    for i := 0 to |teamRows|
      invariant teams == set k | 0 <= k < i :: teamRows[k].team
    {
      teams := teams + {teamRows[i].team};
    }
  }

  method JoinTeamGrants(own: Access, grantRows: seq<CollectionTeam>, teams: set<Id>) returns (result: Access)
    ensures forall r :: Has(result, r) <==> Has(own, r) || SomeGrant(grantRows, teams, |grantRows|, r)
  {
    result := own;
    for i := 0 to |grantRows|
      invariant forall r :: Has(result, r) <==> Has(own, r) || SomeGrant(grantRows, teams, i, r)
    {
      JoinHas(result, grantRows[i].access);
      if grantRows[i].team !in teams {
        continue;
      }
      result := Join(result, grantRows[i].access);
    }
  }

  method ComputeCollectionAccess(s: State, id: Id, collection: Id, teamRows: seq<TeamUser>, grantRows: seq<CollectionTeam>)
    returns (result: Access)
    requires Below(s.userGrants, s.next) && UniqueUserGrants(s.userGrants) && id in s.orgUsers
    requires Lists(teamRows, s.teamUsers, (r: TeamUser) => r.orgUser == id)
    requires Lists(grantRows, s.teamGrants, (g: CollectionTeam) => g.collection == collection)
    ensures result == AccessOf(s, collection, id)
  {
    if s.orgUsers[id].IsAdmin() || s.orgUsers[id].accessAll {
      return FULL;
    }
    result := Access(false, false, false, false);
    var direct := FindUserGrant(s, collection, id);
    DirectIsFound(s, collection, id);
    if direct.Some? {
      result := Join(result, s.userGrants[direct.value].access);
    }
    assert forall r :: Has(result, r) <==> Direct(s, collection, id, r);
    if |teamRows| == 0 {
      NoTeams(s, collection, id, teamRows);
    } else {
      var teams := TeamIds(teamRows);
      result := JoinTeamGrants(result, grantRows, teams);
      TeamRowsCover(s, collection, id, teamRows, grantRows, teams);
    }
    RightsAreAccess(s, collection, id, result);
  }

  lemma RightsAreAccess(s: State, collection: Id, id: Id, a: Access)
    requires id in s.orgUsers && !s.orgUsers[id].Unrestricted()
    requires forall r :: Has(a, r) <==> Direct(s, collection, id, r) || ViaTeam(s, collection, id, r)
    ensures a == AccessOf(s, collection, id)
  {
    assert forall r :: Has(a, r) <==> Granted(s, collection, id, r);
    SameRights(a, AccessOf(s, collection, id));
  }

  lemma JoinHas(a: Access, b: Access)
    ensures forall r :: Has(Join(a, b), r) <==> Has(a, r) || Has(b, r)
  {
  }

  lemma SameRights(a: Access, b: Access)
    requires forall r :: Has(a, r) <==> Has(b, r)
    ensures a == b
  {
    assert Has(a, Read) <==> Has(b, Read);
    assert Has(a, Write) <==> Has(b, Write);
    assert Has(a, Right.Admin) <==> Has(b, Right.Admin);
    assert Has(a, Hide) <==> Has(b, Hide);
  }

  /** With at most one row per pair, the row found is the direct grant. */
  lemma DirectIsFound(s: State, collection: Id, id: Id)
    requires Below(s.userGrants, s.next) && UniqueUserGrants(s.userGrants)
    ensures var found := FindUserGrant(s, collection, id);
            && (found.Some? ==> found.value in s.userGrants)
            && forall r :: Direct(s, collection, id, r) <==> found.Some? && Has(s.userGrants[found.value].access, r)
  {
    UserGrantFound(s, collection, id);
  }

  lemma NoTeams(s: State, collection: Id, id: Id, teamRows: seq<TeamUser>)
    requires teamRows == [] && Lists(teamRows, s.teamUsers, (r: TeamUser) => r.orgUser == id)
    ensures forall r :: !ViaTeam(s, collection, id, r)
  {
  }

  lemma ListedTeams(s: State, id: Id, teamRows: seq<TeamUser>, teams: set<Id>, t: Id)
    requires Lists(teamRows, s.teamUsers, (r: TeamUser) => r.orgUser == id)
    requires teams == set k | 0 <= k < |teamRows| :: teamRows[k].team
    ensures t in teams <==> InTeam(s, t, id)
  {
    if t in teams {
      var k :| 0 <= k < |teamRows| && teamRows[k].team == t;
      var i :| i in s.teamUsers && s.teamUsers[i] == teamRows[k] && teamRows[k].orgUser == id;
    }
    if InTeam(s, t, id) {
      var i :| i in s.teamUsers && s.teamUsers[i].team == t && s.teamUsers[i].orgUser == id;
      var k :| 0 <= k < |teamRows| && teamRows[k] == s.teamUsers[i];
      assert teamRows[k].team in teams;
    }
  }

  lemma TeamRowsCover(s: State, collection: Id, id: Id, teamRows: seq<TeamUser>, grantRows: seq<CollectionTeam>, teams: set<Id>)
    requires Lists(teamRows, s.teamUsers, (r: TeamUser) => r.orgUser == id)
    requires Lists(grantRows, s.teamGrants, (g: CollectionTeam) => g.collection == collection)
    requires teams == set k | 0 <= k < |teamRows| :: teamRows[k].team
    ensures forall r :: SomeGrant(grantRows, teams, |grantRows|, r) <==> ViaTeam(s, collection, id, r)
  {
    forall r
      ensures SomeGrant(grantRows, teams, |grantRows|, r) <==> ViaTeam(s, collection, id, r)
    {
      if SomeGrant(grantRows, teams, |grantRows|, r) {
        var k :| 0 <= k < |grantRows| && grantRows[k].team in teams && Has(grantRows[k].access, r);
        var i :| i in s.teamGrants && s.teamGrants[i] == grantRows[k] && grantRows[k].collection == collection;
        ListedTeams(s, id, teamRows, teams, s.teamGrants[i].team);
      }
      if ViaTeam(s, collection, id, r) {
        var i :| i in s.teamGrants && GrantsTeam(s.teamGrants[i], collection, r) && InTeam(s, s.teamGrants[i].team, id);
        ListedTeams(s, id, teamRows, teams, s.teamGrants[i].team);
        var k :| 0 <= k < |grantRows| && grantRows[k] == s.teamGrants[i];
      }
    }
  }

  // ---- monotonicity and frames ----

  /** More grants and team memberships never take a right away. */
  lemma GrantedIsMonotone(s: State, t: State, collection: Id, id: Id, r: Right)
    requires forall i :: i in s.userGrants ==> i in t.userGrants && t.userGrants[i] == s.userGrants[i]
    requires forall i :: i in s.teamGrants ==> i in t.teamGrants && t.teamGrants[i] == s.teamGrants[i]
    requires forall i :: i in s.teamUsers ==> i in t.teamUsers && t.teamUsers[i] == s.teamUsers[i]
    requires Granted(s, collection, id, r)
    ensures Granted(t, collection, id, r)
  {
    if Direct(s, collection, id, r) {
      var i :| i in s.userGrants && GrantsDirectly(s.userGrants[i], collection, id, r);
      assert GrantsDirectly(t.userGrants[i], collection, id, r);
    } else {
      var i :| i in s.teamGrants && GrantsTeam(s.teamGrants[i], collection, r) && InTeam(s, s.teamGrants[i].team, id);
      var k :| k in s.teamUsers && s.teamUsers[k].team == s.teamGrants[i].team && s.teamUsers[k].orgUser == id;
      assert GrantsTeam(t.teamGrants[i], collection, r) && t.teamUsers[k].orgUser == id;
    }
  }

  /** The two states differ at most in the direct grants of one pair. */
  predicate SameButUserGrant(s: State, t: State, collection: Id, orgUser: Id) {
    && t.orgUsers == s.orgUsers && t.teamUsers == s.teamUsers && t.teamGrants == s.teamGrants
    && (forall i :: i in s.userGrants && !(s.userGrants[i].collection == collection && s.userGrants[i].orgUser == orgUser) ==>
          i in t.userGrants && t.userGrants[i] == s.userGrants[i])
    && (forall i :: i in t.userGrants && !(t.userGrants[i].collection == collection && t.userGrants[i].orgUser == orgUser) ==>
          i in s.userGrants && s.userGrants[i] == t.userGrants[i])
  }

  predicate SameButTeamGrant(s: State, t: State, collection: Id, team: Id) {
    && t.orgUsers == s.orgUsers && t.teamUsers == s.teamUsers && t.userGrants == s.userGrants
    && (forall i :: i in s.teamGrants && !(s.teamGrants[i].collection == collection && s.teamGrants[i].team == team) ==>
          i in t.teamGrants && t.teamGrants[i] == s.teamGrants[i])
    && (forall i :: i in t.teamGrants && !(t.teamGrants[i].collection == collection && t.teamGrants[i].team == team) ==>
          i in s.teamGrants && s.teamGrants[i] == t.teamGrants[i])
  }

  /** Then everyone else, and this member on every other collection, has the same access. */
  lemma UserGrantFrame(s: State, t: State, collection: Id, orgUser: Id, c: Id, id: Id)
    requires SameButUserGrant(s, t, collection, orgUser) && id in s.orgUsers && (c != collection || id != orgUser)
    ensures AccessOf(t, c, id) == AccessOf(s, c, id)
  {
    forall r
      ensures Granted(t, c, id, r) <==> Granted(s, c, id, r)
    {
      UserGrantFrameRight(s, t, collection, orgUser, c, id, r);
      UserGrantFrameRight(t, s, collection, orgUser, c, id, r);
    }
  }

  lemma UserGrantFrameRight(s: State, t: State, collection: Id, orgUser: Id, c: Id, id: Id, r: Right)
    requires SameButUserGrant(s, t, collection, orgUser) && (c != collection || id != orgUser)
    ensures Granted(s, c, id, r) ==> Granted(t, c, id, r)
  {
    if Direct(s, c, id, r) {
      var i :| i in s.userGrants && GrantsDirectly(s.userGrants[i], c, id, r);
      assert GrantsDirectly(t.userGrants[i], c, id, r);
    }
    if ViaTeam(s, c, id, r) {
      var i :| i in s.teamGrants && GrantsTeam(s.teamGrants[i], c, r) && InTeam(s, s.teamGrants[i].team, id);
      assert InTeam(t, t.teamGrants[i].team, id);
    }
  }

  /** A team grant reaches only the team's members, and only on its collection. */
  lemma TeamGrantFrame(s: State, t: State, collection: Id, team: Id, c: Id, id: Id)
    requires SameButTeamGrant(s, t, collection, team) && id in s.orgUsers && (c != collection || !InTeam(s, team, id))
    ensures AccessOf(t, c, id) == AccessOf(s, c, id)
  {
    forall r
      ensures Granted(t, c, id, r) <==> Granted(s, c, id, r)
    {
      TeamGrantFrameRight(s, t, collection, team, c, id, r);
      TeamGrantFrameRight(t, s, collection, team, c, id, r);
    }
  }

  lemma SameInTeam(s: State, t: State, team: Id, id: Id)
    requires s.teamUsers == t.teamUsers
    ensures InTeam(s, team, id) <==> InTeam(t, team, id)
  {
  }

  lemma TeamGrantFrameRight(s: State, t: State, collection: Id, team: Id, c: Id, id: Id, r: Right)
    requires SameButTeamGrant(s, t, collection, team) && (c != collection || !InTeam(s, team, id))
    ensures Granted(s, c, id, r) ==> Granted(t, c, id, r)
  {
    if Direct(s, c, id, r) {
      var i :| i in s.userGrants && GrantsDirectly(s.userGrants[i], c, id, r);
      assert GrantsDirectly(t.userGrants[i], c, id, r);
    }
    if ViaTeam(s, c, id, r) {
      var i :| i in s.teamGrants && GrantsTeam(s.teamGrants[i], c, r) && InTeam(s, s.teamGrants[i].team, id);
      SameInTeam(s, t, s.teamGrants[i].team, id);
      assert i in t.teamGrants && GrantsTeam(t.teamGrants[i], c, r);
    }
  }
}

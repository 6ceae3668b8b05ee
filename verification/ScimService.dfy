/** The SCIM service: it provisions members and keeps the members of groups, and lists both in pages. */
module ScimService {
  import opened Wrappers
  import opened Members
  import opened OrgTables
  import opened OrgInvariant
  import opened ScimGroups
  import opened OrgServices
  import Calls = OrgMembership

  class Service {
    const db: Database

    constructor (db: Database)
      ensures this.db == db
    {
      this.db := db;
    }

    // ---- users ----

    method CreateUser(org: Id, user: Option<Id>) returns (error: Option<Error>)
      modifies db
      ensures (db.tables, error) == Calls.CreateScimUser(old(db.tables), org, user)
    {
      if user.None? {
        return Some(Calls.NotFound);
      }
      if FindOrgUser(db.tables, org, user.value).Some? {
        return Some(Calls.Exists);
      }
      db.tables := AddOrgUser(db.tables, OrgUser(org, user.value, Member, false, Provisioned, "pending_key_exchange"));
      return None;
    }

    method UpdateUser(org: Id, user: Id, active: bool) returns (error: Option<Error>)
      modifies db
      ensures (db.tables, error) == Calls.UpdateScimUser(old(db.tables), org, user, active)
    {
      var found := FindOrgUser(db.tables, org, user);
      if found.None? {
        return Some(Calls.NotFound);
      }
      var m := db.tables.orgUsers[found.value];
      if !active && m.status != Suspended {
        m := m.(status := Suspended);
      } else if active && m.status == Suspended {
        m := m.(status := Confirmed);
      }
      db.tables := db.tables.(orgUsers := db.tables.orgUsers[found.value := m]);
      return None;
    }

    /** Each operation is one replacement of the active flag. */
    method PatchUser(org: Id, user: Id, actives: seq<bool>) returns (error: Option<Error>)
      modifies db
      ensures (db.tables, error) == Calls.PatchScimUser(old(db.tables), org, user, actives)
    {
      var found := FindOrgUser(db.tables, org, user);
      if found.None? {
        return Some(Calls.NotFound);
      }
      ghost var s := db.tables;
      var m := db.tables.orgUsers[found.value];
      for i := 0 to |actives|
        invariant db.tables == s
        invariant m == s.orgUsers[found.value].(status := Calls.PatchedStatus(s.orgUsers[found.value].status, actives[..i]))
      {
        m := m.(status := if actives[i] then Confirmed else Suspended);
      }
      assert actives[..|actives|] == actives;
      db.tables := db.tables.(orgUsers := db.tables.orgUsers[found.value := m]);
      return None;
    }

    method DeleteUser(org: Id, user: Id) returns (error: Option<Error>)
      modifies db
      ensures (db.tables, error) == Calls.DeleteScimUser(old(db.tables), org, user)
    {
      var found := FindOrgUser(db.tables, org, user);
      if found.None? {
        return Some(Calls.NotFound);
      }
      db.tables := DeleteOrgUser(db.tables, found.value);
      return None;
    }

    // ---- groups ----

    method CreateGroup(org: Id, name: string)
      modifies db
      ensures (db.tables, None) == ScimGroups.CreateGroup(old(db.tables), org, name)
    {
      db.tables := AddTeam(db.tables, Team(org, name, false));
    }

    /** The first loop: look up every reference, remember it, and add the missing ones. */
    method AddReferences(team: Id, refs: Refs, current: set<Id>) returns (desired: set<Id>)
      requires team in db.tables.teams && Below(db.tables.orgUsers, db.tables.next)
      modifies db
      ensures db.tables == AddMissing(old(db.tables), team, refs, current, |refs|)
      ensures desired == Resolved(old(db.tables), old(db.tables).teams[team].org, refs, |refs|)
    {
      ghost var s := db.tables;
      var org := db.tables.teams[team].org;
      desired := {};
      for i := 0 to |refs|
        invariant db.tables == AddMissing(s, team, refs, current, i)
        invariant desired == Resolved(s, org, refs, i)
      {
        ResolveStable(s, db.tables, org, refs[i]);
        if refs[i].None? {
          continue;
        }
        var m := FindOrgUser(db.tables, org, refs[i].value);
        if m.None? {
          continue;
        }
        desired := desired + {m.value};
        if m.value !in current {
          db.tables := AddTeamUser(db.tables, TeamUser(team, m.value, false));
        }
      }
    }

    /** The second loop: delete the rows, read before the first loop, of members who are not wanted. */
    method DropOthers(team: Id, before: map<Id, TeamUser>, desired: set<Id>)
      modifies db
      ensures db.tables == DropUnlisted(old(db.tables), team, before, desired)
    {
      ghost var s := db.tables;
      var todo: set<Id> := set i | i in before && before[i].team == team;
      while todo != {}
        invariant forall i :: i in todo ==> i in before && before[i].team == team
        invariant db.tables == s.(teamUsers := KeptSoFar(s.teamUsers, team, before, desired, todo))
        decreases |todo|
      {
        var i :| i in todo;
        KeptNext(s.teamUsers, team, before, desired, todo, i);
        todo := todo - {i};
        if before[i].orgUser !in desired {
          db.tables := db.tables.(teamUsers := db.tables.teamUsers - {i});
        }
      }
    }

    method SyncGroupMembers(team: Id, refs: Refs)
      requires team in db.tables.teams && Below(db.tables.orgUsers, db.tables.next)
      modifies db
      ensures db.tables == Sync(old(db.tables), team, refs)
    {
      var before := db.tables.teamUsers;
      var current := set i | i in before && before[i].team == team :: before[i].orgUser;
      assert current == TeamMembers(db.tables, team);
      var desired := AddReferences(team, refs, current);
      DropOthers(team, before, desired);
    }

    method UpdateGroup(org: Id, team: Id, name: string, refs: Refs) returns (error: Option<Error>)
      requires Below(db.tables.orgUsers, db.tables.next)
      modifies db
      ensures (db.tables, error) == ScimGroups.UpdateGroup(old(db.tables), org, team, name, refs)
    {
      if team !in db.tables.teams || db.tables.teams[team].org != org {
        return Some(Calls.NotFound);
      }
      db.tables := db.tables.(teams := db.tables.teams[team := db.tables.teams[team].(name := name)]);
      SyncGroupMembers(team, refs);
      return None;
    }

    method HandleGroupMemberAdd(team: Id, refs: Refs)
      requires team in db.tables.teams && Below(db.tables.orgUsers, db.tables.next)
      modifies db
      ensures db.tables == AddMissing(old(db.tables), team, refs, {}, |refs|)
    {
      var wanted := AddReferences(team, refs, {});
    }

    method HandleGroupMemberRemove(team: Id, ref: Option<Id>)
      requires team in db.tables.teams
      modifies db
      ensures (db.tables, None) ==
              RemoveFromGroup(old(db.tables), old(db.tables).teams[team].org, team, ref)
    {
      if ref.None? {
        return;
      }
      var m := FindOrgUser(db.tables, db.tables.teams[team].org, ref.value);
      if m.None? {
        return;
      }
      db.tables := DeleteTeamUsers(db.tables, team, m.value);
    }

    method DeleteGroup(org: Id, team: Id) returns (error: Option<Error>)
      modifies db
      ensures (db.tables, error) == ScimGroups.DeleteGroup(old(db.tables), org, team)
    {
      if team !in db.tables.teams || db.tables.teams[team].org != org {
        return Some(Calls.NotFound);
      }
      db.tables := DeleteTeam(db.tables, team);
      return None;
    }
  }

  /** The rows that are left while some of the old ones are still to be looked at. */
  function KeptSoFar(rows: map<Id, TeamUser>, team: Id, before: map<Id, TeamUser>, desired: set<Id>, todo: set<Id>): map<Id, TeamUser> {
    map i | i in rows && !(i in before && before[i].team == team && i !in todo && before[i].orgUser !in desired) :: rows[i]
  }

  lemma KeptNext(rows: map<Id, TeamUser>, team: Id, before: map<Id, TeamUser>, desired: set<Id>, todo: set<Id>, i: Id)
    requires i in todo && i in before && before[i].team == team
    ensures KeptSoFar(rows, team, before, desired, todo - {i}) ==
            if before[i].orgUser !in desired then KeptSoFar(rows, team, before, desired, todo) - {i}
            else KeptSoFar(rows, team, before, desired, todo)
  {
  }

  // ---- paging ----

  /** The page size that counts: 100 for anything outside 1 to 100. */
  function PageSize(count: int): (n: nat)
    ensures 1 <= n <= 100 && (1 <= count <= 100 ==> n == count) && (count < 1 || count > 100 ==> n == 100)
  {
    if count < 1 || count > 100 then 100 else count
  }

  function PageStart(total: nat, startIndex: int): (k: nat)
    ensures k <= total && (1 <= startIndex <= total ==> k == startIndex - 1)
  {
    var start := if startIndex < 1 then 0 else startIndex - 1;
    if start > total then total else start
  }

  function Slice<T>(list: seq<T>, from: nat, size: nat): (r: seq<T>)
    ensures |r| <= size
  {
    if from >= |list| then [] else if from + size > |list| then list[from..] else list[from..from + size]
  }

  /** The page a client gets for its start index and count. */
  function PageOf<T>(list: seq<T>, startIndex: int, count: int): seq<T> {
    Slice(list, PageStart(|list|, startIndex), PageSize(count))
  }

  /** The slicing of ListUsers and ListGroups: no index is ever out of range. */
  method Page<T>(list: seq<T>, startIndex: int, count: int) returns (page: seq<T>)
    ensures page == PageOf(list, startIndex, count)
  {
    var size := if count < 1 || count > 100 then 100 else count;
    var start := if startIndex < 1 then 0 else startIndex - 1;
    if start > |list| {
      start := |list|;
    }
    var end := start + size;
    if end > |list| {
      end := |list|;
    }
    page := list[start..end];
  }

  function Rest<T>(list: seq<T>, from: nat): seq<T> {
    if from >= |list| then [] else list[from..]
  }

  lemma SliceThenRest<T>(list: seq<T>, from: nat, size: nat)
    ensures Slice(list, from, size) + Rest(list, from + size) == Rest(list, from)
  {
  }

  lemma PageIsSlice<T>(list: seq<T>, from: nat, count: int)
    ensures PageOf(list, from + 1, count) == Slice(list, from, PageSize(count))
  {
  }

  /** The pages a client collects that starts behind the first entries and moves its start index on by
      the page size until the list is done. */
  function Collected<T>(list: seq<T>, from: nat, count: int): seq<T>
    decreases |list| - from
  {
    if from >= |list| then [] else PageOf(list, from + 1, count) + Collected(list, from + PageSize(count), count)
  }

  lemma {:induction false} CollectedIsRest<T>(list: seq<T>, from: nat, count: int)
    ensures Collected(list, from, count) == Rest(list, from)
    decreases |list| - from
  {
    if from < |list| {
      CollectedIsRest(list, from + PageSize(count), count);
      PageIsSlice(list, from, count);
      SliceThenRest(list, from, PageSize(count));
    }
  }

  /** A client that walks the pages from start index 1, with any count, sees every entry once, in order. */
  lemma PagesCoverList<T>(list: seq<T>, count: int)
    ensures Collected(list, 0, count) == list
  {
    CollectedIsRest(list, 0, count);
  }
}

/** Soundness and completeness of the policy protocol: which sets of enabled policies its runs reach. */
module PolicyReach {
  import opened Wrappers
  import opened PolicyCatalog
  import opened PolicyProtocol

  /** Every enabled policy has all its prerequisites enabled. */
  predicate Closed(cat: Catalog, enabled: set<PolicyType>) {
    forall p, d :: p in enabled && d in Dependencies(cat, p) ==> d in enabled
  }

  // ---- soundness ----

  datatype Call = Call(org: nat, planCode: string, user: nat, admin: bool, policy: PolicyType, request: Request, now: string)

  function Perform(cat: Catalog, s: Store, c: Call): (Store, Result<Policy, Error>) {
    UpdatePolicy(cat, s, c.org, BasePlan(c.planCode), c.user, c.admin, c.policy, c.request, c.now)
  }

  function RunCalls(cat: Catalog, s: Store, calls: seq<Call>): Store {
    if calls == [] then s else Perform(cat, RunCalls(cat, s, calls[..|calls| - 1]), calls[|calls| - 1]).0
  }

  lemma SwitchKeepsClosed(cat: Catalog, plan: string, enabled: set<PolicyType>, t: PolicyType, on: bool)
    requires Closed(cat, enabled) && Allowed(cat, plan, enabled, t, on)
    ensures Closed(cat, Switched(enabled, t, on))
  {
  }

  lemma CallKeepsClosed(cat: Catalog, s: Store, c: Call, org: nat)
    requires Closed(cat, EnabledIn(s, org))
    ensures Closed(cat, EnabledIn(Perform(cat, s, c).0, org))
  {
    var plan := BasePlan(c.planCode);
    match c.request.enabled
    case None =>
      SettingsEffect(cat, s, c.org, plan, c.user, c.admin, c.policy, c.request.data, c.now, org);
    case Some(on) =>
      assert c.request == Request(Some(on), c.request.data);
      SwitchAccepted(cat, s, c.org, plan, c.user, c.admin, c.policy, on, c.request.data, c.now);
      if Perform(cat, s, c).1.Success? {
        SwitchEffect(cat, s, c.org, plan, c.user, c.admin, c.policy, on, c.request.data, c.now, org);
        if org == c.org {
          SwitchKeepsClosed(cat, plan, EnabledIn(s, org), c.policy, on);
        }
      }
  }

  /** Whatever calls anyone makes on any plan, no policy is ever enabled without its prerequisites;
      this needs nothing of the catalog. */
  lemma {:induction false} RunKeepsClosed(cat: Catalog, calls: seq<Call>, org: nat)
    ensures Closed(cat, EnabledIn(RunCalls(cat, map[], calls), org))
  {
    if calls == [] {
      assert EnabledIn(map[], org) == {};
    } else {
      RunKeepsClosed(cat, calls[..|calls| - 1], org);
      CallKeepsClosed(cat, RunCalls(cat, map[], calls[..|calls| - 1]), calls[|calls| - 1], org);
    }
  }

  /** Only types of the catalog are ever enabled. */
  lemma {:induction false} RunKeepsListed(cat: Catalog, calls: seq<Call>, org: nat)
    ensures EnabledIn(RunCalls(cat, map[], calls), org) <= cat.Keys
  {
    if calls == [] {
      assert EnabledIn(map[], org) == {};
    } else {
      RunKeepsListed(cat, calls[..|calls| - 1], org);
      CallKeepsListed(cat, RunCalls(cat, map[], calls[..|calls| - 1]), calls[|calls| - 1], org);
    }
  }

  lemma CallKeepsListed(cat: Catalog, s: Store, c: Call, org: nat)
    requires EnabledIn(s, org) <= cat.Keys
    ensures EnabledIn(Perform(cat, s, c).0, org) <= cat.Keys
  {
    var r := Perform(cat, s, c).1;
    if r.Success? {
      EnabledAfterWrite(s, c.org, c.policy, r.value, org);
    }
  }

  // ---- moves on sets ----

  datatype Move = Move(policy: PolicyType, on: bool)

  /** The set a sequence of moves leads to, or None when one of them is refused. */
  function Play(cat: Catalog, plan: string, enabled: set<PolicyType>, moves: seq<Move>): Option<set<PolicyType>>
    decreases |moves|
  {
    if moves == [] then Some(enabled)
    else
      var m := moves[0];
      if Allowed(cat, plan, enabled, m.policy, m.on)
      then Play(cat, plan, Switched(enabled, m.policy, m.on), moves[1..])
      else None
  }

  function Distance(a: set<PolicyType>, b: set<PolicyType>): nat {
    |a - b| + |b - a|
  }

  // ---- acyclic catalogs ----

  /** A ranking of the catalog's types in which prerequisites come strictly lower. */
  predicate Ranks(cat: Catalog, rank: map<PolicyType, nat>) {
    && cat.Keys <= rank.Keys
    && forall p, d :: p in cat && d in cat[p].dependencies ==> d in cat && rank[d] < rank[p]
  }

  ghost predicate Acyclic(cat: Catalog) {
    exists rank :: Ranks(cat, rank)
  }

  lemma {:induction false} Highest(rank: map<PolicyType, nat>, s: set<PolicyType>) returns (p: PolicyType)
    requires s != {} && s <= rank.Keys
    ensures p in s && forall q :: q in s ==> rank[q] <= rank[p]
  {
    p :| p in s;
    if s != {p} {
      var q := Highest(rank, s - {p});
      if rank[q] > rank[p] {
        p := q;
      }
    }
  }

  lemma {:induction false} Lowest(rank: map<PolicyType, nat>, s: set<PolicyType>) returns (p: PolicyType)
    requires s != {} && s <= rank.Keys
    ensures p in s && forall q :: q in s ==> rank[p] <= rank[q]
  {
    p :| p in s;
    if s != {p} {
      var q := Lowest(rank, s - {p});
      if rank[q] < rank[p] {
        p := q;
      }
    }
  }

  predicate TiersMet(cat: Catalog, plan: string, s: set<PolicyType>) {
    forall t :: t in s ==> t in cat && TierMeetsMinimum(plan, cat[t].tier)
  }

  /** Between closed sets of an acyclic catalog there is always a next move: switch off the highest
      policy too many, or else switch on the lowest one missing. */
  lemma NextMove(cat: Catalog, rank: map<PolicyType, nat>, plan: string, a: set<PolicyType>, b: set<PolicyType>)
    returns (m: Move)
    requires Ranks(cat, rank) && Closed(cat, a) && Closed(cat, b) && a != b
    requires TiersMet(cat, plan, a - b) && TiersMet(cat, plan, b - a) && a <= cat.Keys && b <= cat.Keys
    ensures Allowed(cat, plan, a, m.policy, m.on)
    ensures m.on ==> m.policy in b - a
    ensures !m.on ==> m.policy in a - b
  {
    if a - b != {} {
      var p := Highest(rank, a - b);
      m := Move(p, false);
      forall q | q in a && p in Dependencies(cat, q)
        ensures q in a - b && rank[p] < rank[q]
      {
      }
    } else {
      assert b - a != {};
      var p := Lowest(rank, b - a);
      m := Move(p, true);
      forall d | d in Dependencies(cat, p)
        ensures d in a
      {
        assert d in b && rank[d] < rank[p];
      }
    }
  }

  /** Any closed set is reached from any other, by the fewest calls that could do it. */
  lemma {:induction false} Route(cat: Catalog, rank: map<PolicyType, nat>, plan: string, a: set<PolicyType>, b: set<PolicyType>)
    returns (moves: seq<Move>)
    requires Ranks(cat, rank) && Closed(cat, a) && Closed(cat, b)
    requires TiersMet(cat, plan, a - b) && TiersMet(cat, plan, b - a) && a <= cat.Keys && b <= cat.Keys
    ensures Play(cat, plan, a, moves) == Some(b) && |moves| == Distance(a, b)
    decreases Distance(a, b)
  {
    if a == b {
      return [];
    }
    var m := NextMove(cat, rank, plan, a, b);
    SwitchKeepsClosed(cat, plan, a, m.policy, m.on);
    MoveCloses(a, b, m);
    var rest := Route(cat, rank, plan, Switched(a, m.policy, m.on), b);
    moves := [m] + rest;
    assert moves[1..] == rest;
  }

  lemma MoveCloses(a: set<PolicyType>, b: set<PolicyType>, m: Move)
    requires m.policy in if m.on then b - a else a - b
    ensures var a' := Switched(a, m.policy, m.on);
            Distance(a', b) == Distance(a, b) - 1 && a' - b <= a - b && b - a' <= b - a && a' <= a + b
  {
    var a' := Switched(a, m.policy, m.on);
    if m.on {
      assert b - a' == (b - a) - {m.policy} && a' - b == a - b;
    } else {
      assert a' - b == (a - b) - {m.policy} && b - a' == b - a;
    }
  }

  lemma SwitchMovesByOne(a: set<PolicyType>, b: set<PolicyType>, t: PolicyType, on: bool)
    ensures Distance(a, b) <= Distance(Switched(a, t, on), b) + 1
  {
    var a' := Switched(a, t, on);
    if on {
      assert b - a <= (b - a') + {t} && a - b <= a' - b;
      SubsetSize(b - a, (b - a') + {t});
      SubsetSize(a - b, a' - b);
    } else {
      assert a - b <= (a' - b) + {t} && b - a <= b - a';
      SubsetSize(a - b, (a' - b) + {t});
      SubsetSize(b - a, b - a');
    }
  }

  lemma {:induction false} SubsetSize(x: set<PolicyType>, y: set<PolicyType>)
    requires x <= y
    ensures |x| <= |y|
  {
    if x != {} {
      var e :| e in x;
      SubsetSize(x - {e}, y - {e});
    }
  }

  /** No shorter sequence of accepted calls does it. */
  lemma {:induction false} NoShorterRoute(cat: Catalog, plan: string, a: set<PolicyType>, b: set<PolicyType>, moves: seq<Move>)
    requires Play(cat, plan, a, moves) == Some(b)
    ensures |moves| >= Distance(a, b)
    decreases |moves|
  {
    if moves == [] {
      assert a - b == {} && b - a == {};
    } else {
      var m := moves[0];
      NoShorterRoute(cat, plan, Switched(a, m.policy, m.on), b, moves[1..]);
      SwitchMovesByOne(a, b, m.policy, m.on);
    }
  }

  // ---- completeness holds exactly for acyclic catalogs ----

  /** Every prerequisite is itself in the catalog. */
  predicate Grounded(cat: Catalog) {
    forall p, d :: p in cat && d in cat[p].dependencies ==> d in cat
  }

  ghost predicate Reachable(cat: Catalog, plan: string, a: set<PolicyType>, b: set<PolicyType>) {
    exists moves :: Play(cat, plan, a, moves) == Some(b)
  }

  ghost predicate Complete(cat: Catalog) {
    forall plan, a, b |
      && Closed(cat, a) && Closed(cat, b) && a <= cat.Keys && b <= cat.Keys
      && TiersMet(cat, plan, a - b) && TiersMet(cat, plan, b - a) :: Reachable(cat, plan, a, b)
  }

  /** Ranks for the enabled policies, all below a bound: the order in which they were switched on. */
  predicate RanksEnabled(cat: Catalog, enabled: set<PolicyType>, rank: map<PolicyType, nat>, bound: nat) {
    && enabled <= rank.Keys
    && (forall p :: p in enabled ==> rank[p] < bound)
    && forall p, d :: p in enabled && d in Dependencies(cat, p) ==> d in enabled && rank[d] < rank[p]
  }

  lemma {:induction false} PlayRanks(cat: Catalog, plan: string, a: set<PolicyType>, moves: seq<Move>, b: set<PolicyType>,
                                     rank: map<PolicyType, nat>, bound: nat) returns (rank': map<PolicyType, nat>)
    requires Play(cat, plan, a, moves) == Some(b) && RanksEnabled(cat, a, rank, bound)
    ensures exists bound' :: RanksEnabled(cat, b, rank', bound')
    decreases |moves|
  {
    if moves == [] {
      rank' := rank;
      assert RanksEnabled(cat, b, rank, bound);
    } else {
      var m := moves[0];
      var next := Switched(a, m.policy, m.on);
      if m.on && m.policy !in a {
        assert RanksEnabled(cat, next, rank[m.policy := bound], bound + 1);
        rank' := PlayRanks(cat, plan, next, moves[1..], b, rank[m.policy := bound], bound + 1);
      } else {
        assert m.on ==> next == a;
        assert RanksEnabled(cat, next, rank, bound);
        rank' := PlayRanks(cat, plan, next, moves[1..], b, rank, bound);
      }
    }
  }

  /** On a catalog with a cycle, the cycle's policies can never all be enabled. */
  lemma CompleteIffAcyclic(cat: Catalog)
    requires Grounded(cat)
    ensures Complete(cat) <==> Acyclic(cat)
  {
    if Acyclic(cat) {
      var rank :| Ranks(cat, rank);
      forall plan, a, b |
        && Closed(cat, a) && Closed(cat, b) && a <= cat.Keys && b <= cat.Keys
        && TiersMet(cat, plan, a - b) && TiersMet(cat, plan, b - a)
        ensures Reachable(cat, plan, a, b)
      {
        var moves := Route(cat, rank, plan, a, b);
      }
    }
    if Complete(cat) {
      assert Reachable(cat, "enterprise", {}, cat.Keys);
      var moves :| Play(cat, "enterprise", {}, moves) == Some(cat.Keys);
      var rank := PlayRanks(cat, "enterprise", {}, moves, cat.Keys, map[], 0);
      var bound :| RanksEnabled(cat, cat.Keys, rank, bound);
      assert Ranks(cat, rank);
    }
  }

  // ---- back to calls ----

  function CallOf(org: nat, planCode: string, user: nat, m: Move): Call {
    Call(org, planCode, user, true, m.policy, Request(Some(m.on), None), "")
  }

  predicate AllAccepted(cat: Catalog, s: Store, calls: seq<Call>) {
    calls != [] ==>
      && AllAccepted(cat, s, calls[..|calls| - 1])
      && Perform(cat, RunCalls(cat, s, calls[..|calls| - 1]), calls[|calls| - 1]).1.Success?
  }

  lemma PlayAppend(cat: Catalog, plan: string, a: set<PolicyType>, moves: seq<Move>, m: Move)
    ensures Play(cat, plan, a, moves + [m]) ==
            match Play(cat, plan, a, moves)
            case None => None
            case Some(e) => if Allowed(cat, plan, e, m.policy, m.on) then Some(Switched(e, m.policy, m.on)) else None
    decreases |moves|
  {
    if moves == [] {
      assert (moves + [m])[1..] == [];
    } else {
      assert (moves + [m])[1..] == moves[1..] + [m];
      PlayAppend(cat, plan, Switched(a, moves[0].policy, moves[0].on), moves[1..], m);
    }
  }

  /** Moves that can be played are calls of an administrator that are all accepted. */
  lemma {:induction false} CallsFollowMoves(cat: Catalog, s: Store, org: nat, planCode: string, user: nat, moves: seq<Move>)
    returns (calls: seq<Call>)
    requires Play(cat, BasePlan(planCode), EnabledIn(s, org), moves).Some?
    ensures |calls| == |moves| && AllAccepted(cat, s, calls)
    ensures EnabledIn(RunCalls(cat, s, calls), org) == Play(cat, BasePlan(planCode), EnabledIn(s, org), moves).value
  {
    if moves == [] {
      return [];
    }
    var before, m := moves[..|moves| - 1], moves[|moves| - 1];
    var plan := BasePlan(planCode);
    assert moves == before + [m];
    PlayAppend(cat, plan, EnabledIn(s, org), before, m);
    var first := CallsFollowMoves(cat, s, org, planCode, user, before);
    var mid, call := RunCalls(cat, s, first), CallOf(org, planCode, user, m);
    SwitchAccepted(cat, mid, org, plan, user, true, m.policy, m.on, None, "");
    SwitchEffect(cat, mid, org, plan, user, true, m.policy, m.on, None, "", org);
    calls := first + [call];
    assert calls[..|calls| - 1] == first;
  }

  /** From any reachable state an administrator reaches any closed set, one call per policy to switch,
      when the plan meets the tiers of the policies that differ. */
  lemma AdministratorReaches(cat: Catalog, past: seq<Call>, org: nat, planCode: string, user: nat, goal: set<PolicyType>)
    returns (calls: seq<Call>)
    requires Acyclic(cat) && Closed(cat, goal) && goal <= cat.Keys
    requires var now := EnabledIn(RunCalls(cat, map[], past), org);
             TiersMet(cat, BasePlan(planCode), now - goal) && TiersMet(cat, BasePlan(planCode), goal - now)
    ensures var s := RunCalls(cat, map[], past);
            && AllAccepted(cat, s, calls)
            && EnabledIn(RunCalls(cat, s, calls), org) == goal
            && |calls| == Distance(EnabledIn(s, org), goal)
  {
    var s := RunCalls(cat, map[], past);
    RunKeepsClosed(cat, past, org);
    RunKeepsListed(cat, past, org);
    var rank :| Ranks(cat, rank);
    var moves := Route(cat, rank, BasePlan(planCode), EnabledIn(s, org), goal);
    calls := CallsFollowMoves(cat, s, org, planCode, user, moves);
  }

  // ---- the shipped catalog ----

  predicate DependsAtMostOnSingleOrganization(d: Definition) {
    d.dependencies == [] || (d.dependencies == [SingleOrganization] && d.policy != SingleOrganization)
  }

  lemma ShippedDefinitions()
    ensures forall i :: 0 <= i < |DEFINITIONS| ==> DependsAtMostOnSingleOrganization(DEFINITIONS[i])
    ensures DEFINITIONS[7].policy == SingleOrganization
  {
  }

  lemma ShippedDependencies()
    ensures forall p :: p in SHIPPED ==> SHIPPED[p].policy == p && DependsAtMostOnSingleOrganization(SHIPPED[p])
    ensures SingleOrganization in SHIPPED
  {
    ShippedDefinitions();
    CatalogHolds(DEFINITIONS);
  }

  /** So every dependency-closed selection of shipped policies can be reached. */
  lemma ShippedIsComplete()
    ensures Grounded(SHIPPED) && Acyclic(SHIPPED) && Complete(SHIPPED)
  {
    ShippedDependencies();
    var rank := map t | t in SHIPPED :: if t == SingleOrganization then 0 else 1;
    assert Ranks(SHIPPED, rank);
    CompleteIffAcyclic(SHIPPED);
  }
}

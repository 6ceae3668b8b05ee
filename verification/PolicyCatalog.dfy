/** The catalog of organization policies: minimum plan tier and prerequisites of each type. */
module PolicyCatalog {
  import opened Wrappers

  datatype PolicyType =
    | RequireTwoFactor | RequireSSO | MasterPWRequirements | SessionTimeout | RemovePINUnlock
    | FailedLoginLimit | AccountRecovery | SingleOrganization | DisablePersonalExport | EnforceDataOwnership
    | RemoveCardType | DisableExternalSharing | PasswordGenerator | ActivateAutofill | DefaultURIMatch
    | RequireAutofillConfirm | RequireBrowserExtension | FirewallRules | BlockDomainAccountCreation
    | SendOptions | RemoveSend | DisablePersonalVault | PasswordExpiration | RequireDeviceApproval
    | Unlisted(name: string)

  datatype Tier = TeamTier | BusinessTier | EnterpriseTier

  datatype Definition = Definition(policy: PolicyType, tier: Tier, dependencies: seq<PolicyType>)

  /** The two lookup maps the package fills at start-up, as one. */
  type Catalog = map<PolicyType, Definition>

  /** A later definition of the same type replaces an earlier one. */
  function CatalogOf(defs: seq<Definition>): Catalog {
    if defs == [] then map[]
    else CatalogOf(defs[..|defs| - 1])[defs[|defs| - 1].policy := defs[|defs| - 1]]
  }

  lemma {:induction false} CatalogHolds(defs: seq<Definition>)
    ensures forall t :: t in CatalogOf(defs) ==> exists i :: 0 <= i < |defs| && defs[i] == CatalogOf(defs)[t] && defs[i].policy == t
    ensures forall i :: 0 <= i < |defs| ==> defs[i].policy in CatalogOf(defs)
  {
    if defs != [] {
      var before := defs[..|defs| - 1];
      CatalogHolds(before);
      assert forall i :: 0 <= i < |before| ==> before[i] == defs[i];
      forall t | t in CatalogOf(defs)
        ensures exists i :: 0 <= i < |defs| && defs[i] == CatalogOf(defs)[t] && defs[i].policy == t
      {
        if t == defs[|defs| - 1].policy {
          assert defs[|defs| - 1] == CatalogOf(defs)[t];
        } else {
          var i :| 0 <= i < |before| && before[i] == CatalogOf(before)[t] && before[i].policy == t;
          assert defs[i] == CatalogOf(defs)[t];
        }
      }
    }
  }

  predicate Distinct(defs: seq<Definition>) {
    forall i, j :: 0 <= i < j < |defs| ==> defs[i].policy != defs[j].policy
  }

  method InitTierMap(defs: seq<Definition>) returns (tiers: map<PolicyType, Tier>)
    ensures tiers.Keys == CatalogOf(defs).Keys
    ensures forall t :: t in tiers ==> tiers[t] == CatalogOf(defs)[t].tier
  {
    tiers := map[];
    for i := 0 to |defs|
      invariant tiers.Keys == CatalogOf(defs[..i]).Keys
      invariant forall t :: t in tiers ==> tiers[t] == CatalogOf(defs[..i])[t].tier
    {
      assert defs[..i + 1][..i] == defs[..i];
      tiers := tiers[defs[i].policy := defs[i].tier];
    }
    assert defs[..|defs|] == defs;
  }

  /** GetPolicyDependencies: a type without an entry has no prerequisites. */
  function Dependencies(cat: Catalog, t: PolicyType): seq<PolicyType> {
    if t in cat then cat[t].dependencies else []
  }

  function LookupDependencies(m: map<PolicyType, seq<PolicyType>>, t: PolicyType): seq<PolicyType> {
    if t in m then m[t] else []
  }

  lemma DefinitionAdds(defs: seq<Definition>, i: nat, t: PolicyType)
    requires i < |defs| && Distinct(defs)
    ensures Dependencies(CatalogOf(defs[..i + 1]), t) ==
            if t == defs[i].policy then defs[i].dependencies else Dependencies(CatalogOf(defs[..i]), t)
    ensures Dependencies(CatalogOf(defs[..i]), defs[i].policy) == []
  {
    var before := defs[..i];
    assert defs[..i + 1][..i] == before;
    assert defs[i].policy !in CatalogOf(before) by {
      CatalogHolds(before);
      assert forall k :: 0 <= k < i ==> before[k] == defs[k];
    }
  }

  /** What the filling loop leaves for a type: the last list of prerequisites that is not empty. */
  function LastListed(defs: seq<Definition>, t: PolicyType): seq<PolicyType> {
    if defs == [] then []
    else
      var d := defs[|defs| - 1];
      if d.policy == t && |d.dependencies| > 0 then d.dependencies else LastListed(defs[..|defs| - 1], t)
  }

  method InitDependencyMap(defs: seq<Definition>) returns (dependencies: map<PolicyType, seq<PolicyType>>)
    ensures forall t :: LookupDependencies(dependencies, t) == LastListed(defs, t)
  {
    dependencies := map[];
    for i := 0 to |defs|
      invariant forall t :: LookupDependencies(dependencies, t) == LastListed(defs[..i], t)
    {
      assert defs[..i + 1][..i] == defs[..i];
      if |defs[i].dependencies| > 0 {
        dependencies := dependencies[defs[i].policy := defs[i].dependencies];
      }
    }
    assert defs[..|defs|] == defs;
  }

  predicate GivesPrerequisites(d: Definition, t: PolicyType) {
    d.policy == t && d.dependencies != []
  }

  /** A lookup yields the last prerequisites listed for the type that are not empty, if any are. */
  lemma {:induction false} LastListedIsLast(defs: seq<Definition>, t: PolicyType)
    ensures if forall i :: 0 <= i < |defs| ==> !GivesPrerequisites(defs[i], t) then LastListed(defs, t) == []
            else exists i :: 0 <= i < |defs| && GivesPrerequisites(defs[i], t) && LastListed(defs, t) == defs[i].dependencies
                             && forall j :: i < j < |defs| ==> !GivesPrerequisites(defs[j], t)
  {
    if defs != [] {
      var before, n := defs[..|defs| - 1], |defs| - 1;
      LastListedIsLast(before, t);
      assert forall i :: 0 <= i < n ==> before[i] == defs[i];
      if GivesPrerequisites(defs[n], t) {
        assert LastListed(defs, t) == defs[n].dependencies;
      } else if !(forall i :: 0 <= i < n ==> !GivesPrerequisites(before[i], t)) {
        var i :| 0 <= i < n && GivesPrerequisites(before[i], t) && LastListed(before, t) == before[i].dependencies
                 && forall j :: i < j < n ==> !GivesPrerequisites(before[j], t);
        assert GivesPrerequisites(defs[i], t) && forall j :: i < j < |defs| ==> !GivesPrerequisites(defs[j], t);
      }
    }
  }

  /** When every type is defined once, leaving out the empty lists makes no difference to a lookup. */
  lemma {:induction false} DistinctLookup(defs: seq<Definition>, t: PolicyType)
    requires Distinct(defs)
    ensures LastListed(defs, t) == Dependencies(CatalogOf(defs), t)
  {
    if defs != [] {
      var n := |defs| - 1;
      assert Distinct(defs[..n]) by {
        assert forall i :: 0 <= i < n ==> defs[..n][i] == defs[i];
      }
      DistinctLookup(defs[..n], t);
      DefinitionAdds(defs, n, t);
      assert defs[..n + 1] == defs;
    }
  }

  // ---- plans ----

  function StripSuffix(code: string, suffix: string): Option<string> {
    if |code| > |suffix| && code[|code| - |suffix|..] == suffix then Some(code[..|code| - |suffix|]) else None
  }

  /** A plan code without its billing period. */
  function BasePlan(code: string): string {
    match StripSuffix(code, "-monthly")
    case Some(b) => b
    case None =>
      match StripSuffix(code, "-yearly")
      case Some(b) => b
      case None => code
  }

  /** Unknown plans rank with the free one. */
  function PlanRank(plan: string): nat {
    if plan == "family" || plan == "team" then 1
    else if plan == "business" then 2
    else if plan == "enterprise" then 3
    else 0
  }

  function TierRank(t: Tier): nat {
    match t
    case TeamTier => 1
    case BusinessTier => 2
    case EnterpriseTier => 3
  }

  predicate TierMeetsMinimum(plan: string, tier: Tier) {
    PlanRank(plan) >= TierRank(tier)
  }

  // ---- the shipped catalog ----

  const AUTHENTICATION: seq<Definition> := [
    Definition(RequireTwoFactor, TeamTier, []),
    Definition(RequireSSO, BusinessTier, [SingleOrganization]),
    Definition(MasterPWRequirements, TeamTier, []),
    Definition(SessionTimeout, BusinessTier, [SingleOrganization]),
    Definition(RemovePINUnlock, BusinessTier, []),
    Definition(FailedLoginLimit, BusinessTier, []),
    Definition(AccountRecovery, BusinessTier, [SingleOrganization])
  ]

  const VAULT: seq<Definition> := [
    Definition(SingleOrganization, BusinessTier, []),
    Definition(DisablePersonalExport, BusinessTier, []),
    Definition(EnforceDataOwnership, BusinessTier, []),
    Definition(RemoveCardType, BusinessTier, []),
    Definition(DisableExternalSharing, TeamTier, [])
  ]

  const CLIENTS: seq<Definition> := [
    Definition(PasswordGenerator, TeamTier, []),
    Definition(ActivateAutofill, BusinessTier, []),
    Definition(DefaultURIMatch, BusinessTier, [SingleOrganization]),
    Definition(RequireAutofillConfirm, BusinessTier, []),
    Definition(RequireBrowserExtension, TeamTier, [])
  ]

  const SHARING_AND_COMPLIANCE: seq<Definition> := [
    Definition(FirewallRules, BusinessTier, []),
    Definition(BlockDomainAccountCreation, BusinessTier, []),
    Definition(SendOptions, BusinessTier, []),
    Definition(RemoveSend, BusinessTier, []),
    Definition(DisablePersonalVault, BusinessTier, [SingleOrganization]),
    Definition(PasswordExpiration, BusinessTier, []),
    Definition(RequireDeviceApproval, BusinessTier, [])
  ]

  const DEFINITIONS: seq<Definition> := AUTHENTICATION + VAULT + CLIENTS + SHARING_AND_COMPLIANCE

  const SHIPPED: Catalog := CatalogOf(DEFINITIONS)

  // ---- every shipped type is defined once ----

  function Position(t: PolicyType): nat {
    match t
    case RequireTwoFactor => 0
    case RequireSSO => 1
    case MasterPWRequirements => 2
    case SessionTimeout => 3
    case RemovePINUnlock => 4
    case FailedLoginLimit => 5
    case AccountRecovery => 6
    case SingleOrganization => 7
    case DisablePersonalExport => 8
    case EnforceDataOwnership => 9
    case RemoveCardType => 10
    case DisableExternalSharing => 11
    case PasswordGenerator => 12
    case ActivateAutofill => 13
    case DefaultURIMatch => 14
    case RequireAutofillConfirm => 15
    case RequireBrowserExtension => 16
    case FirewallRules => 17
    case BlockDomainAccountCreation => 18
    case SendOptions => 19
    case RemoveSend => 20
    case DisablePersonalVault => 21
    case PasswordExpiration => 22
    case RequireDeviceApproval => 23
    case Unlisted(_) => 24
  }

  /** The definitions come in the order of the types' positions. */
  predicate InOrder(defs: seq<Definition>, from: nat) {
    defs == [] || (Position(defs[0].policy) == from && InOrder(defs[1..], from + 1))
  }

  lemma {:induction false} PositionsByOrder(defs: seq<Definition>, from: nat)
    requires InOrder(defs, from)
    ensures forall i :: 0 <= i < |defs| ==> Position(defs[i].policy) == from + i
  {
    if defs != [] {
      PositionsByOrder(defs[1..], from + 1);
      assert forall i :: 1 <= i < |defs| ==> defs[i] == defs[1..][i - 1];
    }
  }

  lemma {:induction false} InOrderConcat(a: seq<Definition>, b: seq<Definition>, from: nat)
    requires InOrder(a, from) && InOrder(b, from + |a|)
    ensures InOrder(a + b, from)
  {
    if a == [] {
      assert a + b == b;
    } else {
      assert (a + b)[1..] == a[1..] + b;
      InOrderConcat(a[1..], b, from + 1);
    }
  }

  lemma AuthenticationInOrder()
    ensures InOrder(AUTHENTICATION, 0) && |AUTHENTICATION| == 7
  {
  }

  lemma VaultInOrder()
    ensures InOrder(VAULT, 7) && |VAULT| == 5
  {
  }

  lemma ClientsInOrder()
    ensures InOrder(CLIENTS, 12) && |CLIENTS| == 5
  {
  }

  lemma SharingAndComplianceInOrder()
    ensures InOrder(SHARING_AND_COMPLIANCE, 17)
  {
  }

  lemma GroupsInOrder(a: seq<Definition>, b: seq<Definition>, c: seq<Definition>, d: seq<Definition>)
    requires InOrder(a, 0) && InOrder(b, |a|) && InOrder(c, |a| + |b|) && InOrder(d, |a| + |b| + |c|)
    ensures InOrder(a + b + c + d, 0)
  {
    InOrderConcat(a, b, 0);
    InOrderConcat(a + b, c, 0);
    InOrderConcat(a + b + c, d, 0);
  }

  lemma DefinitionsInOrder()
    ensures InOrder(DEFINITIONS, 0)
  {
    AuthenticationInOrder();
    VaultInOrder();
    ClientsInOrder();
    SharingAndComplianceInOrder();
    GroupsInOrder(AUTHENTICATION, VAULT, CLIENTS, SHARING_AND_COMPLIANCE);
  }

  lemma DefinitionsAreDistinct()
    ensures Distinct(DEFINITIONS)
  {
    DefinitionsInOrder();
    PositionsByOrder(DEFINITIONS, 0);
  }

  /** So the two start-up maps agree with the catalog. */
  lemma ShippedLookup(t: PolicyType)
    ensures LastListed(DEFINITIONS, t) == Dependencies(SHIPPED, t)
  {
    DefinitionsAreDistinct();
    DistinctLookup(DEFINITIONS, t);
  }
}

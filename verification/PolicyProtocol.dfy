/** Enabling and disabling organization policies under their dependency catalog. */
module PolicyProtocol {
  import opened Wrappers
  import opened PolicyCatalog

  datatype Json = Text(s: string) | Num(n: int)

  type Data = map<string, Json>

  datatype Policy = Policy(enabled: bool, data: Data, lastEnabledBy: Option<nat>, lastDisabledBy: Option<nat>)

  /** One row per organization and type. */
  type Store = map<(nat, PolicyType), Policy>

  datatype Request = Request(enabled: Option<bool>, data: Option<Data>)

  datatype Error =
    | Forbidden | UnknownType | PlanTooLow(tier: Tier)
    | DependencyMissing(dep: PolicyType) | HasDependents(dependents: set<PolicyType>)

  predicate IsPolicyEnabled(s: Store, org: nat, t: PolicyType) {
    (org, t) in s && s[(org, t)].enabled
  }

  /** ListEnabledByOrganization. */
  function EnabledIn(s: Store, org: nat): set<PolicyType> {
    set k | k in s && k.0 == org && s[k].enabled :: k.1
  }

  function FindDependents(cat: Catalog, s: Store, org: nat, t: PolicyType): set<PolicyType> {
    set p | p in EnabledIn(s, org) && t in Dependencies(cat, p)
  }

  /** The first prerequisite that is not enabled. */
  function FirstMissing(s: Store, org: nat, deps: seq<PolicyType>): (m: Option<PolicyType>)
    ensures m.None? <==> forall d :: d in deps ==> IsPolicyEnabled(s, org, d)
  {
    if deps == [] then None
    else if !IsPolicyEnabled(s, org, deps[0]) then Some(deps[0])
    else FirstMissing(s, org, deps[1..])
  }

  /** Two-factor enforcement remembers when it was first enabled and starts with a week's grace. */
  function TwoFactorDefaults(data: Data, now: string): Data {
    var d1 := if "enabled_at" in data then data else data["enabled_at" := Text(now)];
    if "grace_period_days" in d1 then d1 else d1["grace_period_days" := Num(7)]
  }

  function Rewrite(p: Policy, t: PolicyType, user: nat, req: Request, now: string): Policy {
    var p1 := if req.enabled == Some(true) then p.(enabled := true, lastEnabledBy := Some(user))
              else if req.enabled == Some(false) then p.(enabled := false, lastDisabledBy := Some(user))
              else p;
    var p2 := if req.data.Some? then p1.(data := req.data.value) else p1;
    if req.enabled == Some(true) && t == RequireTwoFactor then p2.(data := TwoFactorDefaults(p2.data, now)) else p2
  }

  function UpdatePolicy(cat: Catalog, s: Store, org: nat, plan: string, user: nat, admin: bool,
                        t: PolicyType, req: Request, now: string): (Store, Result<Policy, Error>) {
    if !admin then (s, Failure(Forbidden))
    else if t !in cat then (s, Failure(UnknownType))
    else if !TierMeetsMinimum(plan, cat[t].tier) then (s, Failure(PlanTooLow(cat[t].tier)))
    else
      var missing := FirstMissing(s, org, Dependencies(cat, t));
      var dependents := FindDependents(cat, s, org, t);
      if req.enabled == Some(true) && missing.Some? then (s, Failure(DependencyMissing(missing.value)))
      else if req.enabled == Some(false) && dependents != {} then (s, Failure(HasDependents(dependents)))
      else
        var was := if (org, t) in s then s[(org, t)] else Policy(false, map[], None, None);
        var p := Rewrite(was, t, user, req, now);
        (s[(org, t) := p], Success(p))
  }

  // ---- what one call means for the set of enabled policies ----

  /** Whether the catalog and the plan let an organization with these policies enabled switch one. */
  predicate Allowed(cat: Catalog, plan: string, enabled: set<PolicyType>, t: PolicyType, on: bool) {
    && t in cat && TierMeetsMinimum(plan, cat[t].tier)
    && (on ==> forall d :: d in Dependencies(cat, t) ==> d in enabled)
    && (!on ==> forall p :: p in enabled ==> t !in Dependencies(cat, p))
  }

  function Switched(enabled: set<PolicyType>, t: PolicyType, on: bool): set<PolicyType> {
    if on then enabled + {t} else enabled - {t}
  }

  lemma EnabledMembers(s: Store, org: nat, t: PolicyType)
    ensures t in EnabledIn(s, org) <==> IsPolicyEnabled(s, org, t)
  {
    if IsPolicyEnabled(s, org, t) {
      assert (org, t).1 == t;
    }
  }

  lemma EnabledMembersAll(s: Store, org: nat)
    ensures forall t :: t in EnabledIn(s, org) <==> IsPolicyEnabled(s, org, t)
  {
    forall t
      ensures t in EnabledIn(s, org) <==> IsPolicyEnabled(s, org, t)
    {
      EnabledMembers(s, org, t);
    }
  }

  lemma EnabledAfterWrite(s: Store, org: nat, t: PolicyType, p: Policy, other: nat)
    ensures EnabledIn(s[(org, t) := p], other) ==
            if other == org then Switched(EnabledIn(s, org), t, p.enabled) else EnabledIn(s, other)
  {
    var s' := s[(org, t) := p];
    forall x
      ensures x in EnabledIn(s', other) <==>
              x in if other == org then Switched(EnabledIn(s, org), t, p.enabled) else EnabledIn(s, other)
    {
      EnabledMembers(s', other, x);
      EnabledMembers(s, other, x);
    }
  }

  lemma NoDependents(cat: Catalog, s: Store, org: nat, t: PolicyType)
    ensures FindDependents(cat, s, org, t) == {} <==> forall p :: p in EnabledIn(s, org) ==> t !in Dependencies(cat, p)
  {
    forall p | p in EnabledIn(s, org) && t in Dependencies(cat, p)
      ensures p in FindDependents(cat, s, org, t)
    {
    }
  }

  /** A call that switches a policy succeeds exactly when an administrator makes it and the switch is
      allowed; a refused call changes nothing ... */
  lemma SwitchAccepted(cat: Catalog, s: Store, org: nat, plan: string, user: nat, admin: bool,
                       t: PolicyType, on: bool, data: Option<Data>, now: string)
    ensures var (s', r) := UpdatePolicy(cat, s, org, plan, user, admin, t, Request(Some(on), data), now);
            && (r.Success? <==> admin && Allowed(cat, plan, EnabledIn(s, org), t, on))
            && (r.Failure? ==> s' == s)
  {
    EnabledMembersAll(s, org);
    NoDependents(cat, s, org, t);
  }

  /** ... and an accepted one switches that one policy of that one organization. */
  lemma SwitchEffect(cat: Catalog, s: Store, org: nat, plan: string, user: nat, admin: bool,
                     t: PolicyType, on: bool, data: Option<Data>, now: string, other: nat)
    requires UpdatePolicy(cat, s, org, plan, user, admin, t, Request(Some(on), data), now).1.Success?
    ensures EnabledIn(UpdatePolicy(cat, s, org, plan, user, admin, t, Request(Some(on), data), now).0, other) ==
            if other == org then Switched(EnabledIn(s, org), t, on) else EnabledIn(s, other)
  {
    var r := UpdatePolicy(cat, s, org, plan, user, admin, t, Request(Some(on), data), now).1;
    EnabledAfterWrite(s, org, t, r.value, other);
  }

  /** A call that only carries settings leaves every organization's enabled policies alone. */
  lemma SettingsEffect(cat: Catalog, s: Store, org: nat, plan: string, user: nat, admin: bool,
                       t: PolicyType, data: Option<Data>, now: string, other: nat)
    ensures var s' := UpdatePolicy(cat, s, org, plan, user, admin, t, Request(None, data), now).0;
            EnabledIn(s', other) == EnabledIn(s, other)
  {
    var (s', r) := UpdatePolicy(cat, s, org, plan, user, admin, t, Request(None, data), now);
    if r.Success? {
      assert r.value.enabled == IsPolicyEnabled(s, org, t);
      RewriteSame(s, org, t, r.value, other);
    } else {
      assert s' == s;
    }
  }

  lemma RewriteSame(s: Store, org: nat, t: PolicyType, p: Policy, other: nat)
    requires p.enabled == IsPolicyEnabled(s, org, t)
    ensures EnabledIn(s[(org, t) := p], other) == EnabledIn(s, other)
  {
    EnabledAfterWrite(s, org, t, p, other);
    EnabledMembers(s, org, t);
  }

  /** The date two-factor enforcement began, if one is stored. */
  function EnabledAt(s: Store, org: nat): Option<Json> {
    if (org, RequireTwoFactor) in s && "enabled_at" in s[(org, RequireTwoFactor)].data
    then Some(s[(org, RequireTwoFactor)].data["enabled_at"]) else None
  }

  /** The settings a call carries keep the date: they name it, or name none while the call enables the
      policy at that very time. */
  predicate CarriesDate(req: Request, now: string, date: Json) {
    req.data.None? ||
    (if "enabled_at" in req.data.value then req.data.value["enabled_at"] == date
     else req.enabled == Some(true) && Text(now) == date)
  }

  /** Enabling again does not overwrite the date by itself, but settings replace the stored ones whole: an
      accepted call keeps the date exactly when it carries no settings or settings that keep it. */
  lemma EnabledAtKeptIff(cat: Catalog, s: Store, org: nat, plan: string, user: nat, admin: bool, req: Request, now: string)
    requires EnabledAt(s, org).Some?
    ensures var (s', r) := UpdatePolicy(cat, s, org, plan, user, admin, RequireTwoFactor, req, now);
            && (r.Failure? ==> EnabledAt(s', org) == EnabledAt(s, org))
            && (r.Success? ==> (EnabledAt(s', org) == EnabledAt(s, org) <==> CarriesDate(req, now, EnabledAt(s, org).value)))
  {
    RewriteDate(s[(org, RequireTwoFactor)], user, req, now);
  }

  lemma RewriteDate(p: Policy, user: nat, req: Request, now: string)
    requires "enabled_at" in p.data
    ensures var data := Rewrite(p, RequireTwoFactor, user, req, now).data;
            "enabled_at" in data && data["enabled_at"] == p.data["enabled_at"] <==> CarriesDate(req, now, p.data["enabled_at"])
  {
  }

  // ---- the service object ----

  class OrganizationPolicyService {
    const catalog: Catalog
    var policies: Store

    constructor (catalog: Catalog)
      ensures this.catalog == catalog && policies == map[]
    {
      this.catalog := catalog;
      policies := map[];
    }

    static method Contains(deps: seq<PolicyType>, t: PolicyType) returns (found: bool)
      ensures found <==> t in deps
    {
      for i := 0 to |deps|
        invariant t !in deps[..i]
      {
        if deps[i] == t {
          return true;
        }
      }
      return false;
    }

    method FindDependentTypes(org: nat, t: PolicyType) returns (dependents: set<PolicyType>)
      ensures dependents == FindDependents(catalog, policies, org, t)
    {
      dependents := {};
      var enabled := EnabledIn(policies, org);
      var rest := enabled;
      while rest != {}
        invariant rest <= enabled
        invariant forall p :: p in dependents <==> p in enabled && p !in rest && t in Dependencies(catalog, p)
        decreases |rest|
      {
        var p :| p in rest;
        rest := rest - {p};
        var depends := Contains(Dependencies(catalog, p), t);
        if depends {
          dependents := dependents + {p};
        }
      }
    }

    method Update(org: nat, planCode: string, user: nat, admin: bool, t: PolicyType, req: Request, now: string)
      returns (r: Result<Policy, Error>)
      modifies this
      ensures (policies, r) ==
              UpdatePolicy(catalog, old(policies), org, BasePlan(planCode), user, admin, t, req, now)
    {
      if !admin {
        return Failure(Forbidden);
      }
      if t !in catalog {
        return Failure(UnknownType);
      }
      if !TierMeetsMinimum(BasePlan(planCode), catalog[t].tier) {
        return Failure(PlanTooLow(catalog[t].tier));
      }
      var deps := Dependencies(catalog, t);
      var enabling := req.enabled == Some(true);
      if enabling {
        for i := 0 to |deps|
          invariant FirstMissing(policies, org, deps) == FirstMissing(policies, org, deps[i..])
        {
          if !IsPolicyEnabled(policies, org, deps[i]) {
            return Failure(DependencyMissing(deps[i]));
          }
          assert deps[i..][1..] == deps[i + 1..];
        }
      }
      if req.enabled == Some(false) {
        var dependents := FindDependentTypes(org, t);
        if |dependents| > 0 {
          return Failure(HasDependents(dependents));
        }
      }
      var policy := Policy(false, map[], None, None);
      if (org, t) in policies {
        policy := policies[(org, t)];
      }
      if req.enabled.Some? {
        policy := policy.(enabled := req.enabled.value);
        if req.enabled.value {
          policy := policy.(lastEnabledBy := Some(user));
        } else {
          policy := policy.(lastDisabledBy := Some(user));
        }
      }
      if req.data.Some? {
        policy := policy.(data := req.data.value);
      }
      if enabling && t == RequireTwoFactor {
        if "enabled_at" !in policy.data {
          policy := policy.(data := policy.data["enabled_at" := Text(now)]);
        }
        if "grace_period_days" !in policy.data {
          policy := policy.(data := policy.data["grace_period_days" := Num(7)]);
        }
      }
      policies := policies[(org, t) := policy];
      return Success(policy);
    }
  }
}

/** What updating a policy answers and stores: by the rank of the plan, the enabled policies, and the fields
    of the request. */
module PolicyAnswers {
  import opened Wrappers
  import opened PolicyCatalog
  import opened PolicyProtocol

  // ---- plans ----

  /** The plans that reach a tier. */
  predicate Reaches(plan: string, tier: Tier) {
    match tier
    case TeamTier => plan == "family" || plan == "team" || plan == "business" || plan == "enterprise"
    case BusinessTier => plan == "business" || plan == "enterprise"
    case EnterpriseTier => plan == "enterprise"
  }

  lemma TierMetIff(plan: string, tier: Tier)
    ensures TierMeetsMinimum(plan, tier) <==> Reaches(plan, tier)
  {
  }

  predicate EndsWith(code: string, end: string) {
    |code| >= |end| && code[|code| - |end|..] == end
  }

  /** A plan code loses its billing period, and nothing else. */
  lemma BasePlanMeaning(base: string, code: string)
    ensures base != "" ==> BasePlan(base + "-monthly") == base && BasePlan(base + "-yearly") == base
    ensures !EndsWith(code, "-monthly") && !EndsWith(code, "-yearly") ==> BasePlan(code) == code
    ensures code == "-monthly" || code == "-yearly" ==> BasePlan(code) == code
  {
    var m, y := base + "-monthly", base + "-yearly";
    assert m[|base|..] == "-monthly" && m[..|base|] == base;
    assert y[|base|..] == "-yearly" && y[..|base|] == base;
    assert y[|y| - 2] == 'l' && y[|y| - 1] == 'y';
    assert |y| >= 8 ==> y[|y| - 8..][7] == 'y' && y[|y| - 8..][6] == 'l' && y[|y| - 8..][5] == 'r';
    assert "-monthly"[5] == 'h';
  }

  // ---- acceptance ----

  /** What the request asks the catalog: prerequisites to switch on, no dependents to switch off. */
  predicate Fits(cat: Catalog, enabled: set<PolicyType>, t: PolicyType, req: Request) {
    match req.enabled
    case Some(true) => forall d :: d in Dependencies(cat, t) ==> d in enabled
    case Some(false) => forall p :: p in enabled ==> t !in Dependencies(cat, p)
    case None => true
  }

  /** Every update, settings or switch, takes an administrator, a listed type and a plan that reaches its
      tier; a switch must fit the catalog too. */
  lemma UpdateAcceptedIff(cat: Catalog, s: Store, org: nat, plan: string, user: nat, admin: bool,
                          t: PolicyType, req: Request, now: string)
    ensures UpdatePolicy(cat, s, org, plan, user, admin, t, req, now).1.Success? <==>
            admin && t in cat && Reaches(plan, cat[t].tier) && Fits(cat, EnabledIn(s, org), t, req)
  {
    if t in cat {
      TierMetIff(plan, cat[t].tier);
    }
    EnabledMembersAll(s, org);
    NoDependents(cat, s, org, t);
  }

  /** Each refusal names its reason, the first that applies, and changes nothing. */
  lemma UpdateRefusals(cat: Catalog, s: Store, org: nat, plan: string, user: nat, admin: bool,
                       t: PolicyType, req: Request, now: string)
    requires UpdatePolicy(cat, s, org, plan, user, admin, t, req, now).1.Failure?
    ensures var (s', r) := UpdatePolicy(cat, s, org, plan, user, admin, t, req, now);
            && s' == s
            && (r.error == Forbidden <==> !admin)
            && (r.error == UnknownType <==> admin && t !in cat)
            && (r.error.PlanTooLow? <==> admin && t in cat && !Reaches(plan, cat[t].tier))
            && (r.error.PlanTooLow? ==> r.error.tier == cat[t].tier)
            && (r.error.DependencyMissing? ==>
                  req.enabled == Some(true) && IsFirstMissing(Dependencies(cat, t), EnabledIn(s, org), r.error.dep))
            && (r.error.HasDependents? ==>
                  req.enabled == Some(false) && r.error.dependents == set p | p in EnabledIn(s, org) && t in Dependencies(cat, p))
  {
    if t in cat {
      TierMetIff(plan, cat[t].tier);
    }
    EnabledMembersAll(s, org);
    FirstMissingIsListed(s, org, Dependencies(cat, t));
  }

  predicate IsFirstMissing(deps: seq<PolicyType>, enabled: set<PolicyType>, d: PolicyType) {
    exists i :: 0 <= i < |deps| && deps[i] == d && d !in enabled && forall j :: 0 <= j < i ==> deps[j] in enabled
  }

  lemma {:induction false} FirstMissingIsListed(s: Store, org: nat, deps: seq<PolicyType>)
    ensures FirstMissing(s, org, deps).Some? ==> IsFirstMissing(deps, EnabledIn(s, org), FirstMissing(s, org, deps).value)
  {
    EnabledMembersAll(s, org);
    if deps != [] && IsPolicyEnabled(s, org, deps[0]) {
      FirstMissingIsListed(s, org, deps[1..]);
      if FirstMissing(s, org, deps).Some? {
        var d := FirstMissing(s, org, deps).value;
        var i :| 0 <= i < |deps[1..]| && deps[1..][i] == d && d !in EnabledIn(s, org)
                 && forall j :: 0 <= j < i ==> deps[1..][j] in EnabledIn(s, org);
        assert deps[i + 1] == d && forall j :: 0 < j < i + 1 ==> deps[j] == deps[1..][j - 1];
      }
    }
  }

  // ---- what is stored ----

  /** The policy as it was, or a disabled one without settings. */
  function Before(s: Store, org: nat, t: PolicyType): Policy {
    if (org, t) in s then s[(org, t)] else Policy(false, map[], None, None)
  }

  /** The settings are those of the request, or the old ones; switching two-factor enforcement on fills in
      a date and a week's grace where they are missing. */
  ghost predicate HasSettings(data: Data, given: Data, fills: bool, now: string) {
    && (forall k :: k in data <==> k in given || (fills && (k == "enabled_at" || k == "grace_period_days")))
    && (forall k :: k in given ==> data[k] == given[k])
    && (fills && "enabled_at" !in given ==> data["enabled_at"] == Text(now))
    && (fills && "grace_period_days" !in given ==> data["grace_period_days"] == Num(7))
  }

  /** An accepted update stores one policy and returns it: switched as asked, signed by who switched it, with
      the settings asked for. */
  lemma UpdateStores(cat: Catalog, s: Store, org: nat, plan: string, user: nat, admin: bool,
                     t: PolicyType, req: Request, now: string)
    requires UpdatePolicy(cat, s, org, plan, user, admin, t, req, now).1.Success?
    ensures var (s', r) := UpdatePolicy(cat, s, org, plan, user, admin, t, req, now);
            var p, was := r.value, Before(s, org, t);
            && s' == s[(org, t) := p]
            && p.enabled == (if req.enabled == None then was.enabled else req.enabled.value)
            && p.lastEnabledBy == (if req.enabled == Some(true) then Some(user) else was.lastEnabledBy)
            && p.lastDisabledBy == (if req.enabled == Some(false) then Some(user) else was.lastDisabledBy)
            && HasSettings(p.data, if req.data == None then was.data else req.data.value,
                           t == RequireTwoFactor && req.enabled == Some(true), now)
  {
    DefaultsFill(if req.data == None then Before(s, org, t).data else req.data.value, now);
  }

  lemma DefaultsFill(given: Data, now: string)
    ensures HasSettings(TwoFactorDefaults(given, now), given, true, now)
    ensures HasSettings(given, given, false, now)
  {
    assert |"enabled_at"| != |"grace_period_days"|;
  }
}

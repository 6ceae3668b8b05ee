/** The firewall policy: the first rule that decides wins, and an allow rule anywhere denies whatever no
    rule decides. */
module Firewall {
  import opened Wrappers
  import opened Prefixes

  /** Kinds of rule, with the address or block that its text stands for, if it is well formed. */
  datatype Kind = Ip(address: Option<Address>) | Cidr(block: Option<Prefix>) | Country | OtherKind

  datatype Action = Allow | Deny | Report | OtherAction

  datatype Rule = Rule(kind: Kind, action: Action)

  /** A rule as stored: a field is None when it is missing, no string, or empty. */
  datatype Raw = Raw(kind: Option<Kind>, action: Option<Action>)

  /** The stored list; an entry that is no object is None. */
  type RawRules = seq<Option<Raw>>

  datatype Decision = NoRules | BadAddress | Decided(rule: Rule) | ImplicitDeny | DefaultAllow

  predicate Allows(d: Decision) {
    match d
    case NoRules => true
    case BadAddress => false
    case Decided(rule) => rule.action != Deny
    case ImplicitDeny => false
    case DefaultAllow => true
  }

  // ---- rules ----

  /** The block of addresses a rule matches. */
  function Region(r: Rule): Option<Prefix> {
    match r.kind
    case Ip(Some(a)) => Some(Single(a))
    case Cidr(block) => block
    case _ => None
  }

  predicate Matches(r: Rule, a: Address) {
    Region(r).Some? && Contains(Region(r).value, a)
  }

  lemma IpMatches(r: Rule, a: Address)
    requires r.kind.Ip?
    ensures Matches(r, a) <==> r.kind.address == Some(a)
  {
    if r.kind.address.Some? {
      SingleContains(r.kind.address.value, a);
    }
  }

  /** Only a known action ends the search. */
  predicate Decides(r: Rule, a: Address) {
    Matches(r, a) && r.action != OtherAction
  }

  predicate HasAllow(rules: seq<Rule>) {
    exists i :: 0 <= i < |rules| && rules[i].action == Allow
  }

  function FirstDecision(rules: seq<Rule>, a: Address): Option<Rule> {
    if rules == [] then None
    else if Decides(rules[0], a) then Some(rules[0])
    else FirstDecision(rules[1..], a)
  }

  function Decide(rules: seq<Rule>, a: Address): Decision {
    if rules == [] then NoRules
    else if FirstDecision(rules, a).Some? then Decided(FirstDecision(rules, a).value)
    else if HasAllow(rules) then ImplicitDeny
    else DefaultAllow
  }

  function Parsed(raws: RawRules): seq<Rule> {
    if raws == [] then []
    else
      var last := raws[|raws| - 1];
      Parsed(raws[..|raws| - 1]) +
      if last.Some? && last.value.kind.Some? && last.value.action.Some?
      then [Rule(last.value.kind.value, last.value.action.value)] else []
  }

  // ---- the service ----

  method ParseFirewallRules(data: Option<RawRules>) returns (rules: seq<Rule>)
    ensures rules == if data.Some? then Parsed(data.value) else []
  {
    rules := [];
    if data.None? {
      return;
    }
    var raws := data.value;
    for i := 0 to |raws|
      invariant rules == Parsed(raws[..i])
    {
      assert raws[..i + 1][..i] == raws[..i];
      var r := raws[i];
      if r.None? {
        continue;
      }
      if r.value.kind.Some? && r.value.action.Some? {
        rules := rules + [Rule(r.value.kind.value, r.value.action.value)];
      }
    }
    assert raws[..|raws|] == raws;
  }

  /** The policy is None when it cannot be read or has no data; the client when its address does not parse. */
  method CheckAccess(policy: Option<Option<RawRules>>, client: Option<Address>) returns (d: Decision)
    ensures policy.None? || policy.value.None? ==> d == NoRules
    ensures policy.Some? && policy.value.Some? ==>
              var rules := Parsed(policy.value.value);
              d == if rules != [] && client.None? then BadAddress
                   else if rules == [] then NoRules
                   else Decide(rules, client.value)
    ensures Allows(d) <==>
            || policy.None? || policy.value.None? || Parsed(policy.value.value) == []
            || (client.Some? && Admitted(Parsed(policy.value.value), client.value))
  {
    if policy.None? {
      return NoRules;
    }
    var rules := ParseFirewallRules(policy.value);
    if |rules| == 0 {
      return NoRules;
    }
    if client.None? {
      return BadAddress;
    }
    d := Evaluate(rules, client.value);
    AdmittedIff(rules, client.value);
  }

  method Evaluate(rules: seq<Rule>, a: Address) returns (d: Decision)
    requires rules != []
    ensures d == Decide(rules, a)
  {
    for i := 0 to |rules|
      invariant FirstDecision(rules, a) == FirstDecision(rules[i..], a)
    {
      var rule := rules[i];
      assert rules[i..][0] == rule && rules[i..][1..] == rules[i + 1..];
      var matched := false;
      match rule.kind {
        case Ip(address) =>
          if address.Some? && address.value == a {
            matched := true;
          }
          IpMatches(rule, a);
        case Cidr(block) =>
          if block.Some? && Contains(block.value, a) {
            matched := true;
          }
        case Country =>
          continue;
        case OtherKind =>
      }
      if matched && rule.action != OtherAction {
        return Decided(rule);
      }
    }
    var hasAllowRules := false;
    for i := 0 to |rules|
      invariant !hasAllowRules && !HasAllow(rules[..i])
    {
      if rules[i].action == Allow {
        hasAllowRules := true;
        break;
      }
    }
    assert rules[..|rules|] == rules;
    d := if hasAllowRules then ImplicitDeny else DefaultAllow;
  }

  // ---- the first decision ----

  /** The decision is that of a rule that decides the address while no earlier one does; without a
      decision no rule does. */
  lemma {:induction false} FirstDecisionIsFirst(rules: seq<Rule>, a: Address)
    ensures FirstDecision(rules, a).None? <==> forall i :: 0 <= i < |rules| ==> !Decides(rules[i], a)
    ensures FirstDecision(rules, a).Some? ==> exists i :: 0 <= i < |rules| && Decides(rules[i], a) &&
                                                          FirstDecision(rules, a).value == rules[i] &&
                                                          forall j :: 0 <= j < i ==> !Decides(rules[j], a)
  {
    if rules != [] && !Decides(rules[0], a) {
      FirstDecisionIsFirst(rules[1..], a);
      assert forall i :: 0 < i < |rules| ==> rules[i] == rules[1..][i - 1];
      if FirstDecision(rules, a).Some? {
        var i :| 0 <= i < |rules[1..]| && Decides(rules[1..][i], a) && FirstDecision(rules, a).value == rules[1..][i] &&
          forall j :: 0 <= j < i ==> !Decides(rules[1..][j], a);
        assert Decides(rules[i + 1], a) && forall j :: 0 <= j < i + 1 ==> !Decides(rules[j], a);
      }
    }
  }

  // ---- who is let in ----

  /** The address is the one the rule names, or lies in the aligned range its block stands for. */
  ghost predicate Names(r: Rule, a: Address) {
    match r.kind
    case Ip(address) => address == Some(a)
    case Cidr(block) => block.Some? && InRange(block.value, a)
    case _ => false
  }

  /** The rule answers for the address: with yes or with no. */
  ghost predicate Answers(r: Rule, a: Address) {
    Names(r, a) && r.action in {Allow, Deny, Report}
  }

  /** The first rule that answers does not deny; or none answers, and the list has no allow rule. */
  ghost predicate Admitted(rules: seq<Rule>, a: Address) {
    || (exists i :: 0 <= i < |rules| && Answers(rules[i], a) && rules[i].action != Deny
                    && forall j :: 0 <= j < i ==> !Answers(rules[j], a))
    || (forall i :: 0 <= i < |rules| ==> !Answers(rules[i], a) && rules[i].action != Allow)
  }

  lemma AnswersIff(r: Rule, a: Address)
    ensures Answers(r, a) <==> Decides(r, a)
  {
    match r.kind
    case Ip(_) => IpMatches(r, a);
    case Cidr(Some(block)) => ContainsIsRange(block, a);
    case _ =>
  }

  /** Main result: with rules, who is let in is decided by the first rule that answers, and by the
      presence of an allow rule when none does. */
  lemma AdmittedIff(rules: seq<Rule>, a: Address)
    requires rules != []
    ensures Allows(Decide(rules, a)) <==> Admitted(rules, a)
  {
    FirstDecisionIsFirst(rules, a);
    forall i | 0 <= i < |rules|
      ensures Answers(rules[i], a) <==> Decides(rules[i], a)
    {
      AnswersIff(rules[i], a);
    }
    if FirstDecision(rules, a).Some? {
      var i :| 0 <= i < |rules| && Decides(rules[i], a) && FirstDecision(rules, a).value == rules[i] &&
        forall j :: 0 <= j < i ==> !Decides(rules[j], a);
      assert Answers(rules[i], a) && forall j :: 0 <= j < i ==> !Answers(rules[j], a);
    }
  }

  /** A stored list is read entry by entry, in order ... */
  lemma {:induction false} ParsedConcat(raws: RawRules, more: RawRules)
    ensures Parsed(raws + more) == Parsed(raws) + Parsed(more)
  {
    if more == [] {
      assert raws + more == raws;
    } else {
      ParsedConcat(raws, more[..|more| - 1]);
      assert (raws + more)[..|raws + more| - 1] == raws + more[..|more| - 1];
    }
  }

  /** ... and an entry becomes a rule exactly when it is an object with both a type and an action. */
  lemma ParsedOne(raw: Option<Raw>)
    ensures Parsed([raw]) == match raw
                             case Some(Raw(Some(kind), Some(action))) => [Rule(kind, action)]
                             case _ => []
  {
    assert [raw][..0] == [];
  }

  lemma {:induction false} DecisionOfConcat(before: seq<Rule>, after: seq<Rule>, a: Address)
    ensures FirstDecision(before + after, a) ==
            if FirstDecision(before, a).Some? then FirstDecision(before, a) else FirstDecision(after, a)
  {
    if before == [] {
      assert before + after == after;
    } else {
      assert (before + after)[0] == before[0] && (before + after)[1..] == before[1..] + after;
      DecisionOfConcat(before[1..], after, a);
    }
  }

  lemma HasAllowConcat(before: seq<Rule>, after: seq<Rule>)
    ensures HasAllow(before + after) <==> HasAllow(before) || HasAllow(after)
  {
    if HasAllow(before) {
      var i :| 0 <= i < |before| && before[i].action == Allow;
      assert (before + after)[i].action == Allow;
    }
    if HasAllow(after) {
      var i :| 0 <= i < |after| && after[i].action == Allow;
      assert (before + after)[|before| + i].action == Allow;
    }
  }

  // ---- swapping neighbours ----

  predicate ValidRule(r: Rule) {
    Region(r).Some? ==> ValidPrefix(Region(r).value)
  }

  /** Every rule of a well-formed address is valid, and so is every rule that names none. */
  lemma RulesAreValid(r: Rule)
    requires r.kind.Ip? && r.kind.address.Some? ==> ValidAddress(r.kind.address.value)
    requires r.kind.Cidr? && r.kind.block.Some? ==>
               var p := r.kind.block.value; ValidAddress(p.base) && p.length <= (if p.base.family.V4? then 32 else 128)
    ensures ValidRule(r)
  {
  }

  /** Two rules that some address meets and that answer it differently; decided by comparing the blocks. */
  predicate Conflict(r: Rule, s: Rule) {
    && Region(r).Some? && Region(s).Some? && Overlap(Region(r).value, Region(s).value)
    && r.action != OtherAction && s.action != OtherAction && (r.action == Deny) != (s.action == Deny)
  }

  predicate SameAnswer(rules: seq<Rule>, other: seq<Rule>, a: Address) {
    Allows(Decide(rules, a)) == Allows(Decide(other, a))
  }

  lemma ConflictIff(r: Rule, s: Rule)
    requires ValidRule(r) && ValidRule(s)
    ensures Conflict(r, s) <==>
            exists a :: ValidAddress(a) && Decides(r, a) && Decides(s, a) && (r.action == Deny) != (s.action == Deny)
  {
    if Region(r).Some? && Region(s).Some? {
      OverlapIff(Region(r).value, Region(s).value);
    }
    if Conflict(r, s) {
      var a :| ValidAddress(a) && Contains(Region(r).value, a) && Contains(Region(s).value, a);
      assert Decides(r, a) && Decides(s, a);
    }
  }

  lemma SwappedPair(r: Rule, s: Rule, a: Address)
    ensures FirstDecision([r, s], a) == if Decides(r, a) then Some(r) else if Decides(s, a) then Some(s) else None
    ensures HasAllow([r, s]) <==> HasAllow([s, r])
  {
    assert [r, s] == [r] + [s] && [s, r] == [s] + [r];
    assert [s][1..] == [] && [r][1..] == [];
    DecisionOfConcat([r], [s], a);
    HasAllowConcat([r], [s]);
    HasAllowConcat([s], [r]);
  }

  lemma SwapKeepsAnswer(before: seq<Rule>, r: Rule, s: Rule, after: seq<Rule>, a: Address)
    requires !(Decides(r, a) && Decides(s, a) && (r.action == Deny) != (s.action == Deny))
    ensures SameAnswer(before + [r, s] + after, before + [s, r] + after, a)
  {
    SwappedPair(r, s, a);
    SwappedPair(s, r, a);
    DecisionOfConcat(before + [r, s], after, a);
    DecisionOfConcat(before, [r, s], a);
    DecisionOfConcat(before + [s, r], after, a);
    DecisionOfConcat(before, [s, r], a);
    HasAllowConcat(before + [r, s], after);
    HasAllowConcat(before, [r, s]);
    HasAllowConcat(before + [s, r], after);
    HasAllowConcat(before, [s, r]);
  }

  /** Neighbours can be swapped in every list without changing any answer exactly when they do not
      conflict. */
  lemma SwapPreservesIff(r: Rule, s: Rule)
    requires ValidRule(r) && ValidRule(s)
    ensures !Conflict(r, s) <==>
            forall before, after, a :: ValidAddress(a) ==> SameAnswer(before + [r, s] + after, before + [s, r] + after, a)
  {
    ConflictIff(r, s);
    if Conflict(r, s) {
      var a :| ValidAddress(a) && Decides(r, a) && Decides(s, a) && (r.action == Deny) != (s.action == Deny);
      SwappedPair(r, s, a);
      SwappedPair(s, r, a);
      assert [] + [r, s] + [] == [r, s] && [] + [s, r] + [] == [s, r];
      assert !SameAnswer([] + [r, s] + [], [] + [s, r] + [], a);
    } else {
      forall before, after, a | ValidAddress(a)
        ensures SameAnswer(before + [r, s] + after, before + [s, r] + after, a)
      {
        SwapKeepsAnswer(before, r, s, after, a);
      }
    }
  }

  // ---- deleting a covered rule ----

  /** An earlier rule with a known action whose block takes in the whole block of the later one. */
  predicate Covers(c: Rule, r: Rule) {
    && Region(c).Some? && c.action != OtherAction
    && (Region(r).Some? ==> Within(Region(r).value, Region(c).value))
  }

  predicate Undecided(rules: seq<Rule>, a: Address) {
    FirstDecision(rules, a).None?
  }

  lemma CoveredNeverDecides(before: seq<Rule>, i: nat, r: Rule, a: Address)
    requires i < |before| && Covers(before[i], r) && ValidRule(before[i]) && ValidRule(r) && ValidAddress(a)
    requires Decides(r, a)
    ensures FirstDecision(before, a).Some?
  {
    WithinIff(Region(r).value, Region(before[i]).value);
    assert Decides(before[i], a);
    FirstDecisionIsFirst(before, a);
  }

  lemma CoveredAnswers(before: seq<Rule>, i: nat, r: Rule, after: seq<Rule>, a: Address)
    requires i < |before| && Covers(before[i], r) && ValidRule(before[i]) && ValidRule(r) && ValidAddress(a)
    ensures FirstDecision(before + [r] + after, a) == FirstDecision(before + after, a)
  {
    if Decides(r, a) {
      CoveredNeverDecides(before, i, r, a);
    }
    assert [r][1..] == [];
    DecisionOfConcat(before + [r], after, a);
    DecisionOfConcat(before, [r], a);
    DecisionOfConcat(before, after, a);
  }

  /** A covered rule can be deleted without changing any answer exactly when it is not the last allow
      rule, or when the rules that stay decide every address. */
  lemma DeleteCoveredIff(before: seq<Rule>, i: nat, r: Rule, after: seq<Rule>)
    requires i < |before| && Covers(before[i], r) && ValidRule(before[i]) && ValidRule(r)
    ensures (forall a :: ValidAddress(a) ==> SameAnswer(before + [r] + after, before + after, a)) <==>
            (r.action == Allow ==> HasAllow(before + after)) ||
            forall a :: ValidAddress(a) ==> !Undecided(before + after, a)
  {
    HasAllowConcat(before + [r], after);
    HasAllowConcat(before, [r]);
    HasAllowConcat(before, after);
    assert HasAllow([r]) <==> r.action == Allow by {
      assert [r][0] == r;
    }
    forall a | ValidAddress(a)
      ensures SameAnswer(before + [r] + after, before + after, a) <==>
              (r.action == Allow ==> HasAllow(before + after)) || !Undecided(before + after, a)
    {
      CoveredAnswers(before, i, r, after, a);
    }
  }
}

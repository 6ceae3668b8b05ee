/** SignIn's use of the failed-login tracker: refuse while any of the user's organizations blocks the
    address, record a wrong password for all of them, clear them on a right one. */
module LoginGuard {
  import opened Wrappers
  import opened FailedLogin
  import opened Members

  datatype Outcome = Refused(minutes: nat) | WrongPassword | PasswordOk

  /** The first of the organizations that blocks the address. */
  function FirstBlock(cfgs: Configs, es: Entries, orgs: seq<nat>, ip: string, now: nat): (b: Option<nat>)
    ensures b.None? <==> forall o :: o in orgs ==> Blocked(cfgs, es, o, ip, now).None?
  {
    if orgs == [] then None
    else
      var b := Blocked(cfgs, es, orgs[0], ip, now);
      if b.Some? then b else FirstBlock(cfgs, es, orgs[1..], ip, now)
  }

  function FailAll(cfgs: Configs, es: Entries, orgs: seq<nat>, ip: string, now: nat): Entries {
    if orgs == [] then es
    else Fail(cfgs, FailAll(cfgs, es, orgs[..|orgs| - 1], ip, now), orgs[|orgs| - 1], ip, now)
  }

  function ClearAll(es: Entries, orgs: seq<nat>, ip: string): Entries {
    if orgs == [] then es else Clear(ClearAll(es, orgs[..|orgs| - 1], ip), orgs[|orgs| - 1], ip)
  }

  /** An unknown address (no client IP) skips the tracker altogether. */
  function Attempt(cfgs: Configs, es: Entries, orgs: seq<nat>, ip: string, right: bool, now: nat): (Entries, Outcome) {
    var verdict := if right then PasswordOk else WrongPassword;
    if ip == "" then (es, verdict)
    else
      var b := FirstBlock(cfgs, es, orgs, ip, now);
      if b.Some? then (es, Refused(b.value))
      else (if right then ClearAll(es, orgs, ip) else FailAll(cfgs, es, orgs, ip, now), verdict)
  }

  class AuthService {
    const tracker: Tracker

    constructor (tracker: Tracker)
      ensures this.tracker == tracker
    {
      this.tracker := tracker;
    }

    /** The part of SignIn from the membership lookup to the password verdict. */
    method CheckPassword(memberships: seq<Membership>, ip: string, right: bool, now: nat) returns (outcome: Outcome)
      modifies tracker
      ensures (tracker.entries, outcome) ==
              Attempt(tracker.configs, old(tracker.entries), ActiveOrgs(memberships), ip, right, now)
    {
      var orgs := GetUserOrgIDs(memberships);
      if ip != "" {
        for i := 0 to |orgs|
          invariant FirstBlock(tracker.configs, tracker.entries, orgs, ip, now)
                 == FirstBlock(tracker.configs, tracker.entries, orgs[i..], ip, now)
          invariant tracker.entries == old(tracker.entries)
        {
          var minutes := tracker.IsBlocked(orgs[i], ip, now);
          if minutes.Some? {
            return Refused(minutes.value);
          }
          assert orgs[i..][1..] == orgs[i + 1..];
        }
      }
      if !right {
        if ip != "" {
          for i := 0 to |orgs|
            invariant tracker.entries == FailAll(tracker.configs, old(tracker.entries), orgs[..i], ip, now)
          {
            assert orgs[..i + 1][..i] == orgs[..i];
            tracker.RecordFailedAttempt(orgs[i], ip, now);
          }
          assert orgs[..|orgs|] == orgs;
        }
        return WrongPassword;
      }
      if ip != "" {
        for i := 0 to |orgs|
          invariant tracker.entries == ClearAll(old(tracker.entries), orgs[..i], ip)
        {
          assert orgs[..i + 1][..i] == orgs[..i];
          tracker.RecordSuccess(orgs[i], ip);
        }
        assert orgs[..|orgs|] == orgs;
      }
      return PasswordOk;
    }
  }

  // ---- what one sign-in answers and records ----

  /** The first organization of the list that blocks the address, and the minutes it says. */
  predicate IsFirstBlock(cfgs: Configs, es: Entries, orgs: seq<nat>, ip: string, now: nat, minutes: nat) {
    exists i :: 0 <= i < |orgs| && Blocked(cfgs, es, orgs[i], ip, now) == Some(minutes)
                && forall j :: 0 <= j < i ==> Blocked(cfgs, es, orgs[j], ip, now).None?
  }

  lemma {:induction false} FirstBlockIsFirst(cfgs: Configs, es: Entries, orgs: seq<nat>, ip: string, now: nat)
    ensures FirstBlock(cfgs, es, orgs, ip, now).Some? ==>
              IsFirstBlock(cfgs, es, orgs, ip, now, FirstBlock(cfgs, es, orgs, ip, now).value)
  {
    var b := FirstBlock(cfgs, es, orgs, ip, now);
    if b.Some? && Blocked(cfgs, es, orgs[0], ip, now).None? {
      FirstBlockIsFirst(cfgs, es, orgs[1..], ip, now);
      var i :| 0 <= i < |orgs[1..]| && Blocked(cfgs, es, orgs[1..][i], ip, now) == b
               && forall j :: 0 <= j < i ==> Blocked(cfgs, es, orgs[1..][j], ip, now).None?;
      assert orgs[i + 1] == orgs[1..][i] && forall j :: 0 < j < i + 1 ==> orgs[j] == orgs[1..][j - 1];
    }
  }

  /** A sign-in is refused exactly when some active organization blocks its known address, with the minutes
      of the first that does; otherwise the password decides. */
  lemma AttemptAnswer(cfgs: Configs, es: Entries, orgs: seq<nat>, ip: string, right: bool, now: nat)
    ensures var outcome := Attempt(cfgs, es, orgs, ip, right, now).1;
            var blocked := ip != "" && exists o :: o in orgs && Blocked(cfgs, es, o, ip, now).Some?;
            && (outcome.Refused? <==> blocked)
            && (outcome.Refused? ==> IsFirstBlock(cfgs, es, orgs, ip, now, outcome.minutes))
            && (outcome == PasswordOk <==> !blocked && right)
            && (outcome == WrongPassword <==> !blocked && !right)
  {
    FirstBlockIsFirst(cfgs, es, orgs, ip, now);
  }

  /** An entry after so many more failures at one time. */
  function Repeated(c: Config, entry: Option<Entry>, now: nat, n: nat): Option<Entry> {
    if n == 0 then entry else Some(Record(c, Repeated(c, entry, now, n - 1), now))
  }

  lemma {:induction false} FailAllRecords(cfgs: Configs, es: Entries, orgs: seq<nat>, ip: string, now: nat, org: nat)
    requires org in cfgs
    ensures Lookup(FailAll(cfgs, es, orgs, ip, now), Key(org, ip)) ==
            Repeated(cfgs[org], Lookup(es, Key(org, ip)), now, multiset(orgs)[org])
  {
    if orgs != [] {
      var before, last := orgs[..|orgs| - 1], orgs[|orgs| - 1];
      FailAllRecords(cfgs, es, before, ip, now, org);
      assert orgs == before + [last];
      if last != org && Key(last, ip) == Key(org, ip) {
        KeyInjective(last, ip, org, ip);
      }
    }
  }

  lemma {:induction false} ClearAllClears(es: Entries, orgs: seq<nat>, ip: string)
    ensures ClearAll(es, orgs, ip) == es - set o | o in orgs :: Key(o, ip)
  {
    if orgs != [] {
      var before, last := orgs[..|orgs| - 1], orgs[|orgs| - 1];
      ClearAllClears(es, before, ip);
      assert orgs == before + [last];
      assert (set o | o in orgs :: Key(o, ip)) == (set o | o in before :: Key(o, ip)) + {Key(last, ip)};
    }
  }

  /** A right password clears the address in every active organization; a wrong one is recorded in each
      that counts failures; a refusal, and an unknown address, change nothing. */
  lemma AttemptRecords(cfgs: Configs, es: Entries, orgs: seq<nat>, ip: string, right: bool, now: nat, org: nat)
    ensures var (es', outcome) := Attempt(cfgs, es, orgs, ip, right, now);
            && (ip == "" || outcome.Refused? ==> es' == es)
            && (ip != "" && outcome == PasswordOk ==> es' == es - set o | o in orgs :: Key(o, ip))
            && (ip != "" && outcome == WrongPassword && org in cfgs ==>
                  Lookup(es', Key(org, ip)) == Repeated(cfgs[org], Lookup(es, Key(org, ip)), now, multiset(orgs)[org]))
  {
    ClearAllClears(es, orgs, ip);
    if org in cfgs {
      FailAllRecords(cfgs, es, orgs, ip, now, org);
    }
  }

  // ---- runs of the composed system ----

  datatype Step = SignedIn(memberships: seq<Membership>, ip: string, right: bool, at: nat) | SweptAt(at: nat)

  function Next(cfgs: Configs, es: Entries, s: Step): Entries {
    match s
    case SignedIn(ms, ip, right, at) => Attempt(cfgs, es, ActiveOrgs(ms), ip, right, at).0
    case SweptAt(at) => Sweep(es, at)
  }

  function After(cfgs: Configs, es: Entries, steps: seq<Step>): Entries {
    if steps == [] then es else Next(cfgs, After(cfgs, es, steps[..|steps| - 1]), steps[|steps| - 1])
  }

  predicate Within(steps: seq<Step>, from: nat, until: nat) {
    forall i :: 0 <= i < |steps| ==> from <= steps[i].at <= until
  }

  lemma {:induction false} OtherKeysKept(cfgs: Configs, es: Entries, orgs: seq<nat>, ip: string, now: nat, org: nat, ip': string)
    requires org !in orgs || ip != ip'
    ensures Lookup(FailAll(cfgs, es, orgs, ip, now), Key(org, ip')) == Lookup(es, Key(org, ip'))
    ensures Lookup(ClearAll(es, orgs, ip), Key(org, ip')) == Lookup(es, Key(org, ip'))
  {
    if orgs != [] {
      var last := orgs[|orgs| - 1];
      OtherKeysKept(cfgs, es, orgs[..|orgs| - 1], ip, now, org, ip');
      if Key(last, ip) == Key(org, ip') {
        KeyInjective(last, ip, org, ip');
      }
    }
  }

  /** The entry of the pair says it has been blocked since b. */
  predicate BlockedSince(es: Entries, org: nat, ip: string, b: nat) {
    Key(org, ip) in es && es[Key(org, ip)].blockedAt == Some(b)
  }

  lemma RefusedWhileBlocked(cfgs: Configs, es: Entries, org: nat, ip: string, b: nat, orgs: seq<nat>, right: bool, now: nat)
    requires org in cfgs && BlockedSince(es, org, ip, b) && b <= now <= b + cfgs[org].Block()
    requires ip != "" && org in orgs
    ensures Attempt(cfgs, es, orgs, ip, right, now).0 == es && Attempt(cfgs, es, orgs, ip, right, now).1.Refused?
  {
    assert Blocked(cfgs, es, org, ip, now).Some?;
  }

  /** No step inside the block touches the entry that carries it. */
  lemma StepKeepsBlock(cfgs: Configs, es: Entries, org: nat, ip: string, b: nat, s: Step)
    requires org in cfgs && cfgs[org].blockMinutes <= 120
    requires ip != "" && BlockedSince(es, org, ip, b) && b <= s.at <= b + cfgs[org].Block()
    ensures Lookup(Next(cfgs, es, s), Key(org, ip)) == Lookup(es, Key(org, ip))
  {
    if s.SignedIn? {
      var orgs := ActiveOrgs(s.memberships);
      if s.ip == ip && org in orgs {
        RefusedWhileBlocked(cfgs, es, org, ip, b, orgs, s.right, s.at);
      } else {
        OtherKeysKept(cfgs, es, orgs, s.ip, s.at, org, ip);
      }
    } else {
      assert !Stale(es[Key(org, ip)], s.at);
    }
  }

  lemma {:induction false} RunKeepsBlock(cfgs: Configs, es: Entries, org: nat, ip: string, b: nat, steps: seq<Step>, now: nat)
    requires org in cfgs && cfgs[org].blockMinutes <= 120
    requires ip != "" && BlockedSince(es, org, ip, b) && Within(steps, b, now) && b <= now <= b + cfgs[org].Block()
    ensures Lookup(After(cfgs, es, steps), Key(org, ip)) == Lookup(es, Key(org, ip))
  {
    if steps != [] {
      var before := steps[..|steps| - 1];
      RunKeepsBlock(cfgs, es, org, ip, b, before, now);
      StepKeepsBlock(cfgs, After(cfgs, es, before), org, ip, b, steps[|steps| - 1]);
    }
  }

  /** Whatever users and the sweeper do meanwhile, an active member signing in from a blocked address
      is refused until the whole block has passed, with the right password or without. */
  lemma BlockPersists(cfgs: Configs, es: Entries, org: nat, ip: string, b: nat, steps: seq<Step>,
                      ms: seq<Membership>, right: bool, now: nat)
    requires org in cfgs && cfgs[org].blockMinutes <= 120
    requires ip != "" && BlockedSince(es, org, ip, b) && Within(steps, b, now) && b <= now <= b + cfgs[org].Block()
    requires org in ActiveOrgs(ms)
    ensures Attempt(cfgs, After(cfgs, es, steps), ActiveOrgs(ms), ip, right, now).1.Refused?
  {
    RunKeepsBlock(cfgs, es, org, ip, b, steps, now);
    RefusedWhileBlocked(cfgs, After(cfgs, es, steps), org, ip, b, ActiveOrgs(ms), right, now);
  }

  // ---- exactly when blocks persist ----

  /** A sign-in by these members after two stretches of steps is refused. */
  predicate Refuses(cfgs: Configs, prior: seq<Step>, later: seq<Step>, ms: seq<Membership>, ip: string, right: bool, now: nat) {
    Attempt(cfgs, After(cfgs, After(cfgs, map[], prior), later), ActiveOrgs(ms), ip, right, now).1.Refused?
  }

  /** Every block that arises for the organization in a run from an empty tracker lasts its full time. */
  ghost predicate BlocksPersist(cfgs: Configs, org: nat)
    requires org in cfgs
  {
    forall prior, later, ms, ip, right, now: nat ::
      (&& ip != "" && org in ActiveOrgs(ms)
       && Key(org, ip) in After(cfgs, map[], prior)
       && var e := After(cfgs, map[], prior)[Key(org, ip)];
          e.blockedAt.Some? && Within(later, e.blockedAt.value, now)
          && e.blockedAt.value <= now <= e.blockedAt.value + cfgs[org].Block())
      ==> Refuses(cfgs, prior, later, ms, ip, right, now)
  }

  function Guesses(org: nat, n: nat): (g: seq<Step>)
    ensures |g| == n
  {
    seq(n, _ => SignedIn([Membership(org, Accepted)], "a", false, 0))
  }

  lemma SoleOrg(org: nat)
    ensures ActiveOrgs([Membership(org, Accepted)]) == [org]
  {
    var ms := [Membership(org, Accepted)];
    assert ms[..|ms| - 1] == [];
  }

  lemma OneGuess(cfgs: Configs, es: Entries, org: nat)
    requires org in cfgs && Blocked(cfgs, es, org, "a", 0).None?
    ensures Attempt(cfgs, es, [org], "a", false, 0).0 == Fail(cfgs, es, org, "a", 0)
  {
    var orgs := [org];
    assert orgs[1..] == [] && orgs[..|orgs| - 1] == [];
    assert FailAll(cfgs, es, orgs[..|orgs| - 1], "a", 0) == es;
  }

  /** The tracker after n wrong guesses at time zero. */
  function Guessed(cfgs: Configs, org: nat, n: nat): Entries
    requires org in cfgs
  {
    if n == 0 then map[]
    else map[Key(org, "a") := Entry(n, 0, if n >= cfgs[org].maxAttempts then Some(0) else None)]
  }

  lemma NextGuess(cfgs: Configs, org: nat, n: nat)
    requires org in cfgs && 1 <= n <= cfgs[org].Limit()
    ensures Blocked(cfgs, Guessed(cfgs, org, n - 1), org, "a", 0).None?
    ensures Fail(cfgs, Guessed(cfgs, org, n - 1), org, "a", 0) == Guessed(cfgs, org, n)
  {
  }

  /** Wrong guesses up to the limit block the address at once. */
  lemma {:induction false} GuessesBlock(cfgs: Configs, org: nat, n: nat)
    requires org in cfgs && n <= cfgs[org].Limit()
    ensures After(cfgs, map[], Guesses(org, n)) == Guessed(cfgs, org, n)
  {
    if n > 0 {
      var g, before := Guesses(org, n), Guesses(org, n - 1);
      assert g[..|g| - 1] == before;
      SoleOrg(org);
      GuessesBlock(cfgs, org, n - 1);
      NextGuess(cfgs, org, n);
      OneGuess(cfgs, After(cfgs, map[], before), org);
    }
  }

  lemma LongBlockIsLifted(cfgs: Configs, org: nat)
    requires org in cfgs && cfgs[org].blockMinutes > 120
    ensures !BlocksPersist(cfgs, org)
  {
    var late := MAX_AGE + 1;
    var prior, later, ms := Guesses(org, cfgs[org].Limit()), [SweptAt(late)], [Membership(org, Accepted)];
    GuessesBlock(cfgs, org, cfgs[org].Limit());
    SoleOrg(org);
    assert later[..|later| - 1] == [];
    var es := After(cfgs, map[], prior);
    assert After(cfgs, es, []) == es;
    assert After(cfgs, es, later) == Sweep(es, late) == map[];
    assert FirstBlock(cfgs, map[], [org], "a", late).None?;
    assert !Refuses(cfgs, prior, later, ms, "a", true, late);
  }

  /** Blocks outlast everything but their own time exactly when they fit the sweeper's age limit. */
  lemma BlocksPersistIff(cfgs: Configs, org: nat)
    requires org in cfgs
    ensures BlocksPersist(cfgs, org) <==> cfgs[org].blockMinutes <= 120
  {
    if cfgs[org].blockMinutes <= 120 {
      forall prior, later, ms, ip, right, now: nat |
        && ip != "" && org in ActiveOrgs(ms)
        && Key(org, ip) in After(cfgs, map[], prior)
        && var e := After(cfgs, map[], prior)[Key(org, ip)];
           e.blockedAt.Some? && Within(later, e.blockedAt.value, now)
           && e.blockedAt.value <= now <= e.blockedAt.value + cfgs[org].Block()
        ensures Refuses(cfgs, prior, later, ms, ip, right, now)
      {
        var es := After(cfgs, map[], prior);
        BlockPersists(cfgs, es, org, ip, es[Key(org, ip)].blockedAt.value, later, ms, right, now);
      }
    } else {
      LongBlockIsLifted(cfgs, org);
    }
  }

  /** The guard is needed: told of a failure during a block, the tracker alone drops the block exactly
      when that failure is late for its window and does not reach the limit by itself. */
  lemma TrackerAloneDropsBlockIff(c: Config, e: Entry, now: nat)
    requires e.blockedAt.Some? && e.firstFail <= e.blockedAt.value <= now <= e.blockedAt.value + c.Block()
    ensures BlockedEntry(c, Some(e), now).Some?
    ensures BlockedEntry(c, Some(Record(c, Some(e), now)), now).None?
       <==> now - e.firstFail > c.Window() && c.Limit() > 1
  {
    var r := Record(c, Some(e), now);
    if now - e.firstFail > c.Window() {
      assert r.blockedAt == if c.Limit() > 1 then None else Some(now);
    } else {
      assert r.blockedAt == e.blockedAt;
    }
  }
}

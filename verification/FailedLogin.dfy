/** The failed-login tracker: attempts per organization and address, a window that restarts on the
    first late failure, a block timer, and a sweeper that drops old entries. Times are nanoseconds. */
module FailedLogin {
  import opened Wrappers
  import Decimal

  /** The sweeper's fixed age limit, two hours. */
  const MAX_AGE: nat := 7_200_000_000_000

  // ---- configuration ----

  datatype Json = Num(n: real) | Other

  datatype Config = Config(maxAttempts: nat, windowMinutes: nat, blockMinutes: nat) {
    function Window(): nat { windowMinutes * 60_000_000_000 }
    function Block(): nat { blockMinutes * 60_000_000_000 }
    /** A limit of zero blocks on the first failure, exactly as a limit of one does. */
    function Limit(): (m: nat)
      ensures m >= 1 && (maxAttempts >= 1 ==> m == maxAttempts)
    {
      if maxAttempts == 0 then 1 else maxAttempts
    }
  }

  /** A number above zero, cut down to an integer; anything else leaves the default. */
  function Setting(data: map<string, Json>, name: string, default: nat): (v: nat)
    ensures v != default ==> name in data && data[name].Num? && data[name].n > 0.0
    ensures name in data && data[name].Num? && data[name].n > 0.0 ==> v as real <= data[name].n < v as real + 1.0
  {
    if name in data && data[name].Num? && data[name].n > 0.0 then data[name].n.Floor else default
  }

  /** The setting is the whole part of a number above zero, or else the default. */
  predicate Reads(data: map<string, Json>, name: string, default: nat, v: nat) {
    if name in data && data[name].Num? && data[name].n > 0.0 then v as real <= data[name].n < v as real + 1.0 else v == default
  }

  /** getConfig: None when the policy is absent or disabled. */
  function GetConfig(policy: Option<map<string, Json>>): (c: Option<Config>)
    ensures c.Some? <==> policy.Some?
    ensures c.Some? ==>
              && Reads(policy.value, "max_attempts", 5, c.value.maxAttempts)
              && Reads(policy.value, "window_minutes", 15, c.value.windowMinutes)
              && Reads(policy.value, "block_duration_minutes", 30, c.value.blockMinutes)
  {
    match policy
    case None => None
    case Some(data) =>
      Some(Config(Setting(data, "max_attempts", 5), Setting(data, "window_minutes", 15),
                  Setting(data, "block_duration_minutes", 30)))
  }

  /** The organizations whose policy is enabled, with their settings; fixed for a run. */
  type Configs = map<nat, Config>

  function Configured(policies: map<nat, Option<map<string, Json>>>): Configs {
    map org | org in policies && GetConfig(policies[org]).Some? :: GetConfig(policies[org]).value
  }

  // ---- entries ----

  datatype Entry = Entry(attempts: nat, firstFail: nat, blockedAt: Option<nat>)

  type Entries = map<string, Entry>

  function Key(org: nat, ip: string): string {
    Decimal.Print(org) + ":" + ip
  }

  /** Organization ids are printed without the separator, so no two pairs share an entry. */
  lemma KeyInjective(org1: nat, ip1: string, org2: nat, ip2: string)
    requires Key(org1, ip1) == Key(org2, ip2)
    ensures org1 == org2 && ip1 == ip2
  {
    Decimal.SplitAtSeparator(Decimal.Print(org1), Decimal.Print(org2), ':', ip1, ip2);
    Decimal.PrintInjective(org1, org2);
  }

  function Lookup(es: Entries, k: string): Option<Entry> {
    if k in es then Some(es[k]) else None
  }

  /** One failure recorded in one entry. */
  function Record(c: Config, entry: Option<Entry>, now: nat): Entry {
    var e := if entry.Some? then entry.value else Entry(0, now, None);
    var w := if now - e.firstFail > c.Window() then Entry(0, now, None) else e;
    var n := w.attempts + 1;
    Entry(n, w.firstFail, if n >= c.maxAttempts && w.blockedAt.None? then Some(now) else w.blockedAt)
  }

  function Fail(cfgs: Configs, es: Entries, org: nat, ip: string, now: nat): Entries {
    if org in cfgs then es[Key(org, ip) := Record(cfgs[org], Lookup(es, Key(org, ip)), now)] else es
  }

  /** The minutes the caller is told to wait, or None when the address is not blocked. */
  function Blocked(cfgs: Configs, es: Entries, org: nat, ip: string, now: nat): Option<nat> {
    if org in cfgs then BlockedEntry(cfgs[org], Lookup(es, Key(org, ip)), now) else None
  }

  function BlockedEntry(c: Config, entry: Option<Entry>, now: nat): Option<nat> {
    if entry.None? || entry.value.blockedAt.None? then None
    else
      var since := now - entry.value.blockedAt.value;
      if since > c.Block() then None else Some((c.Block() - since) / 60_000_000_000 + 1)
  }

  /** Waiting the minutes one is told is enough, and a minute less is not. */
  lemma ToldToWait(c: Config, e: Entry, now: nat, minutes: nat)
    requires e.blockedAt.Some? && e.blockedAt.value <= now && BlockedEntry(c, Some(e), now) == Some(minutes)
    ensures minutes >= 1
    ensures BlockedEntry(c, Some(e), now + minutes * 60_000_000_000).None?
    ensures BlockedEntry(c, Some(e), now + (minutes - 1) * 60_000_000_000).Some?
  {
  }

  function Clear(es: Entries, org: nat, ip: string): Entries {
    es - {Key(org, ip)}
  }

  predicate Stale(e: Entry, now: nat) {
    if e.blockedAt.Some? then now - e.blockedAt.value > MAX_AGE else now - e.firstFail > MAX_AGE
  }

  function Sweep(es: Entries, now: nat): Entries {
    map k | k in es && !Stale(es[k], now) :: es[k]
  }

  // ---- the tracker object ----

  class Tracker {
    const configs: Configs
    var entries: Entries

    constructor (policies: map<nat, Option<map<string, Json>>>)
      ensures configs == Configured(policies) && entries == map[]
    {
      configs := Configured(policies);
      entries := map[];
    }

    method RecordFailedAttempt(org: nat, ip: string, now: nat)
      modifies this
      ensures entries == Fail(configs, old(entries), org, ip, now)
    {
      if org !in configs {
        return;
      }
      var config := configs[org];
      var k := Key(org, ip);
      var entry := Entry(0, now, None);
      if k in entries {
        entry := entries[k];
      }
      if now - entry.firstFail > config.Window() {
        entry := entry.(attempts := 0, firstFail := now, blockedAt := None);
      }
      entry := entry.(attempts := entry.attempts + 1);
      if entry.attempts >= config.maxAttempts && entry.blockedAt == None {
        entry := entry.(blockedAt := Some(now));
      }
      entries := entries[k := entry];
    }

    method IsBlocked(org: nat, ip: string, now: nat) returns (minutes: Option<nat>)
      ensures minutes == Blocked(configs, entries, org, ip, now)
    {
      if org !in configs {
        return None;
      }
      var k := Key(org, ip);
      if k !in entries || entries[k].blockedAt == None {
        return None;
      }
      var blockDuration := configs[org].Block();
      var since := now - entries[k].blockedAt.value;
      if since > blockDuration {
        return None;
      }
      return Some((blockDuration - since) / 60_000_000_000 + 1);
    }

    method RecordSuccess(org: nat, ip: string)
      modifies this
      ensures entries == Clear(old(entries), org, ip)
    {
      entries := entries - {Key(org, ip)};
    }

    method Cleanup(now: nat)
      modifies this
      ensures entries == Sweep(old(entries), now)
    {
      var keys := entries.Keys;
      while keys != {}
        invariant keys <= entries.Keys <= old(entries).Keys
        invariant forall k :: k in old(entries) ==> (k in entries <==> k in keys || !Stale(old(entries)[k], now))
        invariant forall k :: k in entries ==> entries[k] == old(entries)[k]
        decreases |keys|
      {
        var k :| k in keys;
        keys := keys - {k};
        var entry := entries[k];
        if entry.blockedAt.Some? {
          if now - entry.blockedAt.value > MAX_AGE {
            entries := entries - {k};
          }
        } else if now - entry.firstFail > MAX_AGE {
          entries := entries - {k};
        }
      }
    }
  }

  // ---- runs ----

  datatype Event =
    | Failed(org: nat, ip: string, at: nat)
    | Succeeded(org: nat, ip: string, at: nat)
    | Asked(org: nat, ip: string, at: nat)
    | Swept(at: nat)

  function Apply(cfgs: Configs, es: Entries, ev: Event): Entries {
    match ev
    case Failed(org, ip, at) => Fail(cfgs, es, org, ip, at)
    case Succeeded(org, ip, _) => Clear(es, org, ip)
    case Asked(_, _, _) => es
    case Swept(at) => Sweep(es, at)
  }

  function Run(cfgs: Configs, es: Entries, evs: seq<Event>): Entries {
    if evs == [] then es else Apply(cfgs, Run(cfgs, es, evs[..|evs| - 1]), evs[|evs| - 1])
  }

  /** Everything a caller can see of a run: the answers to its questions, in order. */
  function Answers(cfgs: Configs, es: Entries, evs: seq<Event>): seq<Option<nat>> {
    if evs == [] then []
    else
      var before, ev := evs[..|evs| - 1], evs[|evs| - 1];
      Answers(cfgs, es, before) +
      if ev.Asked? then [Blocked(cfgs, Run(cfgs, es, before), ev.org, ev.ip, ev.at)] else []
  }

  lemma RunAppend(cfgs: Configs, es: Entries, evs: seq<Event>, ev: Event)
    ensures Run(cfgs, es, evs + [ev]) == Apply(cfgs, Run(cfgs, es, evs), ev)
  {
    assert (evs + [ev])[..|evs + [ev]| - 1] == evs;
  }

  lemma AnswersAppend(cfgs: Configs, es: Entries, evs: seq<Event>, ev: Event)
    ensures Answers(cfgs, es, evs + [ev]) == Answers(cfgs, es, evs) +
              if ev.Asked? then [Blocked(cfgs, Run(cfgs, es, evs), ev.org, ev.ip, ev.at)] else []
  {
    assert (evs + [ev])[..|evs + [ev]| - 1] == evs;
  }

  function WithoutSweeps(evs: seq<Event>): seq<Event> {
    if evs == [] then []
    else WithoutSweeps(evs[..|evs| - 1]) + if evs[|evs| - 1].Swept? then [] else [evs[|evs| - 1]]
  }

  /** Time does not run backwards, and every event falls in [from, until]. */
  predicate Chronological(evs: seq<Event>, from: nat, until: nat) {
    && from <= until
    && (forall i :: 0 <= i < |evs| ==> from <= evs[i].at <= until)
    && forall i, j :: 0 <= i < j < |evs| ==> evs[i].at <= evs[j].at
  }

  lemma ChronologicalAppend(evs: seq<Event>, ev: Event, from: nat, until: nat)
    requires Chronological(evs, from, ev.at) && ev.at <= until
    ensures Chronological(evs + [ev], from, until)
  {
  }

  /** A block never precedes the window it belongs to, and nothing lies in the future. */
  predicate WellTimed(es: Entries, now: nat) {
    forall k :: k in es ==>
      && es[k].firstFail <= now
      && (es[k].blockedAt.Some? ==> es[k].firstFail <= es[k].blockedAt.value <= now)
  }

  lemma {:induction false} RunIsWellTimed(cfgs: Configs, evs: seq<Event>, now: nat)
    requires Chronological(evs, 0, now)
    ensures WellTimed(Run(cfgs, map[], evs), now)
  {
    if evs != [] {
      RunIsWellTimed(cfgs, evs[..|evs| - 1], evs[|evs| - 1].at);
    }
  }
}

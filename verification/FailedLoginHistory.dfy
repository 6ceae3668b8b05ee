/** The tracker refines its event history: what an entry holds, and when it blocks, said in terms of
    the times of that pair's failures since its last success. */
module FailedLoginHistory {
  import opened Wrappers
  import opened FailedLogin
  import FailedLoginSweep

  /** The times of the failures of one (organization, address) pair since its last success. */
  function Failures(evs: seq<Event>, org: nat, ip: string): seq<nat> {
    if evs == [] then []
    else
      var h, ev := Failures(evs[..|evs| - 1], org, ip), evs[|evs| - 1];
      if ev.Failed? && ev.org == org && ev.ip == ip then h + [ev.at]
      else if ev.Succeeded? && ev.org == org && ev.ip == ip then []
      else h
  }

  /** Where the current window starts: at the last failure that came late for the window before it. */
  function WindowStart(w: nat, h: seq<nat>): (s: nat)
    requires h != []
    ensures s < |h|
    ensures forall i :: s <= i < |h| ==> h[i] - h[s] <= w
    ensures s > 0 ==> exists p :: 0 <= p < s && h[s] - h[p] > w
  {
    if |h| == 1 then 0
    else
      var s := WindowStart(w, h[..|h| - 1]);
      if h[|h| - 1] - h[s] > w then |h| - 1 else s
  }

  /** The failure that set off a block: the limit-th one of the window, if there has been one. */
  function BlockTime(c: Config, h: seq<nat>): (t: Option<nat>)
    requires h != []
  {
    var s := WindowStart(c.Window(), h);
    if |h| - s >= c.Limit() then Some(h[s + c.Limit() - 1]) else None
  }

  /** What the table must hold for a pair with this history. */
  function EntryOf(c: Config, h: seq<nat>): Option<Entry> {
    if h == [] then None
    else
      var s := WindowStart(c.Window(), h);
      Some(Entry(|h| - s, h[s], BlockTime(c, h)))
  }

  lemma FailuresAppend(evs: seq<Event>, ev: Event, org: nat, ip: string)
    ensures Failures(evs + [ev], org, ip) ==
            if ev.Failed? && ev.org == org && ev.ip == ip then Failures(evs, org, ip) + [ev.at]
            else if ev.Succeeded? && ev.org == org && ev.ip == ip then []
            else Failures(evs, org, ip)
  {
    assert (evs + [ev])[..|evs + [ev]| - 1] == evs;
  }

  /** One more failure moves the closed form exactly as it moves the stored entry. */
  lemma RecordExtends(c: Config, h: seq<nat>, now: nat)
    ensures Record(c, EntryOf(c, h), now) == EntryOf(c, h + [now]).value
  {
    var h' := h + [now];
    assert h'[..|h'| - 1] == h;
    if h != [] {
      var s := WindowStart(c.Window(), h);
      assert WindowStart(c.Window(), h') == if now - h[s] > c.Window() then |h| else s;
    }
  }

  predicate SweepFree(evs: seq<Event>) {
    forall i :: 0 <= i < |evs| ==> !evs[i].Swept?
  }

  /** Without sweeps the entry of every pair is the closed form of its own failures, and nothing
      another organization or another address does shows up in it. */
  lemma {:induction false} TrackerRefinesHistory(cfgs: Configs, evs: seq<Event>, org: nat, ip: string)
    requires org in cfgs && SweepFree(evs)
    ensures Lookup(Run(cfgs, map[], evs), Key(org, ip)) == EntryOf(cfgs[org], Failures(evs, org, ip))
  {
    if evs != [] {
      var before, ev := evs[..|evs| - 1], evs[|evs| - 1];
      assert evs == before + [ev];
      TrackerRefinesHistory(cfgs, before, org, ip);
      RunAppend(cfgs, map[], before, ev);
      FailuresAppend(before, ev, org, ip);
      RecordExtends(cfgs[org], Failures(before, org, ip), ev.at);
      if (ev.Failed? || ev.Succeeded?) && Key(ev.org, ev.ip) == Key(org, ip) {
        KeyInjective(ev.org, ev.ip, org, ip);
      }
    }
  }

  // ---- with sweeps ----

  predicate Ordered(h: seq<nat>, now: nat) {
    && (forall i :: 0 <= i < |h| ==> h[i] <= now)
    && (forall i, j :: 0 <= i < j < |h| ==> h[i] <= h[j])
  }

  lemma OrderedAppend(h: seq<nat>, at: nat, now: nat)
    requires Ordered(h, at) && at <= now
    ensures Ordered(h + [at], now) && Ordered(h, now)
  {
  }

  /** The times in a history do not run backwards. */
  lemma {:induction false} FailuresOrdered(evs: seq<Event>, org: nat, ip: string, now: nat)
    requires Chronological(evs, 0, now)
    ensures Ordered(Failures(evs, org, ip), now)
  {
    if evs != [] {
      var before, ev := evs[..|evs| - 1], evs[|evs| - 1];
      FailuresOrdered(before, org, ip, ev.at);
      OrderedAppend(Failures(before, org, ip), ev.at, now);
    }
  }

  /** The swept table holds the closed form of a pair, or lacks it because it is stale. */
  predicate HoldsOrStale(entry: Option<Entry>, c: Config, h: seq<nat>, now: nat) {
    entry == EntryOf(c, h) || (entry.None? && EntryOf(c, h).Some? && Stale(EntryOf(c, h).value, now))
  }

  lemma StaleHistoryActsAbsent(c: Config, h: seq<nat>, now: nat)
    requires FailedLoginSweep.Bounded(c) && EntryOf(c, h).Some? && Stale(EntryOf(c, h).value, now)
    requires Ordered(h, now)
    ensures BlockedEntry(c, EntryOf(c, h), now) == None && Record(c, EntryOf(c, h), now) == Record(c, None, now)
  {
    FailedLoginSweep.StaleActsAbsent(c, EntryOf(c, h).value, now);
  }

  lemma FailureKeepsHolding(c: Config, entry: Option<Entry>, h: seq<nat>, at: nat)
    requires FailedLoginSweep.Bounded(c) && HoldsOrStale(entry, c, h, at)
    requires Ordered(h, at)
    ensures Some(Record(c, entry, at)) == EntryOf(c, h + [at])
  {
    RecordExtends(c, h, at);
    if entry != EntryOf(c, h) {
      StaleHistoryActsAbsent(c, h, at);
    }
  }

  /** With settings within the sweeper's limit, whatever the others have, a pair's entry is the closed
      form of its failures unless that is stale. */
  lemma {:induction false} SweptEntry(cfgs: Configs, evs: seq<Event>, org: nat, ip: string, now: nat)
    requires org in cfgs && FailedLoginSweep.Bounded(cfgs[org]) && Chronological(evs, 0, now)
    ensures HoldsOrStale(Lookup(Run(cfgs, map[], evs), Key(org, ip)), cfgs[org], Failures(evs, org, ip), now)
  {
    if evs != [] {
      var before, ev := evs[..|evs| - 1], evs[|evs| - 1];
      assert evs == before + [ev];
      SweptEntry(cfgs, before, org, ip, ev.at);
      FailuresOrdered(before, org, ip, ev.at);
      RunAppend(cfgs, map[], before, ev);
      FailuresAppend(before, ev, org, ip);
      if (ev.Failed? || ev.Succeeded?) && Key(ev.org, ev.ip) == Key(org, ip) {
        KeyInjective(ev.org, ev.ip, org, ip);
        if ev.Failed? {
          FailureKeepsHolding(cfgs[org], Lookup(Run(cfgs, map[], before), Key(org, ip)), Failures(before, org, ip), ev.at);
        }
      }
    }
  }

  /** The entry is the closed form of the failures from number m on. */
  predicate HoldsFrom(entry: Option<Entry>, c: Config, h: seq<nat>, m: nat) {
    m <= |h| && entry == EntryOf(c, h[m..])
  }

  lemma FailureExtendsSuffix(c: Config, entry: Option<Entry>, h: seq<nat>, m: nat, at: nat)
    requires HoldsFrom(entry, c, h, m)
    ensures HoldsFrom(Some(Record(c, entry, at)), c, h + [at], m)
  {
    RecordExtends(c, h[m..], at);
    assert h[m..] + [at] == (h + [at])[m..];
  }

  /** What one event does to the entry of a pair. */
  lemma EntryAfter(cfgs: Configs, es: Entries, ev: Event, org: nat, ip: string)
    requires org in cfgs
    ensures var was, now := Lookup(es, Key(org, ip)), Lookup(Apply(cfgs, es, ev), Key(org, ip));
            match ev
            case Failed(o, i, at) => now == if o == org && i == ip then Some(Record(cfgs[org], was, at)) else was
            case Succeeded(o, i, _) => now == if o == org && i == ip then None else was
            case Asked(_, _, _) => now == was
            case Swept(at) => now == if was.Some? && Stale(was.value, at) then None else was
  {
    if (ev.Failed? || ev.Succeeded?) && Key(ev.org, ev.ip) == Key(org, ip) {
      KeyInjective(ev.org, ev.ip, org, ip);
    }
  }

  /** With any settings and sweeps at any times, a pair's entry is the closed form of the last of its
      failures, those since the sweeper last dropped it. */
  lemma {:induction false} EntryOfSuffix(cfgs: Configs, evs: seq<Event>, org: nat, ip: string) returns (m: nat)
    requires org in cfgs
    ensures HoldsFrom(Lookup(Run(cfgs, map[], evs), Key(org, ip)), cfgs[org], Failures(evs, org, ip), m)
  {
    if evs == [] {
      return 0;
    }
    var before, ev := evs[..|evs| - 1], evs[|evs| - 1];
    var h, es := Failures(before, org, ip), Run(cfgs, map[], before);
    m := EntryOfSuffix(cfgs, before, org, ip);
    EntryAfter(cfgs, es, ev, org, ip);
    FailureExtendsSuffix(cfgs[org], Lookup(es, Key(org, ip)), h, m, ev.at);
    if ev.Swept? && Lookup(es, Key(org, ip)) != Lookup(Sweep(es, ev.at), Key(org, ip)) {
      m := |h|;
    } else if ev.Succeeded? && ev.org == org && ev.ip == ip {
      m := 0;
    }
  }

  // ---- answers ----

  /** The answer a pair's history calls for. */
  function Verdict(c: Config, h: seq<nat>, now: nat): Option<nat> {
    BlockedEntry(c, EntryOf(c, h), now)
  }

  /** Without sweeps, whatever the settings, IsBlocked is decided by the pair's own failures alone ... */
  lemma UnsweptVerdict(cfgs: Configs, evs: seq<Event>, org: nat, ip: string, now: nat)
    requires org in cfgs && SweepFree(evs)
    ensures Blocked(cfgs, Run(cfgs, map[], evs), org, ip, now) == Verdict(cfgs[org], Failures(evs, org, ip), now)
  {
    TrackerRefinesHistory(cfgs, evs, org, ip);
  }

  /** ... and so it is in any run, swept at any times, when the organization's own settings are within
      the sweeper's limit. */
  lemma BlockedIsDecidedByHistory(cfgs: Configs, evs: seq<Event>, org: nat, ip: string, now: nat)
    requires org in cfgs && FailedLoginSweep.Bounded(cfgs[org]) && Chronological(evs, 0, now)
    ensures Blocked(cfgs, Run(cfgs, map[], evs), org, ip, now) == Verdict(cfgs[org], Failures(evs, org, ip), now)
  {
    var c, h := cfgs[org], Failures(evs, org, ip);
    SweptEntry(cfgs, evs, org, ip, now);
    FailuresOrdered(evs, org, ip, now);
    if EntryOf(c, h).Some? && Stale(EntryOf(c, h).value, now) {
      StaleHistoryActsAbsent(c, h, now);
    }
  }

  /** The limit-th of some failures that all fall within one window was no longer ago than the block. */
  ghost predicate EarnedBlock(c: Config, h: seq<nat>, now: nat) {
    exists i :: Earns(c, h, i, now)
  }

  predicate Earns(c: Config, h: seq<nat>, i: int, now: nat) {
    && 0 <= i && i + c.Limit() <= |h|
    && h[i + c.Limit() - 1] - h[i] <= c.Window() && now - h[i + c.Limit() - 1] <= c.Block()
  }

  lemma VerdictIsEarned(c: Config, h: seq<nat>, now: nat)
    requires Verdict(c, h, now).Some?
    ensures h != [] && Earns(c, h, WindowStart(c.Window(), h), now)
  {
  }

  /** A block is always earned, with any settings and sweeps at any times: at least the limit's number of
      failures since the last success, within one window. */
  lemma BlockImpliesEnoughFailures(cfgs: Configs, evs: seq<Event>, org: nat, ip: string, now: nat)
    requires org in cfgs
    requires Blocked(cfgs, Run(cfgs, map[], evs), org, ip, now).Some?
    ensures EarnedBlock(cfgs[org], Failures(evs, org, ip), now)
  {
    var c, h := cfgs[org], Failures(evs, org, ip);
    var m := EntryOfSuffix(cfgs, evs, org, ip);
    VerdictIsEarned(c, h[m..], now);
    var i := WindowStart(c.Window(), h[m..]);
    assert Earns(c, h, m + i, now);
  }

  /** The current window has reached the limit, and its limit-th failure is recent enough. */
  predicate WindowBlocks(c: Config, h: seq<nat>, now: nat) {
    h != [] && var s := WindowStart(c.Window(), h); s + c.Limit() <= |h| && now - h[s + c.Limit() - 1] <= c.Block()
  }

  /** Exactly when: for any settings without sweeps ... */
  lemma UnsweptBlockedIff(cfgs: Configs, evs: seq<Event>, org: nat, ip: string, now: nat)
    requires org in cfgs && SweepFree(evs)
    ensures Blocked(cfgs, Run(cfgs, map[], evs), org, ip, now).Some? <==> WindowBlocks(cfgs[org], Failures(evs, org, ip), now)
  {
    UnsweptVerdict(cfgs, evs, org, ip, now);
  }

  /** ... and with sweeps for settings within the sweeper's limit. */
  lemma BlockedIff(cfgs: Configs, evs: seq<Event>, org: nat, ip: string, now: nat)
    requires org in cfgs && FailedLoginSweep.Bounded(cfgs[org]) && Chronological(evs, 0, now)
    ensures Blocked(cfgs, Run(cfgs, map[], evs), org, ip, now).Some? <==> WindowBlocks(cfgs[org], Failures(evs, org, ip), now)
  {
    BlockedIsDecidedByHistory(cfgs, evs, org, ip, now);
  }

  /** Earning a block is not enough to be blocked: once a window has blocked, its later failures do
      not block again, so an address whose block has run out goes free until the window ends. */
  lemma EarnedBlockMayNotHold()
    ensures var c := Config(2, 60, 5);
            var h := [0, 1, 600_000_000_000, 600_000_000_001];
            EarnedBlock(c, h, 600_000_000_001) && Verdict(c, h, 600_000_000_001) == None
  {
    var c := Config(2, 60, 5);
    var h := [0, 1, 600_000_000_000, 600_000_000_001];
    assert Earns(c, h, 2, 600_000_000_001);
    assert h[..3] == [0, 1, 600_000_000_000] && h[..3][..2] == [0, 1] && [0, 1][..1] == [0];
    assert WindowStart(c.Window(), [0]) == 0;
    assert WindowStart(c.Window(), [0, 1]) == 0;
    assert WindowStart(c.Window(), h[..3]) == 0;
    assert WindowStart(c.Window(), h) == 0;
  }
}

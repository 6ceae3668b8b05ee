/** When the background sweeper can be noticed: exactly when some window or block outlasts its
    two-hour age limit. */
module FailedLoginSweep {
  import opened Wrappers
  import opened FailedLogin

  predicate Bounded(c: Config) {
    c.windowMinutes <= 120 && c.blockMinutes <= 120
  }

  predicate AllBounded(cfgs: Configs) {
    forall org :: org in cfgs ==> Bounded(cfgs[org])
  }

  /** The simulation: a swept table may lack an entry only when that entry is stale. */
  predicate Simulates(swept: Entries, full: Entries, now: nat) {
    && (forall k :: k in swept ==> k in full && swept[k] == full[k])
    && (forall k :: k in full && k !in swept ==> Stale(full[k], now))
  }

  /** A stale entry behaves like a missing one: it blocks nobody, and the next failure restarts it. */
  lemma StaleActsAbsent(c: Config, e: Entry, now: nat)
    requires Bounded(c) && Stale(e, now)
    requires e.blockedAt.Some? ==> e.firstFail <= e.blockedAt.value
    ensures BlockedEntry(c, Some(e), now) == None
    ensures Record(c, Some(e), now) == Record(c, None, now)
  {
    assert c.Window() <= MAX_AGE && c.Block() <= MAX_AGE;
  }

  lemma LaterKeepsSimulation(swept: Entries, full: Entries, at: nat, now: nat)
    requires Simulates(swept, full, at) && at <= now
    ensures Simulates(swept, full, now)
  {
  }

  /** Either both tables hold the same entry of a pair, or the swept one lacks a stale one. */
  lemma EntriesActAlike(c: Config, swept: Entries, full: Entries, k: string, now: nat)
    requires Bounded(c) && WellTimed(full, now) && Simulates(swept, full, now)
    ensures BlockedEntry(c, Lookup(swept, k), now) == BlockedEntry(c, Lookup(full, k), now)
    ensures Record(c, Lookup(swept, k), now) == Record(c, Lookup(full, k), now)
  {
    if k in full && k !in swept {
      StaleActsAbsent(c, full[k], now);
    }
  }

  lemma FailPreservesSimulation(cfgs: Configs, swept: Entries, full: Entries, org: nat, ip: string, at: nat)
    requires AllBounded(cfgs) && WellTimed(full, at) && Simulates(swept, full, at)
    ensures Simulates(Fail(cfgs, swept, org, ip, at), Fail(cfgs, full, org, ip, at), at)
  {
    if org in cfgs {
      EntriesActAlike(cfgs[org], swept, full, Key(org, ip), at);
    }
  }

  lemma ClearPreservesSimulation(swept: Entries, full: Entries, org: nat, ip: string, at: nat)
    requires Simulates(swept, full, at)
    ensures Simulates(Clear(swept, org, ip), Clear(full, org, ip), at)
  {
  }

  lemma SweepPreservesSimulation(swept: Entries, full: Entries, at: nat)
    requires Simulates(swept, full, at)
    ensures Simulates(Sweep(swept, at), full, at)
  {
  }

  lemma QuestionsAgree(cfgs: Configs, swept: Entries, full: Entries, org: nat, ip: string, at: nat)
    requires AllBounded(cfgs) && WellTimed(full, at) && Simulates(swept, full, at)
    ensures Blocked(cfgs, swept, org, ip, at) == Blocked(cfgs, full, org, ip, at)
  {
    if org in cfgs {
      EntriesActAlike(cfgs[org], swept, full, Key(org, ip), at);
    }
  }

  lemma StepPreservesSimulation(cfgs: Configs, swept: Entries, full: Entries, ev: Event, now: nat)
    requires AllBounded(cfgs) && WellTimed(full, ev.at) && Simulates(swept, full, ev.at) && ev.at <= now
    ensures Simulates(Apply(cfgs, swept, ev), if ev.Swept? then full else Apply(cfgs, full, ev), now)
  {
    match ev {
      case Failed(org, ip, at) => FailPreservesSimulation(cfgs, swept, full, org, ip, at);
      case Succeeded(org, ip, at) => ClearPreservesSimulation(swept, full, org, ip, at);
      case Asked(_, _, _) =>
      case Swept(at) => SweepPreservesSimulation(swept, full, at);
    }
    LaterKeepsSimulation(Apply(cfgs, swept, ev), if ev.Swept? then full else Apply(cfgs, full, ev), ev.at, now);
  }

  lemma WithoutSweepsChronological(evs: seq<Event>, from: nat, now: nat)
    requires Chronological(evs, from, now)
    ensures Chronological(WithoutSweeps(evs), from, now)
  {
    if evs != [] {
      var last := evs[|evs| - 1];
      WithoutSweepsChronological(evs[..|evs| - 1], from, last.at);
    }
  }

  lemma WithoutSweepsAppend(evs: seq<Event>, ev: Event)
    ensures WithoutSweeps(evs + [ev]) == if ev.Swept? then WithoutSweeps(evs) else WithoutSweeps(evs) + [ev]
  {
    assert (evs + [ev])[..|evs + [ev]| - 1] == evs;
  }

  /** Along any run the swept and the never-swept table stay related ... */
  lemma {:induction false} RunSimulates(cfgs: Configs, evs: seq<Event>, now: nat)
    requires AllBounded(cfgs) && Chronological(evs, 0, now)
    ensures Simulates(Run(cfgs, map[], evs), Run(cfgs, map[], WithoutSweeps(evs)), now)
  {
    if evs == [] {
      assert WithoutSweeps(evs) == [];
    } else {
      var before, ev := evs[..|evs| - 1], evs[|evs| - 1];
      var kept := WithoutSweeps(before);
      assert evs == before + [ev];
      RunSimulates(cfgs, before, ev.at);
      WithoutSweepsChronological(before, 0, ev.at);
      RunIsWellTimed(cfgs, kept, ev.at);
      StepPreservesSimulation(cfgs, Run(cfgs, map[], before), Run(cfgs, map[], kept), ev, now);
      RunAppend(cfgs, map[], before, ev);
      RunAppend(cfgs, map[], kept, ev);
      WithoutSweepsAppend(before, ev);
    }
  }

  /** ... and answer alike. */
  lemma {:induction false} RunAnswersAlike(cfgs: Configs, evs: seq<Event>, now: nat)
    requires AllBounded(cfgs) && Chronological(evs, 0, now)
    ensures SameAnswers(cfgs, evs)
  {
    if evs == [] {
      assert WithoutSweeps(evs) == [];
    } else {
      var before, ev := evs[..|evs| - 1], evs[|evs| - 1];
      var kept := WithoutSweeps(before);
      assert evs == before + [ev];
      RunAnswersAlike(cfgs, before, ev.at);
      RunSimulates(cfgs, before, ev.at);
      WithoutSweepsChronological(before, 0, ev.at);
      RunIsWellTimed(cfgs, kept, ev.at);
      if ev.Asked? {
        QuestionsAgree(cfgs, Run(cfgs, map[], before), Run(cfgs, map[], kept), ev.org, ev.ip, ev.at);
      }
      AnswersAppend(cfgs, map[], before, ev);
      AnswersAppend(cfgs, map[], kept, ev);
      WithoutSweepsAppend(before, ev);
    }
  }

  // ---- the other direction ----

  /** The sweeper makes no visible difference to any run of a tracker with these settings. */
  ghost predicate Unobservable(cfgs: Configs) {
    forall evs, now | Chronological(evs, 0, now) :: SameAnswers(cfgs, evs)
  }

  predicate SameAnswers(cfgs: Configs, evs: seq<Event>) {
    Answers(cfgs, map[], evs) == Answers(cfgs, map[], WithoutSweeps(evs))
  }

  function Burst(org: nat, ip: string, n: nat, at: nat): seq<Event> {
    if n == 0 then [] else Burst(org, ip, n - 1, at) + [Failed(org, ip, at)]
  }

  lemma {:induction false} BurstElements(org: nat, ip: string, n: nat, at: nat)
    ensures |Burst(org, ip, n, at)| == n
    ensures forall i :: 0 <= i < n ==> Burst(org, ip, n, at)[i] == Failed(org, ip, at)
  {
    if n > 0 {
      BurstElements(org, ip, n - 1, at);
    }
  }

  lemma BurstIsChronological(org: nat, ip: string, n: nat, at: nat, late: nat)
    requires at <= late
    ensures Chronological(Burst(org, ip, n, at), at, late)
  {
    BurstElements(org, ip, n, at);
  }

  lemma {:induction false} BurstIsSilent(cfgs: Configs, org: nat, ip: string, n: nat, at: nat)
    ensures WithoutSweeps(Burst(org, ip, n, at)) == Burst(org, ip, n, at)
    ensures Answers(cfgs, map[], Burst(org, ip, n, at)) == []
  {
    if n > 0 {
      BurstIsSilent(cfgs, org, ip, n - 1, at);
      AnswersAppend(cfgs, map[], Burst(org, ip, n - 1, at), Failed(org, ip, at));
      WithoutSweepsAppend(Burst(org, ip, n - 1, at), Failed(org, ip, at));
    }
  }

  /** The tracker after n failures of one pair at one instant. */
  function BurstTable(c: Config, k: string, n: nat, at: nat): Entries {
    if n == 0 then map[] else map[k := Entry(n, at, if n >= c.maxAttempts then Some(at) else None)]
  }

  lemma BurstFails(cfgs: Configs, org: nat, ip: string, n: nat, at: nat)
    requires org in cfgs
    ensures Fail(cfgs, BurstTable(cfgs[org], Key(org, ip), n, at), org, ip, at) == BurstTable(cfgs[org], Key(org, ip), n + 1, at)
  {
  }

  /** Failures at one instant count up and block at the limit. */
  lemma {:induction false} BurstEffect(cfgs: Configs, org: nat, ip: string, n: nat, at: nat)
    requires org in cfgs
    ensures Run(cfgs, map[], Burst(org, ip, n, at)) == BurstTable(cfgs[org], Key(org, ip), n, at)
  {
    if n > 0 {
      BurstEffect(cfgs, org, ip, n - 1, at);
      BurstFails(cfgs, org, ip, n - 1, at);
      RunAppend(cfgs, map[], Burst(org, ip, n - 1, at), Failed(org, ip, at));
    }
  }

  /** A silent run and the same run without its sweeps, told apart by one question at the end. */
  lemma ToldApart(cfgs: Configs, evs: seq<Event>, kept: seq<Event>, org: nat, at: nat)
    requires Chronological(evs, 0, at)
    requires kept == WithoutSweeps(evs) && Answers(cfgs, map[], evs) == [] == Answers(cfgs, map[], kept)
    requires Blocked(cfgs, Run(cfgs, map[], evs), org, "", at) != Blocked(cfgs, Run(cfgs, map[], kept), org, "", at)
    ensures !Unobservable(cfgs)
  {
    var ask := Asked(org, "", at);
    AnswersAppend(cfgs, map[], evs, ask);
    AnswersAppend(cfgs, map[], kept, ask);
    WithoutSweepsAppend(evs, ask);
    assert Answers(cfgs, map[], evs + [ask])[0] != Answers(cfgs, map[], kept + [ask])[0];
    assert !SameAnswers(cfgs, evs + [ask]);
    ChronologicalAppend(evs, ask, 0, at);
  }

  lemma SweptBurst(cfgs: Configs, org: nat, n: nat, late: nat)
    requires org in cfgs && n >= 1 && late > MAX_AGE
    ensures Run(cfgs, map[], Burst(org, "", n, 0) + [Swept(late)]) == map[]
  {
    BurstEffect(cfgs, org, "", n, 0);
    RunAppend(cfgs, map[], Burst(org, "", n, 0), Swept(late));
  }

  /** The part of a counterexample that is only about the shape of the run. */
  lemma SweptBurstIsSilent(cfgs: Configs, org: nat, n: nat, late: nat)
    ensures Chronological(Burst(org, "", n, 0) + [Swept(late)], 0, late)
    ensures WithoutSweeps(Burst(org, "", n, 0) + [Swept(late)]) == Burst(org, "", n, 0)
    ensures Answers(cfgs, map[], Burst(org, "", n, 0) + [Swept(late)]) == []
    ensures Answers(cfgs, map[], Burst(org, "", n, 0)) == []
  {
    var burst := Burst(org, "", n, 0);
    BurstIsSilent(cfgs, org, "", n, 0);
    BurstIsChronological(org, "", n, 0, late);
    AnswersAppend(cfgs, map[], burst, Swept(late));
    WithoutSweepsAppend(burst, Swept(late));
    ChronologicalAppend(burst, Swept(late), 0, late);
  }

  /** A block longer than two hours is lifted early by a sweep. */
  lemma LongBlockIsNoticed(cfgs: Configs, org: nat)
    requires org in cfgs && cfgs[org].blockMinutes > 120
    ensures !Unobservable(cfgs)
  {
    var late, n := MAX_AGE + 1, cfgs[org].Limit();
    var burst := Burst(org, "", n, 0);
    SweptBurstIsSilent(cfgs, org, n, late);
    assert Blocked(cfgs, Run(cfgs, map[], burst), org, "", late).Some? by {
      BurstEffect(cfgs, org, "", n, 0);
    }
    assert Blocked(cfgs, Run(cfgs, map[], burst + [Swept(late)]), org, "", late).None? by {
      SweptBurst(cfgs, org, n, late);
    }
    ToldApart(cfgs, burst + [Swept(late)], burst, org, late);
  }

  lemma LateFailureIsSilent(cfgs: Configs, org: nat, n: nat, late: nat)
    ensures Chronological(Burst(org, "", n, 0) + [Swept(late)] + [Failed(org, "", late)], 0, late)
    ensures WithoutSweeps(Burst(org, "", n, 0) + [Swept(late)] + [Failed(org, "", late)])
         == Burst(org, "", n, 0) + [Failed(org, "", late)]
    ensures Answers(cfgs, map[], Burst(org, "", n, 0) + [Swept(late)] + [Failed(org, "", late)]) == []
    ensures Answers(cfgs, map[], Burst(org, "", n, 0) + [Failed(org, "", late)]) == []
  {
    var burst, fail := Burst(org, "", n, 0), Failed(org, "", late);
    SweptBurstIsSilent(cfgs, org, n, late);
    AnswersAppend(cfgs, map[], burst + [Swept(late)], fail);
    AnswersAppend(cfgs, map[], burst, fail);
    WithoutSweepsAppend(burst + [Swept(late)], fail);
    ChronologicalAppend(burst + [Swept(late)], fail, 0, late);
  }

  lemma FailAfterSweep(cfgs: Configs, org: nat, n: nat, late: nat)
    requires org in cfgs && n >= 1 && late > MAX_AGE
    ensures var evs := Burst(org, "", n, 0) + [Swept(late)] + [Failed(org, "", late)];
            Blocked(cfgs, Run(cfgs, map[], evs), org, "", late).Some? <==> cfgs[org].Limit() == 1
  {
    SweptBurst(cfgs, org, n, late);
    RunAppend(cfgs, map[], Burst(org, "", n, 0) + [Swept(late)], Failed(org, "", late));
  }

  lemma FailUnswept(cfgs: Configs, org: nat, n: nat, late: nat)
    requires org in cfgs && n >= 1 && cfgs[org].Block() < late <= cfgs[org].Window()
    ensures var evs := Burst(org, "", n, 0) + [Failed(org, "", late)];
            Blocked(cfgs, Run(cfgs, map[], evs), org, "", late).Some? <==> n + 1 == cfgs[org].Limit()
  {
    BurstEffect(cfgs, org, "", n, 0);
    RunAppend(cfgs, map[], Burst(org, "", n, 0), Failed(org, "", late));
  }

  /** With a longer window a sweep forgets failures that would still have counted. */
  lemma LongWindowIsNoticed(cfgs: Configs, org: nat)
    requires org in cfgs && cfgs[org].windowMinutes > 120 && cfgs[org].blockMinutes <= 120
    ensures !Unobservable(cfgs)
  {
    var late := MAX_AGE + 1;
    var n := if cfgs[org].Limit() == 1 then 1 else cfgs[org].Limit() - 1;
    LateFailureIsSilent(cfgs, org, n, late);
    FailAfterSweep(cfgs, org, n, late);
    FailUnswept(cfgs, org, n, late);
    ToldApart(cfgs, Burst(org, "", n, 0) + [Swept(late)] + [Failed(org, "", late)],
              Burst(org, "", n, 0) + [Failed(org, "", late)], org, late);
  }

  /** The sweeper is unobservable exactly when every window and every block fits its age limit. */
  lemma SweepUnobservableIffBounded(cfgs: Configs)
    ensures Unobservable(cfgs) <==> AllBounded(cfgs)
  {
    if AllBounded(cfgs) {
      forall evs, now | Chronological(evs, 0, now)
        ensures SameAnswers(cfgs, evs)
      {
        RunAnswersAlike(cfgs, evs, now);
      }
    } else {
      var org :| org in cfgs && !Bounded(cfgs[org]);
      if cfgs[org].blockMinutes > 120 {
        LongBlockIsNoticed(cfgs, org);
      } else {
        LongWindowIsNoticed(cfgs, org);
      }
    }
  }
}

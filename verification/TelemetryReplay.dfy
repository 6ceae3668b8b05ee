/** What deduplication guarantees: one row per key and window over whole runs, no report lost, and when
    replaying a batch stores nothing. */
module TelemetryReplay {
  import opened Strings
  import opened TelemetryIngest

  /** Seven days of 24 hours, in nanoseconds. */
  const SEVEN_DAYS: int := 7 * 24 * 3_600_000_000_000

  // ---- one batch ----

  function Keys(events: seq<Event>): set<string> {
    set i | 0 <= i < |events| :: Key(events[i])
  }

  /** The keys of the events that sampling keeps. */
  function ReportedKeys(events: seq<Event>): set<string> {
    set i | 0 <= i < |events| && !SampledOut(events[i]) :: Key(events[i])
  }

  predicate DistinctKeys(events: seq<Event>) {
    forall i, j :: 0 <= i < j < |events| ==> Key(events[i]) != Key(events[j])
  }

  lemma KeysAppend(events: seq<Event>, e: Event)
    ensures Keys(events + [e]) == Keys(events) + {Key(e)}
  {
    assert (events + [e])[|events|] == e;
    assert forall i :: 0 <= i < |events| ==> (events + [e])[i] == events[i];
  }

  lemma DistinctAppend(events: seq<Event>, e: Event)
    requires DistinctKeys(events) && Key(e) !in Keys(events)
    ensures DistinctKeys(events + [e])
  {
    assert forall i :: 0 <= i < |events| ==> Key(events[i]) in Keys(events);
  }

  predicate Consistent(kept: seq<Event>, seen: set<string>, known: set<string>) {
    DistinctKeys(kept) && Keys(kept) == seen - known && known <= seen
  }

  lemma KeepStep(kept: seq<Event>, e: Event, known: set<string>, seen: set<string>)
    requires Consistent(kept, seen, known) && Key(e) !in seen
    ensures Consistent(kept + [e], seen + {Key(e)}, known)
  {
    KeysAppend(kept, e);
    DistinctAppend(kept, e);
  }

  lemma FilteredNext(known: set<string>, events: seq<Event>, n: nat)
    requires n < |events|
    ensures var kept, seen := Filtered(known, events, n), Seen(known, events, n);
            Filtered(known, events, n + 1) ==
            if !SampledOut(events[n]) && Key(events[n]) !in seen then kept + [events[n]] else kept
  {
    KeptIffUnseen(known, events, n);
  }

  /** An event that sampling drops, or whose key has been seen, changes neither list nor key set. */
  lemma SkippedEvent(known: set<string>, events: seq<Event>, n: nat)
    requires n < |events| && (SampledOut(events[n]) || Key(events[n]) in Seen(known, events, n))
    ensures Filtered(known, events, n + 1) == Filtered(known, events, n)
    ensures Seen(known, events, n + 1) == Seen(known, events, n)
  {
    FilteredNext(known, events, n);
  }

  lemma KeptEvent(known: set<string>, events: seq<Event>, n: nat)
    requires n < |events| && !SampledOut(events[n]) && Key(events[n]) !in Seen(known, events, n)
    ensures Filtered(known, events, n + 1) == Filtered(known, events, n) + [events[n]]
    ensures Seen(known, events, n + 1) == Seen(known, events, n) + {Key(events[n])}
  {
    FilteredNext(known, events, n);
  }

  lemma ConsistentNext(known: set<string>, events: seq<Event>, n: nat)
    requires n < |events| && Consistent(Filtered(known, events, n), Seen(known, events, n), known)
    ensures Consistent(Filtered(known, events, n + 1), Seen(known, events, n + 1), known)
  {
    if SampledOut(events[n]) || Key(events[n]) in Seen(known, events, n) {
      SkippedEvent(known, events, n);
    } else {
      KeptEvent(known, events, n);
      KeepStep(Filtered(known, events, n), events[n], known, Seen(known, events, n));
    }
  }

  lemma {:induction false} FilteredKeys(known: set<string>, events: seq<Event>, n: nat)
    requires n <= |events|
    ensures Consistent(Filtered(known, events, n), Seen(known, events, n), known)
  {
    if n == 0 {
      NoKeys([]);
    } else {
      FilteredKeys(known, events, n - 1);
      ConsistentNext(known, events, n - 1);
    }
  }

  lemma SeenAtEnd(known: set<string>, events: seq<Event>)
    ensures Seen(known, events, |events|) == known + ReportedKeys(events)
  {
    forall k
      ensures k in Seen(known, events, |events|) <==> k in known + ReportedKeys(events)
    {
      SeenIff(known, events, |events|, k);
    }
  }

  /** A batch adds one row for each reported key that has none in the window, and no other. */
  lemma StoredKeys(store: Store, events: seq<Event>, now: int)
    ensures DistinctKeys(Stored(store, events, now))
    ensures Keys(Stored(store, events, now)) == ReportedKeys(events) - Existing(store, now)
  {
    FilteredKeys(Existing(store, now), events, |events|);
    SeenAtEnd(Existing(store, now), events);
  }

  lemma EmptyDifference<T>(a: set<T>, b: set<T>)
    ensures a - b == {} <==> a <= b
  {
    assert forall x :: x in a && x !in b ==> x in a - b;
  }

  lemma NoKeys(events: seq<Event>)
    ensures Keys(events) == {} <==> events == []
  {
    if events != [] {
      assert Key(events[0]) in Keys(events);
    }
  }

  lemma NothingStored(store: Store, events: seq<Event>, now: int)
    ensures Stored(store, events, now) == [] <==> ReportedKeys(events) <= Existing(store, now)
  {
    StoredKeys(store, events, now);
    NoKeys(Stored(store, events, now));
    EmptyDifference(ReportedKeys(events), Existing(store, now));
  }

  // ---- replay ----

  lemma ExistingConcat(a: Store, b: Store, now: int)
    ensures Existing(a + b, now) == Existing(a, now) + Existing(b, now)
  {
    forall k | k in Existing(a + b, now)
      ensures k in Existing(a, now) + Existing(b, now)
    {
      var i :| 0 <= i < |a + b| && Recent((a + b)[i], now) && k == Key((a + b)[i].event);
      if i < |a| {
        assert Recent(a[i], now) && k == Key(a[i].event);
      } else {
        assert Recent(b[i - |a|], now) && k == Key(b[i - |a|].event);
      }
    }
    assert forall i :: 0 <= i < |a| ==> (a + b)[i] == a[i];
    assert forall i :: 0 <= i < |b| ==> (a + b)[|a| + i] == b[i];
  }

  lemma ExistingStamped(events: seq<Event>, at: int, now: int)
    ensures Existing(Stamped(events, at), now) == if at >= now - WINDOW then Keys(events) else {}
  {
    assert forall i :: 0 <= i < |events| ==> Stamped(events, at)[i] == Row(events[i], at);
  }

  /** The keys in the window at a later time: those of the older rows, and those of the batch while its
      own rows are recent. */
  lemma ExistingAfter(store: Store, events: seq<Event>, now: int, later: int)
    ensures Existing(Ingest(store, events, now), later) ==
            Existing(store, later) + if now >= later - WINDOW then ReportedKeys(events) - Existing(store, now) else {}
  {
    StoredKeys(store, events, now);
    ExistingConcat(store, Stamped(Stored(store, events, now), now), later);
    ExistingStamped(Stored(store, events, now), now, later);
  }

  predicate NoLaterThan(store: Store, now: int) {
    forall i :: 0 <= i < |store| ==> store[i].createdAt <= now
  }

  lemma OldRowsAge(store: Store, now: int, later: int)
    requires NoLaterThan(store, now) && later - now > WINDOW
    ensures Existing(store, later) == {}
  {
  }

  /** Replaying a batch within the window stores nothing exactly when no row that made the first call
      skip an event has left the window since; after the window it stores nothing only if sampling
      drops every event. */
  lemma ReplayStoresNothingIff(store: Store, events: seq<Event>, now: int, later: int)
    requires NoLaterThan(store, now) && now <= later
    ensures Ingest(Ingest(store, events, now), events, later) == Ingest(store, events, now) <==>
            if later - now <= WINDOW then ReportedKeys(events) * Existing(store, now) <= Existing(store, later)
            else ReportedKeys(events) == {}
  {
    var after := Ingest(store, events, now);
    var again := Stamped(Stored(after, events, later), later);
    assert after + again == after <==> again == [] by {
      assert |after + again| == |after| + |again|;
      if again == [] {
        assert after + again == after;
      }
    }
    assert again == [] <==> Stored(after, events, later) == [] by {
      assert |again| == |Stored(after, events, later)|;
    }
    NothingStored(after, events, later);
    ExistingAfter(store, events, now, later);
    if later - now > WINDOW {
      OldRowsAge(store, now, later);
    }
  }

  /** In particular a batch whose keys are all new can be replayed for seven days. */
  lemma NewBatchReplays(store: Store, events: seq<Event>, now: int, later: int)
    requires NoLaterThan(store, now) && now <= later <= now + SEVEN_DAYS
    requires ReportedKeys(events) !! Existing(store, now)
    ensures Ingest(Ingest(store, events, now), events, later) == Ingest(store, events, now)
  {
    assert ReportedKeys(events) * Existing(store, now) == {};
    ReplayStoresNothingIff(store, events, now, later);
  }

  /** A batch may be stored again one nanosecond after it was skipped. */
  lemma SkippedBatchMayBeStored(e: Event)
    requires !SampledOut(e)
    ensures var store := [Row(e, 0)];
            && Ingest(store, [e], WINDOW) == store
            && Ingest(Ingest(store, [e], WINDOW), [e], WINDOW + 1) != Ingest(store, [e], WINDOW)
  {
    var store := [Row(e, 0)];
    assert ReportedKeys([e]) == {Key(e)} by {
      assert [e][0] == e;
    }
    assert Recent(store[0], WINDOW) && !Recent(store[0], WINDOW + 1);
    assert Existing(store, WINDOW) == {Key(e)} && Existing(store, WINDOW + 1) == {};
    NothingStored(store, [e], WINDOW);
    assert store + Stamped([], WINDOW) == store;
    ReplayStoresNothingIff(store, [e], WINDOW, WINDOW + 1);
  }

  // ---- whole runs ----

  datatype Batch = Batch(events: seq<Event>, at: int)

  function Run(batches: seq<Batch>): Store {
    if batches == [] then []
    else Ingest(Run(batches[..|batches| - 1]), batches[|batches| - 1].events, batches[|batches| - 1].at)
  }

  predicate WellTimed(batches: seq<Batch>) {
    forall i, j :: 0 <= i < j < |batches| ==> batches[i].at <= batches[j].at
  }

  /** Two rows with one key are more than a window apart. */
  predicate Spaced(store: Store) {
    forall i, j :: 0 <= i < j < |store| && Key(store[i].event) == Key(store[j].event) ==>
      store[j].createdAt - store[i].createdAt > SEVEN_DAYS
  }

  lemma IngestedRow(store: Store, events: seq<Event>, now: int, i: nat)
    requires i < |Ingest(store, events, now)|
    ensures Ingest(store, events, now)[i] ==
            if i < |store| then store[i] else Row(Stored(store, events, now)[i - |store|], now)
  {
  }

  lemma IngestKeepsSpacing(store: Store, events: seq<Event>, now: int)
    requires Spaced(store) && NoLaterThan(store, now)
    ensures Spaced(Ingest(store, events, now)) && NoLaterThan(Ingest(store, events, now), now)
  {
    var added := Stored(store, events, now);
    var result := Ingest(store, events, now);
    StoredKeys(store, events, now);
    assert forall m :: 0 <= m < |added| ==> Key(added[m]) in Keys(added);
    forall i, j | 0 <= i < j < |result| && Key(result[i].event) == Key(result[j].event)
      ensures result[j].createdAt - result[i].createdAt > SEVEN_DAYS
    {
      IngestedRow(store, events, now, i);
      IngestedRow(store, events, now, j);
      if i < |store| <= j {
        assert !Recent(store[i], now);
      }
    }
  }

  lemma {:induction false} RunKeepsSpacing(batches: seq<Batch>, now: int)
    requires WellTimed(batches) && (batches != [] ==> batches[|batches| - 1].at <= now)
    ensures Spaced(Run(batches)) && NoLaterThan(Run(batches), now)
  {
    if batches != [] {
      var before, last := batches[..|batches| - 1], batches[|batches| - 1];
      RunKeepsSpacing(before, last.at);
      IngestKeepsSpacing(Run(before), last.events, last.at);
    }
  }

  /** Row k of the table stands for a report with this key at this time: it was there, and recent. */
  predicate Represents(store: Store, k: nat, key: string, at: int) {
    k < |store| && Key(store[k].event) == key && at - WINDOW <= store[k].createdAt <= at
  }

  lemma IngestRepresents(store: Store, events: seq<Event>, now: int, i: nat) returns (k: nat)
    requires NoLaterThan(store, now) && i < |events| && !SampledOut(events[i])
    ensures Represents(Ingest(store, events, now), k, Key(events[i]), now)
  {
    var key := Key(events[i]);
    var result := Ingest(store, events, now);
    ExistingAfter(store, events, now, now);
    assert key in ReportedKeys(events) && key in Existing(result, now);
    var r :| 0 <= r < |result| && Recent(result[r], now) && key == Key(result[r].event);
    k := r;
    IngestNoLater(store, events, now);
  }

  lemma IngestNoLater(store: Store, events: seq<Event>, now: int)
    requires NoLaterThan(store, now)
    ensures NoLaterThan(Ingest(store, events, now), now)
  {
  }

  /** No report is lost: every event that sampling keeps has a row with its key that was at most a window
      old when it was reported. */
  lemma {:induction false} ReportsAreRepresented(batches: seq<Batch>, b: nat, i: nat) returns (k: nat)
    requires WellTimed(batches) && b < |batches| && i < |batches[b].events| && !SampledOut(batches[b].events[i])
    ensures Represents(Run(batches), k, Key(batches[b].events[i]), batches[b].at)
  {
    var before, last := batches[..|batches| - 1], batches[|batches| - 1];
    if b == |batches| - 1 {
      RunKeepsSpacing(before, last.at);
      k := IngestRepresents(Run(before), last.events, last.at, i);
    } else {
      k := ReportsAreRepresented(before, b, i);
      assert Run(batches)[k] == Run(before)[k];
    }
  }
}

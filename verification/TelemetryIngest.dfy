/** Ingestion of compatibility telemetry: sampling, dedupe keys, and the seven-day dedupe window.
    Times are nanoseconds. */
module TelemetryIngest {
  import opened Strings

  /** Seven days. */
  const WINDOW: nat := 604_800_000_000_000
  const SAMPLE_PERCENT: nat := 20

  // ---- events and keys ----

  /** The fields of a normalized event that sampling and deduplication look at; payload stands for
      everything else in the row. */
  datatype Event = Event(domain: string, path: string, name: string, errorCode: string, flow: string,
                         surface: string, succeeded: bool, payload: nat)

  function NormErrorCode(code: string): string {
    if TrimSpace(code) == "" then "none" else TrimSpace(code)
  }

  function FormatBool(b: bool): string {
    if b then "true" else "false"
  }

  function KeyParts(e: Event): seq<string> {
    [e.domain, e.path, e.name, NormErrorCode(e.errorCode), e.flow, e.surface, FormatBool(e.succeeded)]
  }

  function Key(e: Event): string {
    Join(KeyParts(e), '|')
  }

  function Mix(h: bv32, c: char): bv32 {
    (h ^ (c as int as bv32)) * 16777619
  }

  /** The 32-bit FNV-1a hash of a string, from a start value. */
  function Fnv32a(s: string, h: bv32): bv32 {
    if s == "" then h else Fnv32a(s[1..], Mix(h, s[0]))
  }

  function SampleKey(e: Event): string {
    Join([e.domain, e.path, e.name, e.flow, e.surface, FormatBool(e.succeeded)], '|')
  }

  /** Four out of five successful events without an error are dropped, chosen by their hash. */
  predicate SampledOut(e: Event) {
    e.succeeded && TrimSpace(e.errorCode) == "" && Fnv32a(SampleKey(e), 2166136261) as int % 100 >= SAMPLE_PERCENT
  }

  /** Only what went well without an error can be dropped: four out of five, by a hash that the error code
      and the rest of the row have no part in. */
  lemma FailuresAreKept(e: Event, f: Event)
    ensures SampledOut(e) <==> e.succeeded && TrimSpace(e.errorCode) == "" && Fnv32a(SampleKey(e), 0x811c9dc5) as int % 100 >= 20
    ensures SampleKey(e) == e.domain + "|" + e.path + "|" + e.name + "|" + e.flow + "|" + e.surface + "|"
                            + if e.succeeded then "true" else "false"
    ensures f == e.(errorCode := f.errorCode, payload := f.payload) ==> SampleKey(f) == SampleKey(e)
  {
    JoinSix(e.domain, e.path, e.name, e.flow, e.surface, FormatBool(e.succeeded));
  }

  lemma JoinSix(a: string, b: string, c: string, d: string, e: string, f: string)
    ensures Join([a, b, c, d, e, f], '|') == a + "|" + b + "|" + c + "|" + d + "|" + e + "|" + f
  {
    var rest := [d, e, f];
    JoinThree(a, b, c, rest);
    assert [a, b, c] + rest == [a, b, c, d, e, f];
    JoinLastThree(d, e, f);
    assert a + ['|'] + b + ['|'] + c + ['|'] + (d + ['|'] + e + ['|'] + f)
        == a + ['|'] + b + ['|'] + c + ['|'] + d + ['|'] + e + ['|'] + f;
  }

  lemma JoinLastThree(d: string, e: string, f: string)
    ensures Join([d, e, f], '|') == d + ['|'] + e + ['|'] + f
  {
    assert [d, e, f][1..] == [e, f] && [e, f][1..] == [f];
    assert Join([e, f], '|') == e + ['|'] + f;
    assert d + ['|'] + (e + ['|'] + f) == d + ['|'] + e + ['|'] + f;
  }

  lemma JoinSeven(a: string, b: string, c: string, d: string, e: string, f: string, g: string)
    ensures Join([a, b, c, d, e, f, g], '|') == a + "|" + b + "|" + c + "|" + d + "|" + e + "|" + f + "|" + g
  {
    var rest := [b, c, d, e, f, g];
    JoinSix(b, c, d, e, f, g);
    assert [a, b, c, d, e, f, g][1..] == rest;
    assert a + ['|'] + (b + "|" + c + "|" + d + "|" + e + "|" + f + "|" + g)
        == a + "|" + b + "|" + c + "|" + d + "|" + e + "|" + f + "|" + g;
  }

  /** The key names the seven fields in order, with bars between them. */
  lemma KeyText(e: Event)
    ensures Key(e) == e.domain + "|" + e.path + "|" + e.name + "|" + NormErrorCode(e.errorCode) + "|" + e.flow + "|" + e.surface
                      + "|" + if e.succeeded then "true" else "false"
  {
    JoinSeven(e.domain, e.path, e.name, NormErrorCode(e.errorCode), e.flow, e.surface, FormatBool(e.succeeded));
  }

  lemma {:induction false} HashSnoc(s: string, c: char, h: bv32)
    ensures Fnv32a("", h) == h && Fnv32a(s + [c], h) == Mix(Fnv32a(s, h), c)
  {
    if s == "" {
      assert s + [c] == [c] && [c][1..] == "";
    } else {
      assert (s + [c])[1..] == s[1..] + [c];
      HashSnoc(s[1..], c, Mix(h, s[0]));
    }
  }

  lemma MixValues()
    ensures Mix(2166136261, 'f') == 0xe30c2799 && Mix(0xe30c2799, 'o') == 0x6222e842 && Mix(0x6222e842, 'o') == 0xa9f37ed7
  {
    assert 'f' as int as bv32 == 102 && 'o' as int as bv32 == 111;
  }

  /** The hash is FNV-1a of 32 bits: it takes up one character after the other and has the published
      values of "f", "fo" and "foo". */
  lemma HashValues()
    ensures Fnv32a("f", 2166136261) == 0xe30c2799
    ensures Fnv32a("fo", 2166136261) == 0x6222e842
    ensures Fnv32a("foo", 2166136261) == 0xa9f37ed7
  {
    MixValues();
    HashSnoc("", 'f', 2166136261);
    HashSnoc("f", 'o', 2166136261);
    HashSnoc("fo", 'o', 2166136261);
    assert "" + ['f'] == "f" && "f" + ['o'] == "fo" && "fo" + ['o'] == "foo";
  }

  // ---- the key tells events apart ----

  predicate NoBar(e: Event) {
    '|' !in e.domain && '|' !in e.path && '|' !in e.name && '|' !in e.errorCode && '|' !in e.flow && '|' !in e.surface
  }

  lemma NoBarParts(e: Event)
    requires NoBar(e)
    ensures NoPartHas(KeyParts(e), '|')
  {
    TrimSpaceResult(e.errorCode);
  }

  /** Without bars in the fields the key determines them all, the error code up to its normal form. */
  lemma KeyInjective(e: Event, f: Event)
    requires NoBar(e) && NoBar(f)
    ensures Key(e) == Key(f) <==>
            && e.domain == f.domain && e.path == f.path && e.name == f.name && e.flow == f.flow
            && e.surface == f.surface && e.succeeded == f.succeeded
            && NormErrorCode(e.errorCode) == NormErrorCode(f.errorCode)
  {
    NoBarParts(e);
    NoBarParts(f);
    SplitJoin(KeyParts(e), '|');
    SplitJoin(KeyParts(f), '|');
    if Key(e) == Key(f) {
      assert KeyParts(e) == KeyParts(f);
      assert forall i :: 0 <= i < 7 ==> KeyParts(e)[i] == KeyParts(f)[i];
    }
  }

  /** With bars it does not: a bar can move from the end of a canonical path to the event's name. */
  lemma BarsMayCollide(e: Event)
    ensures var p, q := e.(path := e.domain + "/a|b", name := "c"), e.(path := e.domain + "/a", name := "b|c");
            p != q && Key(p) == Key(q)
  {
    var rest := [NormErrorCode(e.errorCode), e.flow, e.surface, FormatBool(e.succeeded)];
    var p, q := e.(path := e.domain + "/a|b", name := "c"), e.(path := e.domain + "/a", name := "b|c");
    var a := e.domain + "/a";
    assert |p.name| != |q.name|;
    MoveBar(e.domain, a, "b", "c", rest);
    assert a + ['|'] + "b" == e.domain + "/a|b" && "b" + ['|'] + "c" == "b|c";
    assert KeyParts(p) == [e.domain, a + ['|'] + "b", "c"] + rest;
    assert KeyParts(q) == [e.domain, a, "b" + ['|'] + "c"] + rest;
  }

  lemma MoveBar(d: string, a: string, b: string, c: string, rest: seq<string>)
    requires rest != []
    ensures Join([d, a + ['|'] + b, c] + rest, '|') == Join([d, a, b + ['|'] + c] + rest, '|')
  {
    var bar, tail := ['|'], Join(rest, '|');
    JoinThree(d, a + ['|'] + b, c, rest);
    JoinThree(d, a, b + ['|'] + c, rest);
    assert d + bar + (a + bar + b) + bar + c + bar + tail == d + bar + a + bar + (b + bar + c) + bar + tail;
  }

  lemma JoinThree(x: string, y: string, z: string, rest: seq<string>)
    requires rest != []
    ensures Join([x, y, z] + rest, '|') == x + ['|'] + y + ['|'] + z + ['|'] + Join(rest, '|')
  {
    assert ([x, y, z] + rest)[1..] == [y, z] + rest;
    assert ([y, z] + rest)[1..] == [z] + rest;
    assert ([z] + rest)[1..] == rest;
    var bar, tail := ['|'], Join(rest, '|');
    assert Join([z] + rest, '|') == z + bar + tail;
    assert Join([y, z] + rest, '|') == y + bar + (z + bar + tail);
    assert x + bar + (y + bar + (z + bar + tail)) == x + bar + y + bar + z + bar + tail;
  }

  // ---- keys read back from the store ----

  function TrimBlanksLeft(s: string): string {
    if s != "" && s[0] == ' ' then TrimBlanksLeft(s[1..]) else s
  }

  function TrimBlanksRight(s: string): string {
    if s != "" && s[|s| - 1] == ' ' then TrimBlanksRight(s[..|s| - 1]) else s
  }

  /** SQL's COALESCE(NULLIF(TRIM(error_code), ''), 'none'), whose TRIM strips blanks only. */
  function StoredErrorCode(code: string): string {
    var t := TrimBlanksRight(TrimBlanksLeft(code));
    if t == "" then "none" else t
  }

  function StoredKey(e: Event): string {
    Key(e.(errorCode := StoredErrorCode(e.errorCode)))
  }

  lemma {:induction false} LeadingSpaces(s: string)
    ensures TrimLeft(TrimBlanksLeft(s)) == TrimLeft(s)
  {
    if s != "" && s[0] == ' ' {
      LeadingSpaces(s[1..]);
    }
  }

  /** Trimming one blank off the end first does not change what trimming leaves. */
  lemma {:induction false} TrailingBlank(s: string)
    requires s != "" && s[|s| - 1] == ' '
    ensures TrimSpace(s[..|s| - 1]) == TrimSpace(s)
  {
    if IsSpace(s[0]) && |s| > 1 {
      assert s[1..][..|s| - 2] == s[..|s| - 1][1..];
      TrailingBlank(s[1..]);
    } else if |s| == 1 {
      assert s[..0] == "" && s[1..] == "";
    }
  }

  lemma {:induction false} TrailingBlanks(s: string)
    ensures TrimSpace(TrimBlanksRight(s)) == TrimSpace(s)
  {
    if s != "" && s[|s| - 1] == ' ' {
      TrailingBlank(s);
      TrailingBlanks(s[..|s| - 1]);
    }
  }

  lemma StoredErrorCodeNormal(code: string)
    ensures NormErrorCode(StoredErrorCode(code)) == NormErrorCode(code)
  {
    var t := TrimBlanksLeft(code);
    LeadingSpaces(code);
    TrailingBlanks(t);
    TrimSpaceResult("none");
  }

  /** Trimming in SQL and again in Go gives a stored row the key its event had. */
  lemma StoredKeyIsKey(e: Event)
    ensures StoredKey(e) == Key(e)
  {
    StoredErrorCodeNormal(e.errorCode);
  }

  // ---- what a batch stores ----

  datatype Row = Row(event: Event, createdAt: int)

  type Store = seq<Row>

  predicate Recent(r: Row, now: int) {
    r.createdAt >= now - WINDOW
  }

  /** The keys with a row inside the window. */
  function Existing(store: Store, now: int): set<string> {
    set i | 0 <= i < |store| && Recent(store[i], now) :: Key(store[i].event)
  }

  /** The event at position i is stored: not sampled out, unknown, and the first with its key. */
  predicate Kept(known: set<string>, events: seq<Event>, i: nat)
    requires i < |events|
  {
    && !SampledOut(events[i])
    && Key(events[i]) !in known
    && forall j :: 0 <= j < i && Key(events[j]) == Key(events[i]) ==> SampledOut(events[j])
  }

  function Filtered(known: set<string>, events: seq<Event>, n: nat): seq<Event>
    requires n <= |events|
  {
    if n == 0 then []
    else Filtered(known, events, n - 1) + if Kept(known, events, n - 1) then [events[n - 1]] else []
  }

  /** The keys seen after the first n events. */
  function Seen(known: set<string>, events: seq<Event>, n: nat): set<string>
    requires n <= |events|
  {
    if n == 0 then known
    else Seen(known, events, n - 1) + if SampledOut(events[n - 1]) then {} else {Key(events[n - 1])}
  }

  function Stamped(events: seq<Event>, now: int): Store {
    seq(|events|, i requires 0 <= i < |events| => Row(events[i], now))
  }

  function Stored(store: Store, events: seq<Event>, now: int): seq<Event> {
    Filtered(Existing(store, now), events, |events|)
  }

  function Ingest(store: Store, events: seq<Event>, now: int): Store {
    store + Stamped(Stored(store, events, now), now)
  }

  // ---- the service ----

  class CompatTelemetryService {
    var store: Store

    constructor ()
      ensures store == []
    {
      store := [];
    }

    method ListExistingCompatKeys(since: int) returns (rows: seq<Event>)
      ensures (set i | 0 <= i < |rows| :: Key(rows[i])) == Existing(store, since + WINDOW)
    {
      rows := [];
      for i := 0 to |store|
        invariant (set k | 0 <= k < |rows| :: Key(rows[k])) == Existing(store[..i], since + WINDOW)
      {
        ghost var was := rows;
        if store[i].createdAt >= since {
          var e := store[i].event.(errorCode := StoredErrorCode(store[i].event.errorCode));
          StoredKeyIsKey(store[i].event);
          rows := rows + [e];
          KeysSnoc(was, e);
        }
        ExistingSnoc(store, i, since + WINDOW);
      }
      assert store[..|store|] == store;
    }

    static method CollectKeys(existing: seq<Event>) returns (keySet: set<string>)
      ensures keySet == set k | 0 <= k < |existing| :: Key(existing[k])
    {
      keySet := {};
      for i := 0 to |existing|
        invariant keySet == set k | 0 <= k < i :: Key(existing[k])
      {
        keySet := keySet + {Key(existing[i])};
      }
    }

    static method Dedupe(known: set<string>, events: seq<Event>) returns (filtered: seq<Event>)
      ensures filtered == Filtered(known, events, |events|)
    {
      var keySet := known;
      filtered := [];
      for i := 0 to |events|
        invariant keySet == Seen(known, events, i)
        invariant filtered == Filtered(known, events, i)
      {
        var e := events[i];
        KeptIffUnseen(known, events, i);
        if SampledOut(e) {
          continue;
        }
        var key := Key(e);
        if key in keySet {
          continue;
        }
        keySet := keySet + {key};
        filtered := filtered + [e];
      }
    }

    /** The two loops of IngestBatch and the insert that follows them. */
    method IngestBatch(events: seq<Event>, now: int) returns (count: nat)
      modifies this
      ensures store == Ingest(old(store), events, now)
      ensures count == |store| - |old(store)|
    {
      var existing := ListExistingCompatKeys(now - WINDOW);
      var keySet := CollectKeys(existing);
      assert keySet == Existing(store, now);
      var filtered := Dedupe(keySet, events);
      store := store + Stamped(filtered, now);
      count := |filtered|;
    }
  }

  lemma KeysSnoc(rows: seq<Event>, e: Event)
    ensures (set k | 0 <= k < |rows + [e]| :: Key((rows + [e])[k])) == (set k | 0 <= k < |rows| :: Key(rows[k])) + {Key(e)}
  {
    assert (rows + [e])[|rows|] == e;
    assert forall k :: 0 <= k < |rows| ==> (rows + [e])[k] == rows[k];
  }

  lemma ExistingSnoc(store: Store, i: nat, now: int)
    requires i < |store|
    ensures Existing(store[..i + 1], now) == Existing(store[..i], now) + if Recent(store[i], now) then {Key(store[i].event)} else {}
  {
    assert forall k :: 0 <= k < i ==> store[..i + 1][k] == store[..i][k];
    assert store[..i + 1][i] == store[i];
  }

  lemma {:induction false} SeenIff(known: set<string>, events: seq<Event>, n: nat, k: string)
    requires n <= |events|
    ensures k in Seen(known, events, n) <==> k in known || exists i :: 0 <= i < n && !SampledOut(events[i]) && Key(events[i]) == k
  {
    if n > 0 {
      SeenIff(known, events, n - 1, k);
    }
  }

  /** The key set of the loop answers whether the next event is the first of its key. */
  lemma KeptIffUnseen(known: set<string>, events: seq<Event>, n: nat)
    requires n < |events|
    ensures Kept(known, events, n) <==> !SampledOut(events[n]) && Key(events[n]) !in Seen(known, events, n)
  {
    SeenIff(known, events, n, Key(events[n]));
  }

  /** What a batch stores is its first kept event with each unknown key. */
  lemma {:induction false} StoredIsFirst(known: set<string>, events: seq<Event>, n: nat, x: Event)
    requires n <= |events|
    ensures x in Filtered(known, events, n) <==>
            exists i :: 0 <= i < n && events[i] == x && !SampledOut(x) && Key(x) !in known
                        && forall j :: 0 <= j < i && !SampledOut(events[j]) ==> Key(events[j]) != Key(x)
  {
    if n > 0 {
      StoredIsFirst(known, events, n - 1, x);
      if Kept(known, events, n - 1) && events[n - 1] == x {
        assert x in Filtered(known, events, n);
      }
    }
  }
}

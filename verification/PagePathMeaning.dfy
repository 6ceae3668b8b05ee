/** What canonicalizing makes of a page address, told by its characters: which segments become
    placeholders, and what is dropped around them. */
module PagePathMeaning {
  import opened Strings
  import opened PagePath
  import opened PagePathIdempotence

  // ---- what a segment becomes ----

  /** Space, or one of the control characters from tab to carriage return. */
  predicate IsBlankChar(c: char) {
    c == ' ' || 9 <= c as int <= 13
  }

  predicate Blank(s: string) {
    forall i :: 0 <= i < |s| ==> IsBlankChar(s[i])
  }

  /** No white space at either end. */
  predicate Bare(s: string) {
    s != "" ==> !IsBlankChar(s[0]) && !IsBlankChar(s[|s| - 1])
  }

  /** At least four characters, all of them digits. */
  predicate IsNumber(m: string) {
    |m| >= 4 && forall i :: 0 <= i < |m| ==> '0' <= m[i] <= '9'
  }

  /** At least twenty letters, digits, underscores and hyphens. */
  predicate IsIdentifier(m: string) {
    |m| >= 20 && forall i :: 0 <= i < |m| ==> IsIdentifierChar(m[i])
  }

  predicate IsIdentifierChar(c: char) {
    'a' <= c <= 'z' || 'A' <= c <= 'Z' || '0' <= c <= '9' || c == '_' || c == '-'
  }

  predicate IsLowered(m: string, out: string) {
    |out| == |m| && forall i :: 0 <= i < |m| ==>
      out[i] == if 'A' <= m[i] <= 'Z' then (m[i] as int + 32) as char else m[i]
  }

  predicate Stands(m: string, out: string) {
    if IsNumber(m) then out == ":n" else if IsIdentifier(m) then out == ":id" else IsLowered(m, out)
  }

  /** A segment, with any white space around it, becomes out. */
  ghost predicate Becomes(seg: string, out: string) {
    exists l, m, r :: seg == l + m + r && Blank(l) && Blank(r) && Bare(m) && Stands(m, out)
  }

  lemma {:induction false} TrimLeftBlank(l: string, s: string)
    requires Blank(l) && (s == "" || !IsSpace(s[0]))
    ensures TrimLeft(l + s) == s
  {
    if l == "" {
      assert l + s == s;
    } else {
      assert (l + s)[1..] == l[1..] + s;
      TrimLeftBlank(l[1..], s);
    }
  }

  lemma {:induction false} TrimRightBlank(s: string, r: string)
    requires Blank(r) && (s == "" || !IsSpace(s[|s| - 1]))
    ensures TrimRight(s + r) == s
  {
    if r == "" {
      assert s + r == s;
    } else {
      assert (s + r)[..|s + r| - 1] == s + r[..|r| - 1];
      TrimRightBlank(s, r[..|r| - 1]);
    }
  }

  lemma TrimAround(l: string, m: string, r: string)
    requires Blank(l) && Blank(r) && Trimmed(m)
    ensures TrimSpace(l + m + r) == m
  {
    if m == "" {
      assert l + m + r == (l + r) + "";
      TrimLeftBlank(l + r, "");
    } else {
      assert l + m + r == l + (m + r);
      TrimLeftBlank(l, m + r);
      TrimRightBlank(m, r);
    }
  }

  lemma {:induction false} LeadingBlanks(s: string) returns (l: string)
    ensures Blank(l) && s == l + TrimLeft(s)
  {
    l := "";
    if s != "" && IsSpace(s[0]) {
      l := LeadingBlanks(s[1..]);
      l := [s[0]] + l;
    }
  }

  lemma {:induction false} TrailingBlanks(s: string) returns (r: string)
    ensures Blank(r) && s == TrimRight(s) + r
  {
    r := "";
    if s != "" && IsSpace(s[|s| - 1]) {
      r := TrailingBlanks(s[..|s| - 1]);
      r := r + [s[|s| - 1]];
    }
  }

  /** Every segment is a trimmed text with white space around it. */
  lemma Around(s: string) returns (l: string, m: string, r: string)
    ensures s == l + m + r && Blank(l) && Blank(r) && Trimmed(m) && m == TrimSpace(s)
  {
    l := LeadingBlanks(s);
    r := TrailingBlanks(TrimLeft(s));
    m := TrimSpace(s);
    TrimSpaceResult(s);
    assert s == l + (m + r) == l + m + r;
  }

  lemma LowerConcat(a: string, b: string)
    ensures ToLower(a + b) == ToLower(a) + ToLower(b)
  {
  }

  lemma LowerKeepsBlank(s: string)
    ensures Blank(s) ==> ToLower(s) == s
    ensures Trimmed(s) ==> Trimmed(ToLower(s))
  {
  }

  lemma StandsIsClassify(m: string, out: string)
    requires Trimmed(m)
    ensures Stands(m, out) <==> out == Classify(ToLower(m))
  {
    var t := ToLower(m);
    forall i | 0 <= i < |m|
      ensures '0' <= m[i] <= '9' <==> '0' <= t[i] <= '9'
      ensures IsIdentifierChar(m[i]) <==> IsTokenChar(t[i])
    {
      assert t[i] == LowerChar(m[i]);
    }
    assert IsNumber(m) <==> |t| >= 4 && IsAllDigits(t);
    assert IsIdentifier(m) <==> IsToken(t);
    assert IsLowered(m, t);
    if IsLowered(m, out) {
      assert out == t;
    }
    UuidIsIdentifier(t);
  }

  lemma UuidIsIdentifier(t: string)
    ensures IsUuid(t) ==> IsToken(t) && !IsAllDigits(t)
  {
    if IsUuid(t) {
      assert t[8] == '-';
      forall i | 0 <= i < |t|
        ensures IsTokenChar(t[i])
      {
        assert IsHex(t[i]) || t[i] == '-';
      }
    }
  }

  lemma NormalizeAround(l: string, m: string, r: string)
    requires Blank(l) && Blank(r) && Trimmed(m)
    ensures NormalizeSegment(l + m + r) == Classify(ToLower(m))
  {
    LowerConcat(l + m, r);
    LowerConcat(l, m);
    LowerKeepsBlank(l);
    LowerKeepsBlank(m);
    LowerKeepsBlank(r);
    TrimAround(l, ToLower(m), r);
  }

  /** A segment becomes one text, and that is the canonical one. */
  lemma SegmentMeaning(seg: string, out: string)
    ensures Becomes(seg, out) <==> out == NormalizeSegment(seg)
  {
    if Becomes(seg, out) {
      var l, m, r :| seg == l + m + r && Blank(l) && Blank(r) && Bare(m) && Stands(m, out);
      NormalizeAround(l, m, r);
      StandsIsClassify(m, out);
    }
    if out == NormalizeSegment(seg) {
      var l, m, r := Around(seg);
      NormalizeAround(l, m, r);
      StandsIsClassify(m, out);
    }
  }

  /** A group of hexadecimal digits. */
  predicate IsHexGroup(s: string, n: nat) {
    |s| == n && forall i :: 0 <= i < n ==> '0' <= s[i] <= '9' || 'a' <= s[i] <= 'f' || 'A' <= s[i] <= 'F'
  }

  predicate AllIdentifierChars(s: string) {
    forall i :: 0 <= i < |s| ==> IsIdentifierChar(s[i])
  }

  lemma HyphenBetween(a: string, b: string)
    requires AllIdentifierChars(a) && AllIdentifierChars(b)
    ensures AllIdentifierChars(a + "-" + b) && |a + "-" + b| == |a| + 1 + |b| && (a + "-" + b)[|a|] == '-'
  {
  }

  lemma HyphenatedIsId(a: string, b: string)
    requires AllIdentifierChars(a) && AllIdentifierChars(b) && |a| > 0 && |b| > 0 && |a| + |b| >= 19
    ensures Becomes(a + "-" + b, ":id")
  {
    var m := a + "-" + b;
    HyphenBetween(a, b);
    assert IsIdentifier(m) && !IsNumber(m) by {
      assert m[|a|] == '-';
    }
    assert Trimmed(m) by {
      assert m[0] == a[0] && m[|m| - 1] == b[|b| - 1];
    }
    assert m == "" + m + "" && Blank("") && Stands(m, ":id");
  }

  /** In particular a UUID becomes ":id". */
  lemma UuidBecomesId(a: string, b: string, c: string, d: string, e: string)
    requires IsHexGroup(a, 8) && IsHexGroup(b, 4) && IsHexGroup(c, 4) && IsHexGroup(d, 4) && IsHexGroup(e, 12)
    ensures Becomes(a + "-" + b + "-" + c + "-" + d + "-" + e, ":id")
  {
    HyphenBetween(a, b);
    HyphenBetween(a + "-" + b, c);
    HyphenBetween(a + "-" + b + "-" + c, d);
    HyphenatedIsId(a + "-" + b + "-" + c + "-" + d, e);
  }

  // ---- from a whole address to its segments ----

  function LowerAll(parts: seq<string>): seq<string> {
    seq(|parts|, i requires 0 <= i < |parts| => ToLower(parts[i]))
  }

  lemma {:induction false} LowerJoin(parts: seq<string>)
    requires |parts| > 0
    ensures ToLower(Join(parts, '/')) == Join(LowerAll(parts), '/')
  {
    if |parts| > 1 {
      LowerJoin(parts[1..]);
      assert LowerAll(parts)[1..] == LowerAll(parts[1..]);
      LowerConcat(parts[0] + "/", Join(parts[1..], '/'));
      LowerConcat(parts[0], "/");
      assert ToLower("/") == "/";
    }
  }

  lemma {:induction false} TrimJoin(parts: seq<string>)
    requires |parts| > 0
    ensures TrimRight(Join(parts, '/')) == Join(parts[|parts| - 1 := TrimRight(parts[|parts| - 1])], '/')
  {
    if |parts| > 1 {
      var rest := parts[1..];
      TrimJoin(rest);
      assert parts[|parts| - 1 := TrimRight(parts[|parts| - 1])][1..] == rest[|rest| - 1 := TrimRight(rest[|rest| - 1])];
      TrimRightConcat(parts[0] + "/", Join(rest, '/'));
    }
  }

  lemma SegmentOfTrimmed(seg: string)
    ensures NormalizeSegment(ToLower(seg)) == NormalizeSegment(seg)
    ensures NormalizeSegment(TrimRight(ToLower(seg))) == NormalizeSegment(seg)
  {
    var l, m, r := Around(seg);
    NormalizeAround(l, m, r);
    LowerConcat(l + m, r);
    LowerConcat(l, m);
    LowerKeepsBlank(l);
    LowerKeepsBlank(m);
    LowerKeepsBlank(r);
    LowerIsLower(m);
    LowerIsLower(ToLower(m));
    NormalizeAround(l, ToLower(m), r);
    NormalizeAround(l, ToLower(m), "");
    NormalizeAround("", "", "");
    if m == "" {
      assert l + ToLower(m) + r == "" + (l + r);
      TrimRightBlank("", l + r);
      assert "" + "" + "" == "";
    } else {
      TrimRightBlank(l + ToLower(m), r);
      assert l + ToLower(m) + "" == l + ToLower(m);
    }
  }

  /** Segments without separators and without query and fragment marks. */
  predicate AreSegments(segs: seq<string>) {
    |segs| > 0 && forall i :: 0 <= i < |segs| ==> '/' !in segs[i] && '?' !in segs[i] && '#' !in segs[i]
  }

  lemma LowerSegment(seg: string)
    requires '/' !in seg
    ensures '/' !in ToLower(seg) && '/' !in TrimRight(ToLower(seg))
  {
    forall i | 0 <= i < |seg|
      ensures ToLower(seg)[i] != '/'
    {
      assert seg[i] in seg;
    }
    TrimRightResult(ToLower(seg));
  }

  /** The lower-case path without trailing white space has the same canonical segments. */
  lemma SplitMeaning(segs: seq<string>)
    requires AreSegments(segs)
    ensures NormalizeAll(Split(TrimRight(ToLower(Join(segs, '/'))), '/')) == NormalizeAll(segs)
  {
    var lower, last := LowerAll(segs), |segs| - 1;
    LowerJoin(segs);
    TrimJoin(lower);
    var parts := lower[last := TrimRight(lower[last])];
    forall i | 0 <= i < |parts|
      ensures '/' !in parts[i] && NormalizeSegment(parts[i]) == NormalizeSegment(segs[i])
    {
      LowerSegment(segs[i]);
      SegmentOfTrimmed(segs[i]);
    }
    SplitJoin(parts, '/');
    assert NormalizeAll(parts) == NormalizeAll(segs);
  }

  /** The bare domain, or a path with these segments under it. */
  function Assembled(domain: string, outs: seq<string>): string
    requires |outs| > 0
  {
    if Join(outs, '/') == "" then domain else domain + "/" + Join(outs, '/')
  }

  lemma PathForMeaning(domain: string, segs: seq<string>)
    requires AreSegments(segs)
    ensures PathFor(domain, TrimRight(ToLower(Join(segs, '/')))) == Assembled(domain, NormalizeAll(segs))
  {
    SplitMeaning(segs);
    if TrimRight(ToLower(Join(segs, '/'))) == "" {
      assert NormalizeAll(segs) == NormalizeAll([""]);
      assert NormalizeAll([""])[0] == NormalizeSegment("") == "";
    }
  }

  // ---- from what the client sends to the path ----

  /** Nothing, or a query or fragment with its mark. */
  predicate IsQuery(s: string) {
    s != "" ==> s[0] == '?' || s[0] == '#'
  }

  predicate Unmarked(s: string) {
    '?' !in s && '#' !in s
  }

  lemma {:induction false} CutAt(s: string, query: string)
    requires Unmarked(s) && IsQuery(query)
    ensures CutQuery(s + query) == s
  {
    if s == "" {
      assert s + query == query;
    } else {
      assert (s + query)[1..] == s[1..] + query && s[0] in s;
      CutAt(s[1..], query);
    }
  }

  lemma LowerUnmarked(s: string)
    requires Unmarked(s)
    ensures Unmarked(ToLower(s))
  {
    forall i | 0 <= i < |s|
      ensures ToLower(s)[i] != '?' && ToLower(s)[i] != '#'
    {
      assert s[i] in s;
    }
  }

  lemma {:induction false} FirstStays(s: string)
    requires s != "" && !IsSpace(s[0])
    ensures TrimRight(s) != ""
  {
    if IsSpace(s[|s| - 1]) {
      FirstStays(s[..|s| - 1]);
    }
  }

  /** Trimming an address takes blanks off its front, and off its query or else off its path. */
  lemma TrimAddress(w: string, head: string, q: string, query: string) returns (q1: string, query1: string)
    requires Blank(w) && head != "" && !IsSpace(head[0]) && !IsSpace(head[|head| - 1]) && IsQuery(query)
    ensures TrimSpace(w + head + q + query) == head + q1 + query1
    ensures IsQuery(query1) && q1 <= q && TrimRight(q1) == TrimRight(q)
  {
    assert w + head + q + query == w + (head + q + query);
    TrimLeftBlank(w, head + q + query);
    if query == "" {
      q1, query1 := TrimRight(q), "";
      assert head + q + query == head + q;
      TrimRightConcat(head, q);
      TrimRightResult(q);
      TrimRightResult(q1);
      TrimRightBlank(q1, "");
      assert q1 + "" == q1;
    } else {
      q1, query1 := q, TrimRight(query);
      TrimRightResult(query);
      var r := TrailingBlanks(query);
      FirstStays(query);
      assert head + q + query == (head + q + query1) + r;
      TrimRightBlank(head + q + query1, r);
    }
  }

  /** An address of the site: no scheme or one of the two, then the domain, in any letter case. */
  predicate IsSite(lead: string, domain: string) {
    ToLower(lead) == domain || ToLower(lead) == HTTPS + domain || ToLower(lead) == HTTP + domain
  }

  lemma SchemeIsCut(lead: string, domain: string, rest: string)
    requires ValidDomain(domain) && IsSite(lead, domain)
    ensures TrimPrefix(TrimPrefix(ToLower(lead) + rest, HTTPS), HTTP) == domain + rest
  {
    DomainStarts(domain, rest);
    if ToLower(lead) == HTTPS + domain {
      assert ToLower(lead) + rest == HTTPS + (domain + rest);
      assert (HTTPS + (domain + rest))[|HTTPS|..] == domain + rest;
    } else if ToLower(lead) == HTTP + domain {
      assert ToLower(lead) + rest == HTTP + (domain + rest);
      assert (HTTP + (domain + rest))[|HTTP|..] == domain + rest;
      assert HTTPS[4] == 's' && (HTTP + (domain + rest))[4] == ':';
    }
  }

  lemma LeadEnds(lead: string, domain: string)
    requires ValidDomain(domain) && IsSite(lead, domain)
    ensures lead != "" && !IsSpace(lead[0])
  {
    DomainIsPlain(domain);
    assert ToLower(lead)[0] == LowerChar(lead[0]);
  }

  lemma TrimRightOfLower(q1: string, q: string)
    requires TrimRight(q1) == TrimRight(q)
    ensures TrimRight(ToLower(q1)) == TrimRight(ToLower(q))
  {
    LowerOfTrimRight(q1);
    LowerOfTrimRight(q);
  }

  lemma LowerOfTrimRight(q: string)
    ensures TrimRight(ToLower(q)) == ToLower(TrimRight(q))
  {
    var r := TrailingBlanks(q);
    TrimRightResult(q);
    LowerConcat(TrimRight(q), r);
    LowerKeepsBlank(r);
    TrimRightBlank(ToLower(TrimRight(q)), r);
  }

  /** What is left of an address once scheme, query and white space are gone. */
  lemma StrippedSite(w: string, lead: string, domain: string, q: string, query: string)
    requires ValidDomain(domain) && Blank(w) && IsSite(lead, domain) && Unmarked(q) && IsQuery(query)
    ensures Stripped(TrimSpace(w + lead + "/" + q + query)) == domain + "/" + TrimRight(ToLower(q))
  {
    var head := lead + "/";
    LeadEnds(lead, domain);
    assert w + lead + "/" + q + query == w + head + q + query;
    var q1, query1 := TrimAddress(w, head, q, query);
    StrippedParts(lead, domain, q1, query1);
    TrimRightOfLower(q1, q);
    assert lead + "/" + q1 + query1 == head + q1 + query1;
  }

  lemma LowerAddress(lead: string, q: string, query: string)
    ensures ToLower(lead + "/" + q + query) == ToLower(lead) + ("/" + ToLower(q) + ToLower(query))
  {
    LowerConcat(lead + "/" + q, query);
    LowerConcat(lead + "/", q);
    LowerConcat(lead, "/");
    assert ToLower("/") == "/";
  }

  lemma CutAddress(domain: string, q: string, query: string)
    requires ValidDomain(domain) && Unmarked(q) && IsQuery(query)
    ensures CutQuery(domain + ("/" + q + query)) == domain + "/" + q
  {
    DomainIsPlain(domain);
    assert domain + ("/" + q + query) == (domain + "/" + q) + query;
    CutAt(domain + "/" + q, query);
  }

  lemma LowerQuery(query: string)
    requires IsQuery(query)
    ensures IsQuery(ToLower(query))
  {
  }

  lemma StrippedParts(lead: string, domain: string, q: string, query: string)
    requires ValidDomain(domain) && IsSite(lead, domain) && Unmarked(q) && IsQuery(query)
    ensures Stripped(lead + "/" + q + query) == domain + "/" + TrimRight(ToLower(q))
  {
    LowerAddress(lead, q, query);
    SchemeIsCut(lead, domain, "/" + ToLower(q) + ToLower(query));
    LowerUnmarked(q);
    LowerQuery(query);
    CutAddress(domain, ToLower(q), ToLower(query));
    TrimUnderDomain(domain, ToLower(q));
  }

  lemma StrippedRelative(w: string, q: string, query: string)
    requires Blank(w) && Unmarked(q) && IsQuery(query)
    ensures Stripped(TrimSpace(w + "/" + q + query)) == "/" + TrimRight(ToLower(q))
  {
    var q1, query1 := TrimAddress(w, "/", q, query);
    LowerConcat("/" + q1, query1);
    LowerConcat("/", q1);
    assert ToLower("/") == "/";
    assert ToLower("/" + q1 + query1)[0] == '/';
    LowerUnmarked(q1);
    CutAt("/" + ToLower(q1), ToLower(query1));
    TrimRightConcat("/", ToLower(q1));
    TrimRightOfLower(q1, q);
  }

  lemma {:induction false} JoinUnmarked(segs: seq<string>)
    requires AreSegments(segs)
    ensures Unmarked(Join(segs, '/'))
  {
    JoinChars(segs, '/');
  }

  lemma UnclippedMeaning(domain: string, raw: string, q: string)
    requires ValidDomain(domain) && TrimSpace(raw) != ""
    requires Stripped(TrimSpace(raw)) == domain + "/" + q || Stripped(TrimSpace(raw)) == "/" + q
    ensures Unclipped(raw, domain) == PathFor(domain, q)
  {
    var s := Stripped(TrimSpace(raw));
    DomainIsPlain(domain);
    Associate(domain, "/", q);
    assert Anchored(s, domain) == domain + "/" + q by {
      if s == "/" + q {
        assert SLASH <= s;
      } else {
        assert s[0] == domain[0];
      }
    }
    CanonicalUnderDomain(domain, q);
  }

  lemma StrippedOfNothing()
    ensures Stripped("") == ""
  {
  }

  lemma OutsEndTrimmed(domain: string, segs: seq<string>)
    requires ValidDomain(domain) && AreSegments(segs)
    ensures Clip(Assembled(domain, NormalizeAll(segs)), domain) == First(Assembled(domain, NormalizeAll(segs)), 512)
  {
    var outs := NormalizeAll(segs);
    DomainIsPlain(domain);
    if Join(outs, '/') != "" {
      forall i | 0 <= i < |outs|
        ensures Trimmed(outs[i])
      {
        SegmentEndsTrimmed(segs[i]);
      }
      JoinEndsTrimmed(outs);
      var path := domain + "/" + Join(outs, '/');
      assert path[0] == domain[0];
      TrimSpaceResult(path);
    }
  }

  function First(s: string, n: nat): string {
    if |s| <= n then s else s[..n]
  }

  lemma SegmentEndsTrimmed(seg: string)
    ensures Trimmed(NormalizeSegment(seg))
  {
    TrimSpaceResult(ToLower(seg));
    assert ID_SEGMENT[0] == ':' && ID_SEGMENT[2] == 'd' && NUMBER_SEGMENT[1] == 'n';
  }

  lemma {:induction false} JoinEndsTrimmed(outs: seq<string>)
    requires |outs| > 0 && forall i :: 0 <= i < |outs| ==> Trimmed(outs[i])
    ensures Join(outs, '/') != "" ==> !IsSpace(Join(outs, '/')[|Join(outs, '/')| - 1])
  {
    if |outs| > 1 {
      JoinEndsTrimmed(outs[1..]);
    }
  }

  lemma StrippedMeaning(domain: string, raw: string, segs: seq<string>)
    requires ValidDomain(domain) && AreSegments(segs) && TrimSpace(raw) != ""
    requires var q := TrimRight(ToLower(Join(segs, '/')));
             Stripped(TrimSpace(raw)) == domain + "/" + q || Stripped(TrimSpace(raw)) == "/" + q
    ensures Normalize(raw, domain) == First(Assembled(domain, NormalizeAll(segs)), 512)
  {
    UnclippedMeaning(domain, raw, TrimRight(ToLower(Join(segs, '/'))));
    PathForMeaning(domain, segs);
    OutsEndTrimmed(domain, segs);
  }

  lemma SiteMeaning(domain: string, w: string, lead: string, segs: seq<string>, query: string)
    requires ValidDomain(domain) && Blank(w) && IsSite(lead, domain) && AreSegments(segs) && IsQuery(query)
    ensures Normalize(w + lead + "/" + Join(segs, '/') + query, domain) == First(Assembled(domain, NormalizeAll(segs)), 512)
  {
    var q := Join(segs, '/');
    JoinUnmarked(segs);
    StrippedSite(w, lead, domain, q, query);
    SomethingLeft(w + lead + "/" + q + query);
    StrippedMeaning(domain, w + lead + "/" + q + query, segs);
  }

  lemma RelativeMeaning(domain: string, w: string, segs: seq<string>, query: string)
    requires ValidDomain(domain) && Blank(w) && AreSegments(segs) && IsQuery(query)
    ensures Normalize(w + "/" + Join(segs, '/') + query, domain) == First(Assembled(domain, NormalizeAll(segs)), 512)
  {
    var q := Join(segs, '/');
    JoinUnmarked(segs);
    StrippedRelative(w, q, query);
    SomethingLeft(w + "/" + q + query);
    StrippedMeaning(domain, w + "/" + q + query, segs);
  }

  lemma SomethingLeft(raw: string)
    requires Stripped(TrimSpace(raw)) != ""
    ensures TrimSpace(raw) != ""
  {
    StrippedOfNothing();
  }

  lemma OutsAreCanonical(segs: seq<string>, outs: seq<string>)
    requires |outs| == |segs| && forall i :: 0 <= i < |segs| ==> Becomes(segs[i], outs[i])
    ensures outs == NormalizeAll(segs)
  {
    forall i | 0 <= i < |segs|
      ensures outs[i] == NormalizeSegment(segs[i])
    {
      SegmentMeaning(segs[i], outs[i]);
    }
  }

  /** Main result: of an address of the site, or a relative one, the canonical path has one segment for
      each segment given, which is what that segment becomes; white space around the address, its scheme
      and its query are dropped, and the whole is cut to 512 characters. */
  lemma PathMeaning(domain: string, w: string, lead: string, segs: seq<string>, outs: seq<string>, query: string)
    requires ValidDomain(domain) && Blank(w) && (lead == "" || IsSite(lead, domain)) && AreSegments(segs) && IsQuery(query)
    requires |outs| == |segs| && forall i :: 0 <= i < |segs| ==> Becomes(segs[i], outs[i])
    ensures Normalize(w + lead + "/" + Join(segs, '/') + query, domain) == First(Assembled(domain, outs), 512)
  {
    OutsAreCanonical(segs, outs);
    if lead == "" {
      assert w + lead + "/" == w + "/";
      RelativeMeaning(domain, w, segs, query);
    } else {
      SiteMeaning(domain, w, lead, segs, query);
    }
  }

  // ---- addresses that only begin like the site, and addresses of other sites ----

  lemma TrimAfterDomain(domain: string, x: string)
    requires ValidDomain(domain)
    ensures TrimSpace(domain + x) == domain + TrimRight(x)
  {
    DomainIsPlain(domain);
    assert (domain + x)[0] == domain[0];
    assert TrimLeft(domain + x) == domain + x;
    TrimRightConcat(domain, x);
  }

  lemma LowerWhole(lead: string, q: string, query: string)
    ensures ToLower(lead + q + query) == ToLower(lead) + (ToLower(q) + ToLower(query))
  {
    LowerConcat(lead + q, query);
    LowerConcat(lead, q);
    Associate(ToLower(lead), ToLower(q), ToLower(query));
  }

  lemma CutAfterDomain(domain: string, q: string, query: string)
    requires ValidDomain(domain) && Unmarked(q) && IsQuery(query)
    ensures CutQuery(domain + (q + query)) == domain + q
  {
    DomainIsPlain(domain);
    Associate(domain, q, query);
    CutAt(domain + q, query);
  }

  lemma StrippedLonger(w: string, lead: string, domain: string, q: string, query: string)
    requires ValidDomain(domain) && Blank(w) && IsSite(lead, domain) && Unmarked(q) && IsQuery(query)
    ensures Stripped(TrimSpace(w + lead + q + query)) == domain + TrimRight(ToLower(q))
  {
    LeadEnds(lead, domain);
    LeadEndsInDomain(lead, domain);
    var q1, query1 := TrimAddress(w, lead, q, query);
    LowerWhole(lead, q1, query1);
    SchemeIsCut(lead, domain, ToLower(q1) + ToLower(query1));
    LowerUnmarked(q1);
    LowerQuery(query1);
    CutAfterDomain(domain, ToLower(q1), ToLower(query1));
    TrimAfterDomain(domain, ToLower(q1));
    TrimRightOfLower(q1, q);
  }

  lemma LeadEndsInDomain(lead: string, domain: string)
    requires ValidDomain(domain) && IsSite(lead, domain)
    ensures lead != "" && !IsSpace(lead[|lead| - 1])
  {
    DomainIsPlain(domain);
    LeadEnds(lead, domain);
    assert ToLower(lead)[|lead| - 1] == LowerChar(lead[|lead| - 1]) == domain[|domain| - 1];
  }

  lemma CanonicalLonger(domain: string, t: string)
    requires ValidDomain(domain) && (t != "" ==> t[0] != '/')
    ensures CanonicalPath(Anchored(domain + t, domain), domain) == PathFor(domain, t)
  {
    DomainIsPlain(domain);
    assert (domain + t)[0] == domain[0];
    AnchorKeeps(domain + t, domain);
    assert (domain + t)[|domain|..] == t;
  }

  lemma FirstOfJoin(segs: seq<string>)
    requires AreSegments(segs) && (segs == [""] || (segs[0] != "" && !IsSpace(segs[0][0])))
    ensures var t := TrimRight(ToLower(Join(segs, '/'))); t != "" ==> t[0] != '/'
  {
    var q := Join(segs, '/');
    LowerOfTrimRight(q);
    TrimRightResult(q);
    if segs[0] != "" {
      assert q[0] == segs[0][0] && segs[0][0] in segs[0];
    }
  }

  lemma LongerUnclipped(domain: string, raw: string, segs: seq<string>)
    requires ValidDomain(domain) && AreSegments(segs) && (segs == [""] || (segs[0] != "" && !IsSpace(segs[0][0])))
    requires Stripped(TrimSpace(raw)) == domain + TrimRight(ToLower(Join(segs, '/')))
    ensures Unclipped(raw, domain) == PathFor(domain, TrimRight(ToLower(Join(segs, '/'))))
  {
    DomainIsPlain(domain);
    SomethingLeft(raw);
    FirstOfJoin(segs);
    CanonicalLonger(domain, TrimRight(ToLower(Join(segs, '/'))));
  }

  lemma LongerMeaning(domain: string, w: string, lead: string, segs: seq<string>, query: string)
    requires ValidDomain(domain) && Blank(w) && IsSite(lead, domain) && AreSegments(segs) && IsQuery(query)
    requires segs == [""] || (segs[0] != "" && !IsSpace(segs[0][0]))
    ensures Normalize(w + lead + Join(segs, '/') + query, domain) == First(Assembled(domain, NormalizeAll(segs)), 512)
  {
    JoinUnmarked(segs);
    StrippedLonger(w, lead, domain, Join(segs, '/'), query);
    LongerUnclipped(domain, w + lead + Join(segs, '/') + query, segs);
    PathForMeaning(domain, segs);
    OutsEndTrimmed(domain, segs);
  }

  /** The domain is only compared with the start of an address: what goes on after it without a slash
      becomes the first segment, so that a longer name is taken for a page of the shorter one. */
  lemma LongerNameMeaning(domain: string, w: string, lead: string, segs: seq<string>, outs: seq<string>, query: string)
    requires ValidDomain(domain) && Blank(w) && IsSite(lead, domain) && AreSegments(segs) && IsQuery(query)
    requires segs == [""] || (segs[0] != "" && !IsSpace(segs[0][0]))
    requires |outs| == |segs| && forall i :: 0 <= i < |segs| ==> Becomes(segs[i], outs[i])
    ensures Normalize(w + lead + Join(segs, '/') + query, domain) == First(Assembled(domain, outs), 512)
  {
    OutsAreCanonical(segs, outs);
    LongerMeaning(domain, w, lead, segs, query);
  }

  lemma SchemeOnlyIsCut(scheme: string, rest: string)
    requires ToLower(scheme) in ["", HTTPS, HTTP] && !(HTTPS <= rest) && !(HTTP <= rest)
    ensures TrimPrefix(TrimPrefix(ToLower(scheme) + rest, HTTPS), HTTP) == rest
  {
    if ToLower(scheme) == "" {
      assert ToLower(scheme) + rest == rest;
    } else if ToLower(scheme) == HTTPS {
      assert (HTTPS + rest)[|HTTPS|..] == rest;
    } else {
      assert (HTTP + rest)[|HTTP|..] == rest;
      assert (HTTP + rest)[4] == ':' && HTTPS[4] == 's';
    }
  }

  lemma NoLongerPrefix(p: string, s: string, query: string)
    requires IsQuery(query) && Unmarked(p) && !(p <= s)
    ensures !(p <= s + query)
  {
    if |s| < |p| <= |s + query| {
      assert (s + query)[|s|] == query[0] && p[|s|] in p;
    }
  }

  lemma StrippedOther(scheme: string, loc: string, query: string)
    requires ToLower(scheme) in ["", HTTPS, HTTP] && Unmarked(loc) && IsQuery(query)
    requires !(HTTPS <= ToLower(loc)) && !(HTTP <= ToLower(loc))
    requires loc != "" && !IsSpace(loc[0])
    ensures Stripped(scheme + loc + query) == TrimRight(ToLower(loc))
  {
    LowerWhole(scheme, loc, query);
    LowerUnmarked(loc);
    LowerQuery(query);
    NoLongerPrefix(HTTPS, ToLower(loc), ToLower(query));
    NoLongerPrefix(HTTP, ToLower(loc), ToLower(query));
    SchemeOnlyIsCut(scheme, ToLower(loc) + ToLower(query));
    CutAt(ToLower(loc), ToLower(query));
    assert TrimLeft(ToLower(loc)) == ToLower(loc);
  }

  /** An address of another site, which does not even begin like this one, becomes the bare domain. */
  lemma OtherSiteMeaning(domain: string, scheme: string, loc: string, query: string)
    requires ToLower(scheme) in ["", HTTPS, HTTP] && Unmarked(loc) && IsQuery(query)
    requires Trimmed(scheme + loc + query) && loc != "" && !IsSpace(loc[0]) && loc[0] != '/'
    requires !(domain <= ToLower(loc)) && !(HTTPS <= ToLower(loc)) && !(HTTP <= ToLower(loc))
    ensures Normalize(scheme + loc + query, domain) == domain
  {
    TrimSpaceResult(scheme + loc + query);
    StrippedOther(scheme, loc, query);
    TrimRightResult(ToLower(loc));
    var s := TrimRight(ToLower(loc));
    assert s <= ToLower(loc) && !(domain <= s);
    if s != "" {
      assert s[0] == LowerChar(loc[0]);
    }
    assert domain[|domain|..] == "";
  }
}

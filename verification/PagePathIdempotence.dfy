/** When the canonical form of a page path is its own canonical form: always, unless the length limit
    cuts a segment into something that is not canonical. */
module PagePathIdempotence {
  import opened Strings
  import opened PagePath

  predicate IsDomainChar(c: char) {
    'a' <= c <= 'z' || '0' <= c <= '9' || c == '.' || c == '-'
  }

  /** Labels, a dot, and at least two letters; at most 255 characters. */
  predicate ValidDomain(d: string) {
    && |d| <= 255
    && (forall i :: 0 <= i < |d| ==> IsDomainChar(d[i]))
    && exists i :: 1 <= i < |d| - 2 && d[i] == '.' && forall j :: i < j < |d| ==> 'a' <= d[j] <= 'z'
  }

  lemma DomainIsPlain(d: string)
    requires ValidDomain(d)
    ensures Clean(d) && '/' !in d && |d| >= 4 && Trimmed(d) && d[0] != '/'
  {
  }

  // ---- a path under the domain goes through the first stages unchanged ----

  /** A scheme cannot be mistaken for the start of a domain: it has no dot before its colon. */
  lemma NotAScheme(domain: string, rest: string, scheme: string, colon: nat)
    requires ValidDomain(domain) && colon < |scheme| && scheme[colon] == ':' && '.' !in scheme
    ensures !(scheme <= domain + rest)
  {
    var s := domain + rest;
    var i :| 1 <= i < |domain| - 2 && domain[i] == '.' && forall j :: i < j < |domain| ==> 'a' <= domain[j] <= 'z';
    assert s[i] == '.' && forall j :: 0 <= j < |domain| ==> s[j] != ':';
    if colon < |domain| {
      assert s[colon] != scheme[colon];
    } else {
      assert s[i] != scheme[i];
    }
  }

  /** A location that starts with the domain itself, and so with no scheme and no slash. */
  predicate StartsAt(s: string, domain: string) {
    domain <= s && !(HTTPS <= s) && !(HTTP <= s) && !(SLASH <= s)
  }

  lemma DomainStarts(domain: string, rest: string)
    requires ValidDomain(domain)
    ensures StartsAt(domain + rest, domain)
  {
    NotAScheme(domain, rest, HTTPS, 5);
    NotAScheme(domain, rest, HTTP, 4);
    assert (domain + rest)[0] == domain[0];
  }

  lemma UnderDomainIsTrimmed(domain: string, t: string)
    requires ValidDomain(domain) && Clean(t) && (t != "" ==> !IsSpace(t[|t| - 1]))
    ensures Trimmed(domain + SLASH + t) && Clean(domain + SLASH + t)
    ensures TrimSpace(domain + SLASH + t) == domain + SLASH + t
  {
    DomainIsPlain(domain);
    var s := domain + SLASH + t;
    assert s[0] == domain[0];
    assert s[|s| - 1] == if t == "" then '/' else t[|t| - 1];
    TrimSpaceResult(s);
  }

  lemma StripKeeps(s: string, p1: string, p2: string)
    requires Clean(s) && Trimmed(s) && !(p1 <= s) && !(p2 <= s)
    ensures TrimSpace(CutQuery(TrimPrefix(TrimPrefix(ToLower(s), p1), p2))) == s
  {
    LowerIsLower(s);
    CutQueryResult(s);
    TrimSpaceResult(s);
  }

  lemma AnchorKeeps(s: string, domain: string)
    requires s != "" && !(SLASH <= s) && domain <= s
    ensures Anchored(s, domain) == s
  {
  }

  lemma PlainIsLocated(s: string, domain: string)
    requires Clean(s) && Trimmed(s) && s != "" && StartsAt(s, domain)
    ensures Anchored(Stripped(s), domain) == s
  {
    StripKeeps(s, HTTPS, HTTP);
    AnchorKeeps(s, domain);
  }

  lemma Associate(a: string, b: string, c: string)
    ensures a + b + c == a + (b + c)
  {
  }

  lemma UnderDomainStarts(domain: string, t: string)
    requires ValidDomain(domain)
    ensures StartsAt(domain + SLASH + t, domain)
  {
    Associate(domain, SLASH, t);
    DomainStarts(domain, SLASH + t);
  }

  lemma UnderDomainIsLocated(domain: string, t: string)
    requires ValidDomain(domain) && Clean(t) && (t != "" ==> !IsSpace(t[|t| - 1]))
    ensures Anchored(Stripped(domain + SLASH + t), domain) == domain + SLASH + t
  {
    UnderDomainIsTrimmed(domain, t);
    UnderDomainStarts(domain, t);
    PlainIsLocated(domain + SLASH + t, domain);
  }

  /** The canonical path with these characters after the domain and the slash. */
  function PathFor(domain: string, t: string): string {
    if t == "" then domain
    else
      var path := Join(NormalizeAll(Split(t, '/')), '/');
      if path == "" then domain else domain + SLASH + path
  }

  lemma TrimUnderDomain(domain: string, q: string)
    requires ValidDomain(domain)
    ensures TrimSpace(domain + SLASH + q) == domain + SLASH + TrimRight(q) != ""
  {
    DomainIsPlain(domain);
    var s := domain + SLASH + q;
    assert s[0] == domain[0] && !IsSpace(s[0]);
    assert TrimLeft(s) == s;
    TrimRightConcat(domain + SLASH, q);
  }

  lemma Suffixes(domain: string, t: string)
    ensures TrimPrefix(domain + SLASH + t, domain) == SLASH + t && TrimPrefix(SLASH + t, SLASH) == t
  {
    Associate(domain, SLASH, t);
    assert (domain + (SLASH + t))[|domain|..] == SLASH + t;
  }

  lemma CanonicalUnderDomain(domain: string, t: string)
    ensures CanonicalPath(domain + SLASH + t, domain) == PathFor(domain, t)
  {
    Suffixes(domain, t);
    assert SLASH + t == SLASH <==> t == "";
  }

  lemma UnclippedUnderDomain(domain: string, q: string)
    requires ValidDomain(domain) && Clean(q)
    ensures Unclipped(domain + SLASH + q, domain) == PathFor(domain, TrimRight(q))
  {
    var t := TrimRight(q);
    TrimRightResult(q);
    CleanPart(t, q);
    TrimUnderDomain(domain, q);
    UnderDomainIsLocated(domain, t);
    CanonicalUnderDomain(domain, t);
  }

  // ---- canonicalizing segments never lengthens a path, and shortens it unless it changes nothing ----

  predicate AllPlain(parts: seq<string>) {
    forall i :: 0 <= i < |parts| ==> Plain(parts[i])
  }

  predicate AllStable(parts: seq<string>) {
    NormalizeAll(parts) == parts
  }

  lemma StableAt(parts: seq<string>, i: nat)
    requires i < |parts| && AllStable(parts)
    ensures NormalizeSegment(parts[i]) == parts[i]
  {
    assert NormalizeAll(parts)[i] == NormalizeSegment(parts[i]);
  }

  lemma AllStableIf(parts: seq<string>)
    requires forall i :: 0 <= i < |parts| ==> NormalizeSegment(parts[i]) == parts[i]
    ensures AllStable(parts)
  {
  }

  predicate ShorterOrSame(a: string, b: string) {
    a == b || |a| < |b|
  }

  lemma {:induction false} JoinShrinksTo(short: seq<string>, parts: seq<string>)
    requires |short| == |parts| > 0 && forall i :: 0 <= i < |parts| ==> ShorterOrSame(short[i], parts[i])
    ensures |Join(short, '/')| <= |Join(parts, '/')|
    ensures short != parts ==> |Join(short, '/')| < |Join(parts, '/')|
  {
    assert ShorterOrSame(short[0], parts[0]);
    if |parts| == 1 {
      assert short == [short[0]] && parts == [parts[0]];
    } else {
      JoinShrinksTo(short[1..], parts[1..]);
      assert short == [short[0]] + short[1..] && parts == [parts[0]] + parts[1..];
    }
  }

  lemma JoinShrinks(parts: seq<string>)
    requires |parts| > 0 && AllPlain(parts)
    ensures |Join(NormalizeAll(parts), '/')| <= |Join(parts, '/')|
    ensures !AllStable(parts) ==> |Join(NormalizeAll(parts), '/')| < |Join(parts, '/')|
  {
    forall i | 0 <= i < |parts|
      ensures ShorterOrSame(NormalizeAll(parts)[i], parts[i])
    {
      SegmentForm(parts[i]);
    }
    JoinShrinksTo(NormalizeAll(parts), parts);
  }

  lemma PartIsPlain(q: string, i: nat)
    requires Clean(q) && i < |Split(q, '/')|
    ensures Plain(Split(q, '/')[i])
  {
    SplitParts(q, '/');
    CleanPart(Split(q, '/')[i], q);
  }

  lemma SplitIsPlain(q: string)
    requires Clean(q)
    ensures AllPlain(Split(q, '/'))
  {
    forall i | 0 <= i < |Split(q, '/')|
      ensures Plain(Split(q, '/')[i])
    {
      PartIsPlain(q, i);
    }
  }

  lemma PathForShrinks(domain: string, t: string)
    requires Clean(t)
    ensures |PathFor(domain, t)| <= |domain + SLASH + t|
    ensures t != "" && !AllStable(Split(t, '/')) ==> |PathFor(domain, t)| < |domain + SLASH + t|
  {
    SplitIsPlain(t);
    JoinShrinks(Split(t, '/'));
    JoinSplit(t, '/');
  }

  function LastSegment(s: string): string {
    Split(s, '/')[|Split(s, '/')| - 1]
  }

  lemma {:induction false} LastCharacter(s: string)
    requires s != ""
    ensures Split(s, '/') != [""]
    ensures s[|s| - 1] == if LastSegment(s) == "" then '/' else LastSegment(s)[|LastSegment(s)| - 1]
  {
    if |s| > 1 {
      LastCharacter(s[1..]);
    }
  }

  lemma StablePlainTrimmed(seg: string)
    requires Plain(seg) && Stable(seg)
    ensures Trimmed(seg)
  {
    SegmentForm(seg);
  }

  lemma StablePartTrimmed(parts: seq<string>, i: nat)
    requires i < |parts| && AllStable(parts) && Plain(parts[i])
    ensures Trimmed(parts[i])
  {
    assert NormalizeAll(parts)[i] == NormalizeSegment(parts[i]);
    StablePlainTrimmed(parts[i]);
  }

  lemma LastSegmentTrimmed(q: string)
    requires Clean(q) && AllStable(Split(q, '/'))
    ensures Trimmed(LastSegment(q))
  {
    var last := |Split(q, '/')| - 1;
    PartIsPlain(q, last);
    StablePartTrimmed(Split(q, '/'), last);
  }

  lemma EndsTrimmed(q: string)
    requires q != "" && Trimmed(LastSegment(q))
    ensures !IsSpace(q[|q| - 1])
  {
    LastCharacter(q);
  }

  /** A stable last segment leaves nothing to trim off the end of a path. */
  lemma StableEndsTrimmed(q: string)
    requires q != "" && Clean(q) && AllStable(Split(q, '/'))
    ensures !IsSpace(q[|q| - 1])
  {
    LastSegmentTrimmed(q);
    EndsTrimmed(q);
  }

  lemma StableIsFixed(domain: string, q: string)
    requires ValidDomain(domain) && Clean(q) && q != "" && AllStable(Split(q, '/'))
    ensures Unclipped(domain + SLASH + q, domain) == domain + SLASH + q
  {
    StableEndsTrimmed(q);
    UnclippedUnderDomain(domain, q);
    JoinSplit(q, '/');
  }

  lemma UnstableShrinks(domain: string, q: string)
    requires ValidDomain(domain) && Clean(q) && q != "" && !AllStable(Split(q, '/'))
    ensures |Unclipped(domain + SLASH + q, domain)| < |domain + SLASH + q|
  {
    var t := TrimRight(q);
    UnclippedUnderDomain(domain, q);
    TrimRightResult(q);
    CleanPart(t, q);
    PathForShrinks(domain, t);
  }

  /** A path under the domain is a fixed point exactly when all its segments are stable; any other path
      gets shorter. */
  lemma FixedIffStable(domain: string, q: string)
    requires ValidDomain(domain) && Clean(q) && q != ""
    ensures Unclipped(domain + SLASH + q, domain) == domain + SLASH + q <==> AllStable(Split(q, '/'))
    ensures !AllStable(Split(q, '/')) ==> |Unclipped(domain + SLASH + q, domain)| < |domain + SLASH + q|
  {
    if AllStable(Split(q, '/')) {
      StableIsFixed(domain, q);
    } else {
      UnstableShrinks(domain, q);
    }
  }

  lemma NormalizeUnderDomain(domain: string, q: string)
    requires ValidDomain(domain) && Clean(q) && q != "" && |domain + SLASH + q| <= MAX_LENGTH
    ensures Normalize(domain + SLASH + q, domain) == domain + SLASH + q <==> AllStable(Split(q, '/'))
  {
    var s := domain + SLASH + q;
    FixedIffStable(domain, q);
    if AllStable(Split(q, '/')) {
      StableEndsTrimmed(q);
      UnderDomainIsTrimmed(domain, q);
    } else {
      TrimSpaceResult(Unclipped(s, domain));
    }
  }

  lemma DomainStartsItself(domain: string)
    requires ValidDomain(domain)
    ensures StartsAt(domain, domain)
  {
    DomainStarts(domain, "");
    assert domain + "" == domain;
  }

  lemma BareDomain(domain: string)
    requires TrimSpace(domain) == domain && Anchored(Stripped(domain), domain) == domain
    ensures Normalize(domain, domain) == domain
  {
  }

  lemma DomainIsFixed(domain: string)
    requires ValidDomain(domain)
    ensures Normalize(domain, domain) == domain
  {
    DomainIsPlain(domain);
    TrimSpaceResult(domain);
    DomainStartsItself(domain);
    PlainIsLocated(domain, domain);
    BareDomain(domain);
  }

  // ---- the main result ----

  /** The form of every unclipped canonical path. */
  lemma UnclippedForm(raw: string, domain: string)
    requires ValidDomain(domain) && Unclipped(raw, domain) != domain
    ensures var path := Join(Segments(raw, domain), '/');
            && Unclipped(raw, domain) == domain + SLASH + path && path != "" && Clean(path)
            && Split(path, '/') == Segments(raw, domain) && AllStable(Split(path, '/'))
  {
    DomainIsPlain(domain);
    SegmentsAreCanonical(raw, domain);
    var segments := Segments(raw, domain);
    SplitJoin(segments, '/');
    JoinChars(segments, '/');
    var path := Join(segments, '/');
    forall i | 0 <= i < |path|
      ensures LowerChar(path[i]) == path[i] && path[i] != '?' && path[i] != '#'
    {
      assert path[i] in path;
      if path[i] != '/' {
        var k :| 0 <= k < |segments| && path[i] in segments[k];
        var j :| 0 <= j < |segments[k]| && segments[k][j] == path[i];
      }
    }
  }

  lemma TruncateTrimmed(s: string)
    requires Trimmed(s)
    ensures Truncate(s, MAX_LENGTH) == if |s| <= MAX_LENGTH then s else s[..MAX_LENGTH]
  {
    TrimSpaceResult(s);
  }

  lemma CutUnderDomain(domain: string, path: string, n: nat)
    requires |domain| + 1 <= n <= |domain + SLASH + path|
    ensures (domain + SLASH + path)[..n] == domain + SLASH + path[..n - |domain| - 1]
  {
  }

  lemma LastSegmentUnder(domain: string, q: string)
    requires ValidDomain(domain)
    ensures LastSegment(domain + SLASH + q) == LastSegment(q)
  {
    DomainIsPlain(domain);
    SplitFirst(domain, q, '/');
  }

  /** The parts before the last one of a cut list are parts of the whole list. */
  lemma UncutPart(cut: seq<string>, whole: seq<string>, i: nat)
    requires CutOf(cut, whole) && i < |cut| - 1
    ensures cut[i] == whole[i]
  {
    assert cut[..|cut| - 1][i] == whole[..|cut| - 1][i];
  }

  lemma UncutPartIsStable(cut: seq<string>, whole: seq<string>, i: nat)
    requires CutOf(cut, whole) && AllStable(whole) && i < |cut| - 1
    ensures NormalizeSegment(cut[i]) == cut[i]
  {
    UncutPart(cut, whole, i);
    StableAt(whole, i);
  }

  lemma CutIsStable(cut: seq<string>, whole: seq<string>)
    requires CutOf(cut, whole) && AllStable(whole) && Stable(cut[|cut| - 1])
    ensures AllStable(cut)
  {
    forall i | 0 <= i < |cut|
      ensures NormalizeSegment(cut[i]) == cut[i]
    {
      if i < |cut| - 1 {
        UncutPartIsStable(cut, whole, i);
      }
    }
    AllStableIf(cut);
  }

  lemma AllStableByLast(cut: seq<string>, whole: seq<string>)
    requires CutOf(cut, whole) && AllStable(whole)
    ensures AllStable(cut) <==> Stable(cut[|cut| - 1])
  {
    if AllStable(cut) {
      StableAt(cut, |cut| - 1);
    } else if Stable(cut[|cut| - 1]) {
      CutIsStable(cut, whole);
    }
  }

  lemma StableCut(path: string, n: nat)
    requires n <= |path| && AllStable(Split(path, '/'))
    ensures AllStable(Split(path[..n], '/')) <==> Stable(LastSegment(path[..n]))
  {
    var cut := Split(path[..n], '/');
    SplitPrefix(path, n, '/');
    AllStableByLast(cut, Split(path, '/'));
    assert LastSegment(path[..n]) == cut[|cut| - 1];
  }

  /** The part of the path that the length limit keeps. */
  function Kept(domain: string, path: string): string
    requires |domain| < MAX_LENGTH
  {
    if |domain + SLASH + path| <= MAX_LENGTH then path else path[..MAX_LENGTH - |domain| - 1]
  }

  /** The length limit keeps the domain and cuts only the path. */
  lemma ClippedForm(domain: string, path: string)
    requires ValidDomain(domain) && Clean(path) && path != "" && AllStable(Split(path, '/'))
    ensures var full, q := domain + SLASH + path, Kept(domain, path);
            && Truncate(full, MAX_LENGTH) == domain + SLASH + q && q != "" && Clean(q)
            && (|full| > MAX_LENGTH ==> full[..MAX_LENGTH] == domain + SLASH + q)
            && (|full| <= MAX_LENGTH ==> q == path)
  {
    StableEndsTrimmed(path);
    UnderDomainIsTrimmed(domain, path);
    TruncateTrimmed(domain + SLASH + path);
    CleanPart(Kept(domain, path), path);
    if |domain + SLASH + path| > MAX_LENGTH {
      CutUnderDomain(domain, path, MAX_LENGTH);
    }
  }

  /** Canonicalizing twice changes nothing exactly when the canonical path fits the limit or the segment
      the limit cuts is still canonical. */
  lemma IdempotentIff(raw: string, domain: string)
    requires ValidDomain(domain)
    ensures Normalize(Normalize(raw, domain), domain) == Normalize(raw, domain) <==>
            |Unclipped(raw, domain)| <= MAX_LENGTH || Stable(LastSegment(Unclipped(raw, domain)[..MAX_LENGTH]))
  {
    var full := Unclipped(raw, domain);
    if full == domain {
      DomainIsFixed(domain);
    } else {
      UnclippedForm(raw, domain);
      var path := Join(Segments(raw, domain), '/');
      ClippedForm(domain, path);
      var q := Kept(domain, path);
      NormalizeUnderDomain(domain, q);
      LastSegmentUnder(domain, q);
      if |full| > MAX_LENGTH {
        StableCut(path, |q|);
      }
    }
  }

  /** In particular every path whose canonical form fits the limit. */
  lemma IdempotentWhenUnclipped(raw: string, domain: string)
    requires ValidDomain(domain) && |Unclipped(raw, domain)| <= MAX_LENGTH
    ensures Normalize(Normalize(raw, domain), domain) == Normalize(raw, domain)
  {
    IdempotentIff(raw, domain);
  }

  // ---- a path on which it fails ----

  /** One long segment whose cut ends in a blank. */
  function LongSegment(): string {
    seq(506, _ => '%') + [' ', '%']
  }

  /** A segment of blanks after a percent mark is no identifier and no number. */
  lemma MarkedStable(seg: string)
    requires seg != "" && seg[0] == '%' && Plain(seg)
    ensures Trimmed(seg) <==> Stable(seg)
  {
    SegmentForm(seg);
    if Trimmed(seg) {
      NormalizePlain(seg);
      TrimSpaceResult(seg);
      MarkedUnclassified(seg);
    }
  }

  lemma MarkedUnclassified(seg: string)
    requires seg != "" && seg[0] == '%'
    ensures Classify(seg) == seg
  {
    assert !IsHex(seg[0]) && !IsTokenChar(seg[0]);
    assert !IsUuid(seg) && !IsAllDigits(seg) && !IsToken(seg);
  }

  lemma PlainIsOnePart(seg: string)
    requires Plain(seg)
    ensures Split(seg, '/') == [seg] && LastSegment(seg) == seg
  {
    SplitFirst(seg, "", '/');
  }

  lemma OnePartStable(seg: string)
    requires Plain(seg) && Stable(seg)
    ensures AllStable(Split(seg, '/'))
  {
    PlainIsOnePart(seg);
    AllStableIf([seg]);
  }

  lemma LongSegmentAndCut()
    ensures var seg := LongSegment();
            && |seg| == 508 && Plain(seg) && Plain(seg[..507])
            && seg[0] == '%' && seg[..507][0] == '%' && Trimmed(seg) && !Trimmed(seg[..507])
  {
    var seg := LongSegment();
    assert seg[0] == '%' && seg[507] == '%';
    assert seg[..507][506] == ' ' && seg[..507][0] == '%';
  }

  /** A location that starts with a slash is put under the domain. */
  lemma RelativeIsLocated(domain: string, t: string)
    requires Clean(t) && t != "" && !IsSpace(t[|t| - 1])
    ensures TrimSpace(SLASH + t) == SLASH + t != ""
    ensures Anchored(Stripped(SLASH + t), domain) == domain + (SLASH + t)
  {
    var s := SLASH + t;
    assert s[0] == '/' && s[|s| - 1] == t[|t| - 1] && Clean(s) && SLASH <= s;
    TrimSpaceResult(s);
    StripKeeps(s, HTTPS, HTTP);
    assert domain <= domain + s;
  }

  lemma UnclippedRelative(domain: string, t: string)
    requires Clean(t) && t != "" && !IsSpace(t[|t| - 1])
    ensures Unclipped(SLASH + t, domain) == PathFor(domain, t)
  {
    RelativeIsLocated(domain, t);
    Associate(domain, SLASH, t);
    CanonicalUnderDomain(domain, t);
  }

  /** A stable segment after a slash becomes the whole path. */
  lemma UnclippedSegment(domain: string, seg: string)
    requires Plain(seg) && Stable(seg) && Trimmed(seg) && seg != ""
    ensures Unclipped(SLASH + seg, domain) == domain + SLASH + seg
  {
    UnclippedRelative(domain, seg);
    OnePartStable(seg);
    JoinSplit(seg, '/');
  }

  /** The segment that the limit cuts out of such a path. */
  lemma CutSegment(site: string, seg: string)
    requires ValidDomain(site) && |site| == 4 && |seg| == 508 && Plain(seg[..507])
    ensures LastSegment((site + SLASH + seg)[..MAX_LENGTH]) == seg[..507]
  {
    CutUnderDomain(site, seg, MAX_LENGTH);
    LastSegmentUnder(site, seg[..507]);
    PlainIsOnePart(seg[..507]);
  }

  const SITE: string := ['a', '.', 'c', 'o']

  lemma SiteIsValid()
    ensures ValidDomain(SITE) && |SITE| == 4
  {
    assert SITE[1] == '.';
  }

  /** A path of 509 characters, which the service passes on uncut, whose canonical form is not its own. */
  lemma ClippedPathMayChange()
    ensures ValidDomain(SITE) && |SLASH + LongSegment()| == 509
    ensures Normalize(Normalize(SLASH + LongSegment(), SITE), SITE) != Normalize(SLASH + LongSegment(), SITE)
  {
    var seg := LongSegment();
    LongSegmentAndCut();
    SiteIsValid();
    MarkedStable(seg);
    MarkedStable(seg[..507]);
    UnclippedSegment(SITE, seg);
    CutSegment(SITE, seg);
    IdempotentIff(SLASH + seg, SITE);
  }
}

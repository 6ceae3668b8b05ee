/** The canonical form of page paths in compatibility telemetry. */
module PagePath {
  import opened Strings

  const MAX_LENGTH: nat := 512
  const HTTPS: string := "https://"
  const HTTP: string := "http://"
  const SLASH: string := "/"
  const ID_SEGMENT: string := ":id"
  const NUMBER_SEGMENT: string := ":n"

  // ---- path segments ----

  predicate IsHex(c: char) {
    '0' <= c <= '9' || 'a' <= c <= 'f' || 'A' <= c <= 'F'
  }

  /** 8-4-4-4-12 hexadecimal digits, with a version from 1 to 5 and an RFC variant. */
  predicate IsUuid(s: string) {
    && |s| == 36
    && (forall i :: 0 <= i < 36 ==> if i == 8 || i == 13 || i == 18 || i == 23 then s[i] == '-' else IsHex(s[i]))
    && '1' <= s[14] <= '5'
    && s[19] in "89abAB"
  }

  predicate IsAllDigits(s: string) {
    s != "" && forall i :: 0 <= i < |s| ==> '0' <= s[i] <= '9'
  }

  predicate IsTokenChar(c: char) {
    'a' <= c <= 'z' || 'A' <= c <= 'Z' || '0' <= c <= '9' || c == '_' || c == '-'
  }

  predicate IsToken(s: string) {
    |s| >= 20 && forall i :: 0 <= i < |s| ==> IsTokenChar(s[i])
  }

  function Classify(seg: string): string {
    if seg == "" then seg
    else if IsUuid(seg) then ID_SEGMENT
    else if IsAllDigits(seg) && |seg| >= 4 then NUMBER_SEGMENT
    else if IsToken(seg) then ID_SEGMENT
    else seg
  }

  function NormalizeSegment(raw: string): string {
    Classify(TrimSpace(ToLower(raw)))
  }

  /** A segment that is its own canonical form. */
  predicate Stable(seg: string) {
    NormalizeSegment(seg) == seg
  }

  // ---- whole paths ----

  function NormalizeAll(parts: seq<string>): (r: seq<string>)
    ensures |r| == |parts|
  {
    seq(|parts|, i requires 0 <= i < |parts| => NormalizeSegment(parts[i]))
  }

  function Truncate(s: string, max: nat): string {
    var t := TrimSpace(s);
    if |t| <= max then t else t[..max]
  }

  /** A trimmed location without scheme, query and fragment. */
  function Stripped(trimmed: string): string {
    TrimSpace(CutQuery(TrimPrefix(TrimPrefix(ToLower(trimmed), HTTPS), HTTP)))
  }

  /** A relative location is put under the domain; one of another site becomes the domain. */
  function Anchored(r: string, domain: string): string {
    var full := if SLASH <= r then domain + r else r;
    if full == "" || !(domain <= full) then domain else full
  }

  function Located(raw: string, domain: string): string {
    Anchored(Stripped(TrimSpace(raw)), domain)
  }

  /** The canonical path of a location, before it is cut to its maximal length. */
  function CanonicalPath(located: string, domain: string): string {
    var suffix := TrimPrefix(located, domain);
    if suffix == "" || suffix == SLASH then domain
    else
      var path := Join(NormalizeAll(Split(TrimPrefix(suffix, SLASH), '/')), '/');
      if path == "" then domain else domain + SLASH + path
  }

  function Unclipped(raw: string, domain: string): string {
    if TrimSpace(raw) == "" then domain else CanonicalPath(Located(raw, domain), domain)
  }

  function Clip(path: string, domain: string): string {
    if path == domain then domain else Truncate(path, MAX_LENGTH)
  }

  function Normalize(raw: string, domain: string): string {
    Clip(Unclipped(raw, domain), domain)
  }

  method Strip(trimmed: string) returns (raw: string)
    ensures raw == Stripped(trimmed)
  {
    raw := ToLower(trimmed);
    raw := TrimPrefix(raw, HTTPS);
    raw := TrimPrefix(raw, HTTP);
    raw := CutQuery(raw);
    raw := TrimSpace(raw);
  }

  method Anchor(stripped: string, domain: string) returns (raw: string)
    ensures raw == Anchored(stripped, domain)
  {
    raw := stripped;
    if SLASH <= raw {
      raw := domain + raw;
    }
    if raw == "" || !(domain <= raw) {
      raw := domain;
    }
  }

  method CanonicalizeSegments(split: seq<string>) returns (parts: seq<string>)
    ensures parts == NormalizeAll(split)
  {
    parts := split;
    for i := 0 to |parts|
      invariant |parts| == |split|
      invariant forall j :: 0 <= j < i ==> parts[j] == NormalizeSegment(split[j])
      invariant forall j :: i <= j < |split| ==> parts[j] == split[j]
    {
      parts := parts[i := NormalizeSegment(parts[i])];
    }
  }

  /** normalizeCompatPagePath, which rewrites its argument and the list of segments as it goes. */
  method NormalizeCompatPagePath(input: string, domain: string) returns (canonical: string)
    ensures canonical == Normalize(input, domain)
  {
    var raw := TrimSpace(input);
    if raw == "" {
      return domain;
    }
    raw := Strip(raw);
    raw := Anchor(raw, domain);
    var suffix := TrimPrefix(raw, domain);
    if suffix == "" || suffix == SLASH {
      return domain;
    }
    var parts := CanonicalizeSegments(Split(TrimPrefix(suffix, SLASH), '/'));
    var path := Join(parts, '/');
    if path == "" {
      return domain;
    }
    canonical := Truncate(domain + SLASH + path, MAX_LENGTH);
    assert |domain + SLASH + path| > |domain|;
  }

  // ---- canonical segments ----

  /** The characters of a path that is already lower-case and free of query and separator marks. */
  predicate Plain(s: string) {
    IsLower(s) && '?' !in s && '#' !in s && '/' !in s
  }

  lemma PlaceholdersAreFixed()
    ensures forall p :: p == ID_SEGMENT || p == NUMBER_SEGMENT ==> Plain(p) && Trimmed(p) && Classify(p) == p
  {
    assert ID_SEGMENT[0] == ':' == NUMBER_SEGMENT[0];
  }

  lemma ClassifyForm(seg: string)
    requires Plain(seg) && Trimmed(seg)
    ensures var n := Classify(seg); Plain(n) && Trimmed(n) && Classify(n) == n && (n == seg || |n| < |seg|)
  {
    PlaceholdersAreFixed();
  }

  lemma NormalizePlain(seg: string)
    requires Plain(seg)
    ensures NormalizeSegment(seg) == Classify(TrimSpace(seg))
    ensures Plain(TrimSpace(seg)) && Trimmed(TrimSpace(seg)) && (TrimSpace(seg) == seg || |TrimSpace(seg)| < |seg|)
  {
    LowerIsLower(seg);
    TrimSpaceResult(seg);
    IsLowerByChars(TrimSpace(seg), seg);
  }

  /** A canonical segment is stable, trimmed and plain; an unstable lower-case segment gets shorter. */
  lemma SegmentForm(seg: string)
    requires Plain(seg)
    ensures var n := NormalizeSegment(seg); Plain(n) && Trimmed(n) && Stable(n) && (n == seg || |n| < |seg|)
  {
    NormalizePlain(seg);
    ClassifyForm(TrimSpace(seg));
    var n := NormalizeSegment(seg);
    NormalizePlain(n);
    TrimSpaceResult(n);
  }

  /** A list of segments as Normalize produces it. */
  predicate Canonical(parts: seq<string>) {
    |parts| > 0 && forall i :: 0 <= i < |parts| ==> Plain(parts[i]) && Trimmed(parts[i]) && Stable(parts[i])
  }

  /** The segments of the canonical path; every path that is more than the bare domain has them. */
  function Segments(raw: string, domain: string): seq<string> {
    NormalizeAll(Split(TrimPrefix(TrimPrefix(Located(raw, domain), domain), SLASH), '/'))
  }

  lemma IsLowerByChars(s: string, of: string)
    requires IsLower(of) && forall c :: c in s ==> c in of
    ensures IsLower(s)
  {
    forall i | 0 <= i < |s|
      ensures LowerChar(s[i]) == s[i]
    {
      assert s[i] in of;
    }
  }

  /** Lower-case, and free of query and fragment marks. */
  predicate Clean(s: string) {
    IsLower(s) && '?' !in s && '#' !in s
  }

  lemma CleanPart(s: string, of: string)
    requires Clean(of) && forall c :: c in s ==> c in of
    ensures Clean(s)
  {
    IsLowerByChars(s, of);
  }

  lemma StripClean(raw: string, p1: string, p2: string)
    requires IsLower(raw)
    ensures Clean(TrimSpace(CutQuery(TrimPrefix(TrimPrefix(raw, p1), p2))))
    ensures Trimmed(TrimSpace(CutQuery(TrimPrefix(TrimPrefix(raw, p1), p2))))
  {
    var rest := TrimPrefix(TrimPrefix(raw, p1), p2);
    IsLowerByChars(rest, raw);
    CutQueryResult(rest);
    IsLowerByChars(CutQuery(rest), rest);
    TrimSpaceResult(CutQuery(rest));
    CleanPart(TrimSpace(CutQuery(rest)), CutQuery(rest));
  }

  lemma StrippedIsClean(raw: string)
    ensures Clean(Stripped(raw)) && Trimmed(Stripped(raw))
  {
    LowerIsLower(raw);
    StripClean(ToLower(raw), HTTPS, HTTP);
  }

  lemma AnchoredIsClean(r: string, domain: string)
    requires Clean(r) && Clean(domain)
    ensures Clean(Anchored(r, domain)) && domain <= Anchored(r, domain)
  {
    assert Clean(domain + r);
  }

  lemma LocatedIsClean(raw: string, domain: string)
    requires Clean(domain)
    ensures Clean(Located(raw, domain)) && domain <= Located(raw, domain)
  {
    StrippedIsClean(TrimSpace(raw));
    AnchoredIsClean(Stripped(TrimSpace(raw)), domain);
  }

  lemma TailIsClean(s: string, p1: string, p2: string)
    requires Clean(s)
    ensures Clean(TrimPrefix(TrimPrefix(s, p1), p2))
  {
    CleanPart(TrimPrefix(TrimPrefix(s, p1), p2), s);
  }

  lemma SplitIsCanonical(tail: string)
    requires Clean(tail)
    ensures Canonical(NormalizeAll(Split(tail, '/')))
  {
    var parts := Split(tail, '/');
    SplitParts(tail, '/');
    forall i | 0 <= i < |parts|
      ensures Plain(NormalizeAll(parts)[i]) && Trimmed(NormalizeAll(parts)[i]) && Stable(NormalizeAll(parts)[i])
    {
      CleanPart(parts[i], tail);
      SegmentForm(parts[i]);
    }
  }

  lemma SegmentsAreCanonical(raw: string, domain: string)
    requires Clean(domain)
    ensures Canonical(Segments(raw, domain))
  {
    LocatedIsClean(raw, domain);
    TailIsClean(Located(raw, domain), domain, SLASH);
    SplitIsCanonical(TrimPrefix(TrimPrefix(Located(raw, domain), domain), SLASH));
  }
}

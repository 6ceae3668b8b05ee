/** The string operations of Go's strings package that the telemetry code uses, on ASCII strings. */
module Strings {

  predicate IsSpace(c: char) {
    c == ' ' || c == '\t' || c == '\n' || c == '\r' || c == '\U{0B}' || c == '\U{0C}'
  }

  function LowerChar(c: char): char {
    if 'A' <= c <= 'Z' then (c as int + 32) as char else c
  }

  function ToLower(s: string): string {
    seq(|s|, i requires 0 <= i < |s| => LowerChar(s[i]))
  }

  predicate IsLower(s: string) {
    forall i :: 0 <= i < |s| ==> LowerChar(s[i]) == s[i]
  }

  lemma LowerIsLower(s: string)
    ensures IsLower(ToLower(s)) && |ToLower(s)| == |s| && (IsLower(s) ==> ToLower(s) == s)
  {
  }

  function TrimLeft(s: string): string {
    if s != "" && IsSpace(s[0]) then TrimLeft(s[1..]) else s
  }

  function TrimRight(s: string): string {
    if s != "" && IsSpace(s[|s| - 1]) then TrimRight(s[..|s| - 1]) else s
  }

  function TrimSpace(s: string): string {
    TrimRight(TrimLeft(s))
  }

  predicate Trimmed(s: string) {
    s != "" ==> !IsSpace(s[0]) && !IsSpace(s[|s| - 1])
  }

  lemma {:induction false} TrimLeftResult(s: string)
    ensures |TrimLeft(s)| <= |s| && TrimLeft(s) == s[|s| - |TrimLeft(s)|..]
    ensures TrimLeft(s) != "" ==> !IsSpace(TrimLeft(s)[0])
  {
    if s != "" && IsSpace(s[0]) {
      TrimLeftResult(s[1..]);
    }
  }

  lemma {:induction false} TrimRightResult(s: string)
    ensures TrimRight(s) <= s
    ensures TrimRight(s) != "" ==> !IsSpace(TrimRight(s)[|TrimRight(s)| - 1])
  {
    if s != "" && IsSpace(s[|s| - 1]) {
      TrimRightResult(s[..|s| - 1]);
    }
  }

  lemma TrimSpaceResult(s: string)
    ensures Trimmed(TrimSpace(s)) && (TrimSpace(s) == s || |TrimSpace(s)| < |s|)
    ensures forall c :: c in TrimSpace(s) ==> c in s
    ensures Trimmed(s) ==> TrimSpace(s) == s
  {
    TrimLeftResult(s);
    TrimRightResult(TrimLeft(s));
  }

  lemma {:induction false} TrimRightConcat(a: string, b: string)
    requires a != "" && !IsSpace(a[|a| - 1])
    ensures TrimRight(a + b) == a + TrimRight(b)
  {
    if b == "" {
      assert a + b == a;
    } else if IsSpace(b[|b| - 1]) {
      assert (a + b)[..|a + b| - 1] == a + b[..|b| - 1];
      TrimRightConcat(a, b[..|b| - 1]);
    }
  }

  function TrimPrefix(s: string, p: string): string {
    if p <= s then s[|p|..] else s
  }

  /** The part of a string before its first query or fragment mark. */
  function CutQuery(s: string): string {
    if s == "" || s[0] == '?' || s[0] == '#' then "" else [s[0]] + CutQuery(s[1..])
  }

  lemma {:induction false} CutQueryResult(s: string)
    ensures CutQuery(s) <= s && '?' !in CutQuery(s) && '#' !in CutQuery(s)
    ensures '?' !in s && '#' !in s ==> CutQuery(s) == s
  {
    if s != "" && s[0] != '?' && s[0] != '#' {
      CutQueryResult(s[1..]);
    }
  }

  // ---- split and join at a separator ----

  function Split(s: string, sep: char): (parts: seq<string>)
    ensures |parts| > 0
  {
    if s == "" then [""]
    else Prepend(s[0], sep, Split(s[1..], sep))
  }

  /** The parts of a string with one more character in front. */
  function Prepend(c: char, sep: char, parts: seq<string>): (r: seq<string>)
    requires |parts| > 0
    ensures |r| > 0
  {
    if c == sep then [""] + parts else [[c] + parts[0]] + parts[1..]
  }

  function Join(parts: seq<string>, sep: char): string
    requires |parts| > 0
  {
    if |parts| == 1 then parts[0] else parts[0] + [sep] + Join(parts[1..], sep)
  }

  predicate NoPartHas(parts: seq<string>, c: char) {
    forall i :: 0 <= i < |parts| ==> c !in parts[i]
  }

  lemma {:induction false} SplitParts(s: string, sep: char)
    ensures NoPartHas(Split(s, sep), sep)
    ensures forall i, c :: 0 <= i < |Split(s, sep)| && c in Split(s, sep)[i] ==> c in s
  {
    if s != "" {
      var parts, rest := Split(s, sep), Split(s[1..], sep);
      SplitParts(s[1..], sep);
      forall i, c | 0 <= i < |parts| && c in parts[i]
        ensures c in s
      {
        if s[0] == sep {
          assert i > 0 && parts[i] == rest[i - 1];
          assert c in s[1..];
        } else if i > 0 {
          assert parts[i] == rest[i];
          assert c in s[1..];
        } else {
          assert parts[0] == [s[0]] + rest[0];
          assert c == s[0] || c in s[1..];
        }
      }
    }
  }

  lemma {:induction false} JoinSplit(s: string, sep: char)
    ensures Join(Split(s, sep), sep) == s
  {
    if s != "" {
      var rest := Split(s[1..], sep);
      JoinSplit(s[1..], sep);
      if s[0] == sep {
        assert Split(s, sep)[1..] == rest;
        assert s == [sep] + s[1..];
      } else if |rest| > 1 {
        assert Split(s, sep)[1..] == rest[1..];
        assert s == [s[0]] + s[1..];
      } else {
        assert s == [s[0]] + s[1..];
      }
    }
  }

  /** A leading piece without the separator is the first part. */
  lemma {:induction false} SplitFirst(a: string, b: string, sep: char)
    requires sep !in a
    ensures Split(a, sep) == [a]
    ensures Split(a + [sep] + b, sep) == [a] + Split(b, sep)
  {
    if a == "" {
      assert a + [sep] + b == [sep] + b && ([sep] + b)[1..] == b;
    } else {
      SplitFirst(a[1..], b, sep);
      assert (a + [sep] + b)[1..] == a[1..] + [sep] + b;
      assert [a[0]] + a[1..] == a;
    }
  }

  lemma {:induction false} SplitJoin(parts: seq<string>, sep: char)
    requires |parts| > 0 && NoPartHas(parts, sep)
    ensures Split(Join(parts, sep), sep) == parts
  {
    if |parts| == 1 {
      SplitFirst(parts[0], "", sep);
    } else {
      SplitJoin(parts[1..], sep);
      SplitFirst(parts[0], Join(parts[1..], sep), sep);
      assert [parts[0]] + parts[1..] == parts;
    }
  }

  lemma {:induction false} JoinChars(parts: seq<string>, sep: char)
    requires |parts| > 0
    ensures forall c :: c in Join(parts, sep) ==> c == sep || exists i :: 0 <= i < |parts| && c in parts[i]
  {
    if |parts| > 1 {
      JoinChars(parts[1..], sep);
      forall c | c in Join(parts, sep) && c != sep && c !in parts[0]
        ensures exists i :: 0 <= i < |parts| && c in parts[i]
      {
        assert c in Join(parts[1..], sep);
        var i :| 0 <= i < |parts[1..]| && c in parts[1..][i];
        assert c in parts[i + 1];
      }
    }
  }

  /** The first parts of a list, the last of them perhaps cut short. */
  predicate CutOf(cut: seq<string>, whole: seq<string>) {
    && 0 < |cut| <= |whole|
    && cut[..|cut| - 1] == whole[..|cut| - 1]
    && cut[|cut| - 1] <= whole[|cut| - 1]
  }

  lemma ConsCut(head: string, cut: seq<string>, whole: seq<string>)
    requires CutOf(cut, whole)
    ensures CutOf([head] + cut, [head] + whole)
  {
    assert ([head] + cut)[..|cut|] == [head] + cut[..|cut| - 1];
    assert ([head] + whole)[..|cut|] == [head] + whole[..|cut| - 1];
  }

  lemma LengthenCut(c: char, cut: seq<string>, whole: seq<string>)
    requires CutOf(cut, whole)
    ensures CutOf([[c] + cut[0]] + cut[1..], [[c] + whole[0]] + whole[1..])
  {
    if |cut| > 1 {
      assert cut[0] == cut[..|cut| - 1][0] == whole[0];
      assert cut[1..] == cut[1..|cut| - 1] + [cut[|cut| - 1]];
      assert cut[1..|cut| - 1] == cut[..|cut| - 1][1..] == whole[1..|cut| - 1];
      assert CutOf(cut[1..], whole[1..]);
      ConsCut([c] + cut[0], cut[1..], whole[1..]);
    }
  }

  lemma PrependCut(c: char, sep: char, cut: seq<string>, whole: seq<string>)
    requires CutOf(cut, whole)
    ensures CutOf(Prepend(c, sep, cut), Prepend(c, sep, whole))
  {
    ConsCut("", cut, whole);
    LengthenCut(c, cut, whole);
  }

  /** A cut string splits like the whole one, except that its last part may be cut short. */
  lemma {:induction false} SplitPrefix(s: string, n: nat, sep: char)
    requires n <= |s|
    ensures CutOf(Split(s[..n], sep), Split(s, sep))
  {
    if n > 0 {
      SplitPrefix(s[1..], n - 1, sep);
      assert s[..n][1..] == s[1..][..n - 1];
      PrependCut(s[0], sep, Split(s[1..][..n - 1], sep), Split(s[1..], sep));
    }
  }
}

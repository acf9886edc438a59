/** Character, string and POSIX path primitives with the meaning Python gives them
    (str.isspace, str.strip, str.lower, os.path.basename, os.path.splitext,
    pathlib's with_suffix, str.replace, sorted() on strings). Case mapping is ASCII only. */
module Text {
  import opened Wrappers
  import opened Seqs

  /** The characters Python's str.isspace accepts: what str.strip removes and what `\s` matches. */
  predicate IsSpace(c: char) {
    c == ' ' || ('\t' <= c <= '\r') || ('\U{1C}' <= c <= '\U{1F}') || c == '\U{85}' || c == '\U{A0}'
    || c == '\U{1680}' || ('\U{2000}' <= c <= '\U{200A}') || c == '\U{2028}' || c == '\U{2029}'
    || c == '\U{202F}' || c == '\U{205F}' || c == '\U{3000}'
  }

  predicate IsHexDigit(c: char) {
    ('0' <= c <= '9') || ('a' <= c <= 'f') || ('A' <= c <= 'F')
  }

  function Lower(c: char): char {
    if 'A' <= c <= 'Z' then (c as int + 32) as char else c
  }

  function Upper(c: char): char {
    if 'a' <= c <= 'z' then (c as int - 32) as char else c
  }

  /** str.lower(), restricted to ASCII letters. */
  function LowerStr(s: string): (r: string)
    ensures |r| == |s| && forall i :: 0 <= i < |s| ==> r[i] == Lower(s[i])
  {
    seq(|s|, i requires 0 <= i < |s| => Lower(s[i]))
  }

  /** str.upper(), restricted to ASCII letters. */
  function UpperStr(s: string): (r: string)
    ensures |r| == |s| && forall i :: 0 <= i < |s| ==> r[i] == Upper(s[i])
  {
    seq(|s|, i requires 0 <= i < |s| => Upper(s[i]))
  }

  /** Upper-casing loses nothing that lower-casing keeps: the upper-cased hash still names the same file. */
  lemma LowerOfUpper(s: string)
    ensures LowerStr(UpperStr(s)) == LowerStr(s)
  {
    forall i | 0 <= i < |s|
      ensures LowerStr(UpperStr(s))[i] == LowerStr(s)[i]
    {
      var c := s[i];
      if 'a' <= c <= 'z' {
        assert Upper(c) as int == c as int - 32;
      }
    }
  }

  predicate StartsWith(s: string, p: string) {
    |p| <= |s| && s[..|p|] == p
  }

  predicate EndsWith(s: string, p: string) {
    |p| <= |s| && s[|s| - |p|..] == p
  }

  /** `sub in s` for two strings. */
  predicate OccursAt(s: string, sub: string, i: int) {
    0 <= i && i + |sub| <= |s| && s[i..i + |sub|] == sub
  }

  predicate IsSubstring(sub: string, s: string) {
    exists i :: 0 <= i <= |s| - |sub| && OccursAt(s, sub, i)
  }

  /** str.lstrip() */
  function LStrip(s: string): (r: string)
    ensures |r| <= |s| && r == s[|s| - |r|..]
    ensures forall i :: 0 <= i < |s| - |r| ==> IsSpace(s[i])
    ensures r == [] || !IsSpace(r[0])
  {
    if |s| > 0 && IsSpace(s[0]) then LStrip(s[1..]) else s
  }

  /** str.rstrip() */
  function RStrip(s: string): (r: string)
    ensures |r| <= |s| && r == s[..|r|]
    ensures forall i :: |r| <= i < |s| ==> IsSpace(s[i])
    ensures r == [] || !IsSpace(r[|r| - 1])
  {
    if |s| > 0 && IsSpace(s[|s| - 1]) then RStrip(s[..|s| - 1]) else s
  }

  /** str.strip() */
  function Strip(s: string): string {
    RStrip(LStrip(s))
  }

  /** A string that str.strip() leaves alone. */
  predicate IsStripped(s: string) {
    s == [] || (!IsSpace(s[0]) && !IsSpace(s[|s| - 1]))
  }

  /** What str.strip() returns is stripped. */
  lemma StrippedStrip(s: string)
    ensures IsStripped(Strip(s))
  {
    var l := LStrip(s);
    var r := RStrip(l);
    if r != [] {
      assert r[0] == l[0];
    }
  }

  lemma StripStripped(s: string)
    requires IsStripped(s)
    ensures Strip(s) == s
  {
  }

  /** First index of c in s. */
  function Find(s: string, c: char): (r: Option<nat>)
    ensures r.Some? ==> r.value < |s| && s[r.value] == c && forall k :: 0 <= k < r.value ==> s[k] != c
    ensures r.None? ==> forall k :: 0 <= k < |s| ==> s[k] != c
  {
    if |s| == 0 then None
    else if s[0] == c then Some(0)
    else match Find(s[1..], c)
      case None => None
      case Some(i) => Some(i + 1)
  }

  /** str.rfind for one character: the last index of c, or -1. */
  function RFind(s: string, c: char): (i: int)
    ensures -1 <= i < |s|
    ensures i >= 0 ==> s[i] == c
    ensures forall k :: i < k < |s| ==> s[k] != c
  {
    if |s| == 0 then -1
    else if s[|s| - 1] == c then |s| - 1
    else RFind(s[..|s| - 1], c)
  }

  /** str.split(c)[0]: the part before the first c. */
  function BeforeFirst(s: string, c: char): (r: string)
    ensures StartsWith(s, r) && c !in r
    ensures |r| < |s| ==> s[|r|] == c
  {
    match Find(s, c)
    case None => s
    case Some(i) => s[..i]
  }

  /** s[:n] */
  function Prefix(s: string, n: nat): (r: string)
    ensures StartsWith(s, r) && |r| == if |s| < n then |s| else n
  {
    if |s| <= n then s else s[..n]
  }

  /** sep.join(ws) */
  function Join(ws: seq<string>, sep: string): string {
    if |ws| == 0 then ""
    else if |ws| == 1 then ws[0]
    else ws[0] + sep + Join(ws[1..], sep)
  }

  /** s.replace(pat, ''): removes every non-overlapping occurrence, scanning left to right. */
  function RemoveAll(s: string, pat: string): string
    decreases |s|
  {
    if pat == [] || |s| == 0 then s
    else if StartsWith(s, pat) then RemoveAll(s[|pat|..], pat)
    else [s[0]] + RemoveAll(s[1..], pat)
  }

  lemma SubstringOfTail(s: string, sub: string)
    requires |s| > 0
    ensures IsSubstring(sub, s[1..]) ==> IsSubstring(sub, s)
  {
    if IsSubstring(sub, s[1..]) {
      var i :| 0 <= i <= |s[1..]| - |sub| && OccursAt(s[1..], sub, i);
      assert s[1..][i..i + |sub|] == s[i + 1..i + 1 + |sub|];
      assert 0 <= i + 1 <= |s| - |sub| && OccursAt(s, sub, i + 1);
    }
  }

  lemma {:induction false} RemoveAllAbsent(s: string, pat: string)
    requires !IsSubstring(pat, s)
    ensures RemoveAll(s, pat) == s
    decreases |s|
  {
    if pat != [] && |s| != 0 {
      assert !StartsWith(s, pat) by { assert !OccursAt(s, pat, 0); }
      SubstringOfTail(s, pat);
      RemoveAllAbsent(s[1..], pat);
      assert s == [s[0]] + s[1..];
    }
  }

  /** os.path.basename on a POSIX path. */
  function Basename(p: string): (r: string)
    ensures EndsWith(p, r) && '/' !in r
  {
    p[RFind(p, '/') + 1..]
  }

  /** os.path.splitext on a POSIX path: the extension starts at the last dot of the last
      component, provided some character other than a dot precedes it in that component. */
  function SplitExt(p: string): (r: (string, string))
    ensures r.0 + r.1 == p
    ensures r.1 == [] || (r.1[0] == '.' && '/' !in r.1)
  {
    var sepIndex := RFind(p, '/');
    var dotIndex := RFind(p, '.');
    if dotIndex > sepIndex && exists k :: sepIndex < k < dotIndex && p[k] != '.' then
      assert p[..dotIndex] + p[dotIndex..] == p;
      (p[..dotIndex], p[dotIndex..])
    else
      (p, "")
  }

  /** os.path.splitext(p)[0] */
  function Stem(p: string): string {
    SplitExt(p).0
  }

  /** pathlib's PurePath.with_suffix: the suffix of the last component is the part from its last
      dot, when that dot is neither its first nor its last character; a path without one gets the
      new suffix appended. */
  function WithSuffix(p: string, suffix: string): string {
    var name := Basename(p);
    var i := RFind(name, '.');
    if 0 < i < |name| - 1 then p[..|p| - (|name| - i)] + suffix else p + suffix
  }

  /** The last component has an extension in both os.path's and pathlib's sense. */
  predicate HasExtension(p: string) {
    var name := Basename(p);
    var i := RFind(name, '.');
    0 < i < |name| - 1 && exists k :: 0 <= k < i && name[k] != '.'
  }

  lemma RFindShift(p: string, j: nat, c: char)
    requires j <= |p|
    requires RFind(p[j..], c) >= 0
    ensures RFind(p, c) == j + RFind(p[j..], c)
  {
    var t := p[j..];
    var i := RFind(t, c);
    assert p[j + i] == t[i];
    forall k | j + i < k < |p| ensures p[k] != c {
      assert p[k] == t[k - j];
    }
  }

  /** For a path with an extension, pathlib's with_suffix and os.path.splitext agree. */
  lemma WithSuffixIsStemPlus(p: string, suffix: string)
    requires HasExtension(p)
    ensures WithSuffix(p, suffix) == Stem(p) + suffix
  {
    var name := Basename(p);
    var j := RFind(p, '/') + 1;
    var i := RFind(name, '.');
    assert name == p[j..];
    RFindShift(p, j, '.');
    assert RFind(p, '.') == j + i;
    var k :| 0 <= k < i && name[k] != '.';
    assert p[j + k] == name[k];
    assert RFind(p, '.') > RFind(p, '/');
    assert |p| - (|name| - i) == j + i;
  }

  /** os.path.join(a, b) for a relative b. */
  function JoinPath(a: string, b: string): string {
    if a == "" || EndsWith(a, "/") then a + b else a + "/" + b
  }

  /** Decimal digits of a natural number. */
  function NatToString(n: nat): (r: string)
    ensures |r| > 0
    decreases n
  {
    var d := ['0', '1', '2', '3', '4', '5', '6', '7', '8', '9'][n % 10];
    if n < 10 then [d] else NatToString(n / 10) + [d]
  }

  /** Python's str(int). */
  function IntToString(n: int): string {
    if n < 0 then "-" + NatToString(-n) else NatToString(n)
  }

  /** Python's `a <= b` on strings: lexicographic by code point. */
  predicate LessEq(a: string, b: string)
    decreases |a|
  {
    a == [] || (b != [] && (a[0] < b[0] || (a[0] == b[0] && LessEq(a[1..], b[1..]))))
  }

  lemma {:induction false} LessEqTotal(a: string, b: string)
    ensures LessEq(a, b) || LessEq(b, a)
    decreases |a|
  {
    if a != [] && b != [] && a[0] == b[0] {
      LessEqTotal(a[1..], b[1..]);
    }
  }

  lemma {:induction false} LessEqTrans(a: string, b: string, c: string)
    requires LessEq(a, b) && LessEq(b, c)
    ensures LessEq(a, c)
    decreases |a|
  {
    if a != [] && b != [] && c != [] && a[0] == b[0] && b[0] == c[0] {
      LessEqTrans(a[1..], b[1..], c[1..]);
    }
  }

  predicate SortedStrings(s: seq<string>) {
    forall i, j :: 0 <= i < j < |s| ==> LessEq(s[i], s[j])
  }

  /** A string below every element of a sorted list can be put in front of it. */
  lemma SortedCons(a: string, t: seq<string>)
    requires SortedStrings(t)
    requires forall y :: y in t ==> LessEq(a, y)
    ensures SortedStrings([a] + t)
  {
    forall i, j | 0 <= i < j < |[a] + t| ensures LessEq(([a] + t)[i], ([a] + t)[j]) {
      assert ([a] + t)[j] == t[j - 1];
      if i > 0 {
        assert ([a] + t)[i] == t[i - 1];
      } else {
        assert t[j - 1] in t;
      }
    }
  }

  /** What is below the head of a sorted list is below all of it. */
  lemma BelowHead(x: string, s: seq<string>)
    requires SortedStrings(s) && (s == [] || LessEq(x, s[0]))
    ensures forall y :: y in s ==> LessEq(x, y)
  {
    forall y | y in s ensures LessEq(x, y) {
      var j :| 0 <= j < |s| && s[j] == y;
      if j > 0 { LessEqTrans(x, s[0], y); }
    }
  }

  /** The head of a sorted list is below a string above it and below the rest of the list. */
  lemma HeadBelowInsert(s: seq<string>, x: string, t: seq<string>)
    requires SortedStrings(s) && s != [] && LessEq(s[0], x)
    requires multiset(t) == multiset(s[1..]) + multiset{x}
    ensures forall y :: y in t ==> LessEq(s[0], y)
  {
    forall y | y in t ensures LessEq(s[0], y) {
      assert y in multiset(t);
      if y != x {
        assert y in multiset(s[1..]);
        var j :| 0 <= j < |s[1..]| && s[1..][j] == y;
        assert s[j + 1] == y;
      }
    }
  }

  function InsertString(x: string, s: seq<string>): (r: seq<string>)
    requires SortedStrings(s)
    ensures SortedStrings(r)
    ensures multiset(r) == multiset(s) + multiset{x}
  {
    if s == [] || LessEq(x, s[0]) then
      BelowHead(x, s);
      SortedCons(x, s);
      [x] + s
    else
      LessEqTotal(x, s[0]);
      var t := InsertString(x, s[1..]);
      assert forall i, j :: 0 <= i < j < |s[1..]| ==> s[1..][i] == s[i + 1] && s[1..][j] == s[j + 1];
      HeadBelowInsert(s, x, t);
      SortedCons(s[0], t);
      assert s == [s[0]] + s[1..];
      [s[0]] + t
  }

  /** sorted() of a list of strings: an ascending permutation (insertion sort). */
  function SortStrings(s: seq<string>): (r: seq<string>)
    ensures SortedStrings(r)
    ensures multiset(r) == multiset(s)
  {
    if s == [] then []
    else
      assert s == [s[0]] + s[1..];
      InsertString(s[0], SortStrings(s[1..]))
  }

  /** Dropping elements from a sorted list leaves it sorted. */
  lemma {:induction false} SortedFilter(s: seq<string>, p: string -> bool)
    requires SortedStrings(s)
    ensures SortedStrings(Filter(s, p))
  {
    if s != [] {
      SortedFilter(s[1..], p);
      var t := Filter(s[1..], p);
      FilterMembers(s[1..], p);
      assert forall j :: 0 <= j < |t| ==> LessEq(s[0], t[j]) by {
        forall j | 0 <= j < |t| ensures LessEq(s[0], t[j]) {
          assert t[j] in t;
          assert t[j] in s[1..];
        }
      }
    }
  }
}

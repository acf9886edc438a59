/** merge_infotext of scripts/paste.py: the `Hashes: {...}` fragment of a generation infotext, found
    the way `re.search(r'Hashes:\s*(\{.*?\})', ...)` finds it, merged with new resource hashes and
    written back with `re.sub`, or appended when the infotext has none. The JSON encoder and decoder
    of the flat hash map are an oracle. */
module Infotext {
  import opened Wrappers
  import opened Text
  import Seqs

  const Marker := "Hashes:"

  /** json.dumps and json.loads on a flat map of strings; `loads` gives None where json.loads raises. */
  datatype Codec = Codec(dumps: map<string, string> -> string, loads: string -> Option<map<string, string>>)

  /** A match of the fragment pattern: it starts at `start`, and its object (group 1) is s[open..end]. */
  datatype Fragment = Fragment(start: nat, open: nat, end: nat)

  /** `\s*` from i: the end of the run of whitespace that starts there. */
  function SpaceEnd(s: string, i: nat): (j: nat)
    requires i <= |s|
    ensures i <= j <= |s|
    ensures forall k :: i <= k < j ==> IsSpace(s[k])
    ensures j == |s| || !IsSpace(s[j])
    decreases |s| - i
  {
    if i < |s| && IsSpace(s[i]) then SpaceEnd(s, i + 1) else i
  }

  /** `.*?\}` from i: the first '}' at or after i, provided no newline comes first (`.` matches none). */
  function CloseAt(s: string, i: nat): (r: Option<nat>)
    requires i <= |s|
    ensures r.Some? ==> i <= r.value < |s| && s[r.value] == '}'
    ensures r.Some? ==> forall k :: i <= k < r.value ==> s[k] != '}' && s[k] != '\n'
    ensures r.None? ==> forall k :: i <= k < |s| && s[k] == '}' ==> exists m :: i <= m < k && s[m] == '\n'
    decreases |s| - i
  {
    if i == |s| then None
    else if s[i] == '}' then Some(i)
    else if s[i] == '\n' then None
    else CloseAt(s, i + 1)
  }

  /** The fragment that starts at i, when the pattern matches there: the marker, optional whitespace,
      and a brace-delimited object on one line that holds no other '}'. */
  function FragmentAt(s: string, i: nat): (r: Option<Fragment>)
    requires i <= |s|
    ensures r.Some? ==> r.value.start == i && OccursAt(s, Marker, i)
    ensures r.Some? ==> i + |Marker| <= r.value.open < r.value.end <= |s|
    ensures r.Some? ==> s[r.value.open] == '{' && s[r.value.end - 1] == '}'
    ensures r.Some? ==> forall k :: i + |Marker| <= k < r.value.open ==> IsSpace(s[k])
    ensures r.Some? ==> forall k :: r.value.open < k < r.value.end - 1 ==> s[k] != '}' && s[k] != '\n'
    ensures !OccursAt(s, Marker, i) ==> r.None?
  {
    if OccursAt(s, Marker, i) then
      var j := SpaceEnd(s, i + |Marker|);
      if j < |s| && s[j] == '{' then
        match CloseAt(s, j + 1)
        case Some(k) => Some(Fragment(i, j, k + 1))
        case None => None
      else None
    else None
  }

  /** re.search from `from`: the leftmost fragment there or later. */
  function Search(s: string, from: nat): (r: Option<Fragment>)
    requires from <= |s|
    ensures r.Some? ==> from <= r.value.start <= |s| && FragmentAt(s, r.value.start) == r
    ensures r.Some? ==> forall i :: from <= i < r.value.start ==> FragmentAt(s, i).None?
    ensures r.None? ==> forall i :: from <= i <= |s| ==> FragmentAt(s, i).None?
    decreases |s| - from
  {
    if FragmentAt(s, from).Some? then FragmentAt(s, from)
    else if from == |s| then None
    else Search(s, from + 1)
  }

  /** A piece of a compiled `re.sub` replacement template: literal text, or `\g<0>`, the whole match
      (the fragment pattern has no groups, so no other group can be named). */
  datatype Piece = Lit(text: string) | WholeMatch

  /** An `re.error` raised while compiling a replacement template; `pos` is where the offending
      escape starts. */
  datatype TemplateError = TemplateError(pos: nat)

  /** The text a compiled template produces for a match whose text is `whole`. */
  function Expand(t: seq<Piece>, whole: string): string {
    if t == [] then "" else PieceText(t[0], whole) + Expand(t[1..], whole)
  }

  function PieceText(p: Piece, whole: string): string {
    match p
    case Lit(text) => text
    case WholeMatch => whole
  }

  lemma ExpandCons(p: Piece, t: seq<Piece>, whole: string)
    ensures Expand([p] + t, whole) == PieceText(p, whole) + Expand(t, whole)
  {
    assert ([p] + t)[1..] == t;
  }

  function Prepend(p: Piece, r: Result<seq<Piece>, TemplateError>): Result<seq<Piece>, TemplateError> {
    match r
    case Success(t) => Success([p] + t)
    case Failure(e) => Failure(e)
  }

  predicate OctDigit(c: char) {
    '0' <= c <= '7'
  }

  predicate AsciiDigit(c: char) {
    '0' <= c <= '9'
  }

  predicate AsciiLetter(c: char) {
    ('a' <= c <= 'z') || ('A' <= c <= 'Z')
  }

  /** The escapes a template spells with a letter or a backslash: `\a \b \f \n \r \t \v \\`. */
  function NamedEscape(c: char): Option<char> {
    match c
    case 'a' => Some(7 as char)
    case 'b' => Some(8 as char)
    case 'f' => Some(12 as char)
    case 'n' => Some('\n')
    case 'r' => Some('\r')
    case 't' => Some('\t')
    case 'v' => Some(11 as char)
    case '\\' => Some('\\')
    case _ => None
  }

  /** The value of an octal digit. */
  function Oct(c: char): (v: nat)
    requires OctDigit(c)
    ensures v < 8
  {
    c as int - '0' as int
  }

  /** A `\g<...>` name that refers to group 0: a run of ASCII zeros. */
  predicate NamesWholeMatch(name: string) {
    |name| > 0 && forall k :: 0 <= k < |name| ==> name[k] == '0'
  }

  /** The template compiler `re.sub` applies to a replacement that holds a backslash, for a pattern
      without groups, from position i: `\g<0>` (and `\g<00>` …) is the whole match; `\0` with up to two
      more octal digits, and three octal digits up to 0o377, are a character; the named escapes are
      their characters; a backslash before any other ASCII letter, a group reference, a malformed
      `\g`, an octal above 0o377 or a trailing backslash raise; a backslash before anything else is
      kept together with that character. */
  function ParseTemplate(s: string, i: nat): (r: Result<seq<Piece>, TemplateError>)
    requires i <= |s|
    ensures r.Failure? ==> i <= r.error.pos < |s| && s[r.error.pos] == '\\'
    decreases |s| - i, 1
  {
    if i == |s| then Success([])
    else if s[i] != '\\' then Prepend(Lit([s[i]]), ParseTemplate(s, i + 1))
    else ParseEscape(s, i)
  }

  /** The escape that starts with the backslash at i, and the rest of the template after it. */
  function ParseEscape(s: string, i: nat): (r: Result<seq<Piece>, TemplateError>)
    requires i < |s| && s[i] == '\\'
    ensures r.Failure? ==> i <= r.error.pos < |s| && s[r.error.pos] == '\\'
    decreases |s| - i, 0
  {
    if i + 1 == |s| then Failure(TemplateError(i))
    else
      var c := s[i + 1];
      if c == 'g' then
        if i + 2 < |s| && s[i + 2] == '<' then
          match Find(s[i + 3..], '>')
          case None => Failure(TemplateError(i))
          case Some(n) =>
            if NamesWholeMatch(s[i + 3..i + 3 + n]) then Prepend(WholeMatch, ParseTemplate(s, i + 4 + n))
            else Failure(TemplateError(i))
        else Failure(TemplateError(i))
      else if c == '0' then
        if i + 2 < |s| && OctDigit(s[i + 2]) then
          if i + 3 < |s| && OctDigit(s[i + 3]) then
            Prepend(Lit([(Oct(s[i + 2]) * 8 + Oct(s[i + 3])) as char]), ParseTemplate(s, i + 4))
          else Prepend(Lit([Oct(s[i + 2]) as char]), ParseTemplate(s, i + 3))
        else Prepend(Lit(['\0']), ParseTemplate(s, i + 2))
      else if AsciiDigit(c) then
        if OctDigit(c) && i + 3 < |s| && OctDigit(s[i + 2]) && OctDigit(s[i + 3]) then
          var v := Oct(c) * 64 + Oct(s[i + 2]) * 8 + Oct(s[i + 3]);
          if v > 255 then Failure(TemplateError(i))
          else Prepend(Lit([v as char]), ParseTemplate(s, i + 4))
        else Failure(TemplateError(i))
      else if NamedEscape(c).Some? then Prepend(Lit([NamedEscape(c).value]), ParseTemplate(s, i + 2))
      else if AsciiLetter(c) then Failure(TemplateError(i))
      else Prepend(Lit(['\\', c]), ParseTemplate(s, i + 2))
  }

  /** The pieces of the literal text u placed before the result r of compiling the rest. */
  function PrependText(u: string, r: Result<seq<Piece>, TemplateError>): Result<seq<Piece>, TemplateError>
    decreases |u|
  {
    if u == [] then r else Prepend(Lit([u[0]]), PrependText(u[1..], r))
  }

  /** Literal text in front of a template produces itself before what the template produces for
      a match `w`, and fails exactly where the template does. */
  lemma {:induction false} PrependTextExpands(u: string, r: Result<seq<Piece>, TemplateError>, w: string)
    ensures PrependText(u, r).Failure? <==> r.Failure?
    ensures r.Failure? ==> PrependText(u, r) == Failure(r.error)
    ensures r.Success? ==> Expand(PrependText(u, r).value, w) == u + Expand(r.value, w)
    decreases |u|
  {
    if u != [] {
      PrependTextExpands(u[1..], r, w);
      if r.Success? {
        ExpandCons(Lit([u[0]]), PrependText(u[1..], r).value, w);
        assert u == [u[0]] + u[1..];
      }
    }
  }

  /** A run of text without a backslash compiles to literal pieces in front of what follows it. */
  lemma {:induction false} ParseLiteralRun(s: string, j: nat, i: nat)
    requires j <= i <= |s|
    requires forall k :: j <= k < i ==> s[k] != '\\'
    ensures ParseTemplate(s, j) == PrependText(s[j..i], ParseTemplate(s, i))
    decreases i - j
  {
    if j < i {
      ParseLiteralRun(s, j + 1, i);
      assert s[j..i][1..] == s[j + 1..i];
    }
  }

  /** A replacement without a backslash is taken literally: a match `w` becomes exactly that text. */
  lemma TemplateLiteral(s: string, w: string)
    requires '\\' !in s
    ensures ParseTemplate(s, 0).Success?
    ensures Expand(ParseTemplate(s, 0).value, w) == s
  {
    ParseLiteralRun(s, 0, |s|);
    PrependTextExpands(s[0..|s|], ParseTemplate(s, |s|), w);
    assert s[0..|s|] == s;
  }

  /** A backslash before an ASCII letter that names no escape (the `u` of a `\uXXXX` that json.dumps
      writes for a non-ASCII character, say) makes compiling raise, at the first such backslash. */
  lemma BadEscapeRaises(a: string, x: char, b: string)
    requires '\\' !in a
    requires AsciiLetter(x) && NamedEscape(x).None? && x != 'g'
    ensures ParseTemplate(a + ['\\', x] + b, 0) == Failure(TemplateError(|a|))
  {
    var s := a + ['\\', x] + b;
    ParseLiteralRun(s, 0, |a|);
    assert ParseTemplate(s, |a|) == Failure(TemplateError(|a|));
    PrependTextExpands(s[0..|a|], ParseTemplate(s, |a|), "");
  }

  /** re.sub from `from`: every fragment, scanning left to right without overlap, replaced by what the
      compiled template produces for it. */
  function SubAll(s: string, from: nat, t: seq<Piece>): string
    requires from <= |s|
    decreases |s| - from
  {
    match Search(s, from)
    case None => s[from..]
    case Some(f) => s[from..f.start] + Expand(t, s[f.start..f.end]) + SubAll(s, f.end, t)
  }

  /** re.sub with the pattern `Hashes:\s*\{.*?\}`: the replacement is compiled first, which either
      raises or gives the template every fragment is replaced by. */
  function Sub(s: string, repl: string): Result<string, TemplateError> {
    match ParseTemplate(repl, 0)
    case Failure(e) => Failure(e)
    case Success(t) => Success(SubAll(s, 0, t))
  }

  /** A text in which no fragment starts at or after `from` comes out of re.sub unchanged. */
  lemma SubAllNone(s: string, from: nat, t: seq<Piece>)
    requires from <= |s|
    requires forall i :: from <= i <= |s| ==> FragmentAt(s, i).None?
    ensures SubAll(s, from, t) == s[from..]
  {
    assert Search(s, from).None?;
  }

  /** Rewriting a text whose every fragment already reads what the template makes of it changes
      nothing. */
  lemma {:induction false} SubAllFixed(s: string, from: nat, t: seq<Piece>)
    requires from <= |s|
    requires forall i :: from <= i <= |s| && FragmentAt(s, i).Some? ==>
      var w := s[i..FragmentAt(s, i).value.end]; Expand(t, w) == w
    ensures SubAll(s, from, t) == s[from..]
    decreases |s| - from
  {
    match Search(s, from)
    case None =>
    case Some(f) =>
      assert Expand(t, s[f.start..f.end]) == s[f.start..f.end];
      SubAllFixed(s, f.end, t);
      Seqs.SliceSplit(s, from, f.start, f.end);
  }

  /** The map written back: the existing fragment's entries (none when it is not valid JSON),
      updated with `hashtext`. */
  function Merged(c: Codec, group: string, hashtext: map<string, string>): (m: map<string, string>)
    ensures c.loads(group).None? ==> m == hashtext
    ensures c.loads(group).Some? ==> m.Keys == c.loads(group).value.Keys + hashtext.Keys
    ensures forall k :: k in hashtext ==> k in m && m[k] == hashtext[k]
    ensures forall k :: c.loads(group).Some? && k in c.loads(group).value && k !in hashtext ==>
                        k in m && m[k] == c.loads(group).value[k]
  {
    var existing := if c.loads(group).Some? then c.loads(group).value else map[];
    existing + hashtext
  }

  /** The replacement merge_infotext hands to re.sub for the fragment group `group`. */
  function MergedRepl(c: Codec, group: string, hashtext: map<string, string>): string {
    "Hashes: " + c.dumps(Merged(c, group, hashtext))
  }

  /** merge_infotext; it raises where compiling the replacement raises. */
  function MergeInfotext(c: Codec, infotext: string, hashtext: map<string, string>): Result<string, TemplateError> {
    match Search(infotext, 0)
    case None => Success(infotext + ", Hashes: " + c.dumps(hashtext))
    case Some(f) => Sub(infotext, MergedRepl(c, infotext[f.open..f.end], hashtext))
  }

  /** With no fragment anywhere, the infotext is followed by exactly `, Hashes: ` and the encoded map. */
  lemma MergeAppends(c: Codec, infotext: string, hashtext: map<string, string>)
    requires forall i :: 0 <= i <= |infotext| ==> FragmentAt(infotext, i).None?
    ensures MergeInfotext(c, infotext, hashtext) == Success(infotext + ", Hashes: " + c.dumps(hashtext))
  {
    assert Search(infotext, 0).None?;
  }

  /** With a fragment, merge_infotext raises when the replacement (`Hashes: ` and the encoding of the
      first fragment's entries updated with `hashtext`, which `Merged` describes) does not compile;
      otherwise the text before the first fragment is kept, that fragment becomes what the template
      makes of it, and so does every later fragment. */
  lemma MergeRewrites(c: Codec, infotext: string, hashtext: map<string, string>, i: nat)
    requires i <= |infotext| && FragmentAt(infotext, i).Some?
    requires forall j :: 0 <= j < i ==> FragmentAt(infotext, j).None?
    ensures var f := FragmentAt(infotext, i).value;
      var p := ParseTemplate(MergedRepl(c, infotext[f.open..f.end], hashtext), 0);
      && (p.Failure? ==> MergeInfotext(c, infotext, hashtext) == Failure(p.error))
      && (p.Success? ==> MergeInfotext(c, infotext, hashtext) ==
                         Success(infotext[..i] + Expand(p.value, infotext[i..f.end]) + SubAll(infotext, f.end, p.value)))
  {
    SearchFinds(infotext, 0, i);
  }

  /** A merged encoding that holds no backslash is written literally over the first fragment. */
  lemma MergeRewritesLiteral(c: Codec, infotext: string, hashtext: map<string, string>, i: nat)
    requires i <= |infotext| && FragmentAt(infotext, i).Some?
    requires forall j :: 0 <= j < i ==> FragmentAt(infotext, j).None?
    requires var f := FragmentAt(infotext, i).value; '\\' !in c.dumps(Merged(c, infotext[f.open..f.end], hashtext))
    ensures var f := FragmentAt(infotext, i).value;
      var repl := MergedRepl(c, infotext[f.open..f.end], hashtext);
      MergeInfotext(c, infotext, hashtext).Success? &&
      StartsWith(MergeInfotext(c, infotext, hashtext).value, infotext[..i] + repl)
  {
    var f := FragmentAt(infotext, i).value;
    var repl := MergedRepl(c, infotext[f.open..f.end], hashtext);
    MarkedNoBackslash(c.dumps(Merged(c, infotext[f.open..f.end], hashtext)));
    TemplateLiteral(repl, infotext[i..f.end]);
    MergeRewrites(c, infotext, hashtext, i);
    var t := ParseTemplate(repl, 0).value;
    var r := infotext[..i] + repl + SubAll(infotext, f.end, t);
    assert r[..|infotext[..i] + repl|] == infotext[..i] + repl;
  }

  /** A merged encoding with a `\uXXXX` escape (or any backslash before a letter that names no escape)
      makes merge_infotext raise, at the first backslash of the replacement. */
  lemma MergeRaises(c: Codec, infotext: string, hashtext: map<string, string>, i: nat, a: string, x: char, b: string)
    requires i <= |infotext| && FragmentAt(infotext, i).Some?
    requires forall j :: 0 <= j < i ==> FragmentAt(infotext, j).None?
    requires var f := FragmentAt(infotext, i).value; c.dumps(Merged(c, infotext[f.open..f.end], hashtext)) == a + ['\\', x] + b
    requires '\\' !in a && AsciiLetter(x) && NamedEscape(x).None? && x != 'g'
    ensures MergeInfotext(c, infotext, hashtext) == Failure(TemplateError(|"Hashes: "| + |a|))
  {
    var f := FragmentAt(infotext, i).value;
    assert MergedRepl(c, infotext[f.open..f.end], hashtext) == ("Hashes: " + a) + ['\\', x] + b;
    MarkedNoBackslash(a);
    BadEscapeRaises("Hashes: " + a, x, b);
    MergeRewrites(c, infotext, hashtext, i);
  }

  lemma {:induction false} SearchFinds(s: string, from: nat, i: nat)
    requires from <= i <= |s| && FragmentAt(s, i).Some?
    requires forall j :: from <= j < i ==> FragmentAt(s, j).None?
    ensures Search(s, from) == FragmentAt(s, i)
    decreases i - from
  {
    if from < i {
      SearchFinds(s, from + 1, i);
    }
  }

  /** What idempotence needs of the encoder for a map: a one-line object with no '}' but its last
      character, which decodes back to the map. */
  predicate FlatRoundTrip(c: Codec, m: map<string, string>) {
    var e := c.dumps(m);
    && |e| >= 2 && e[0] == '{' && e[|e| - 1] == '}'
    && (forall k :: 1 <= k < |e| - 1 ==> e[k] != '}' && e[k] != '\n')
    && c.loads(e) == Some(m)
  }

  /** No fragment starts in the original text or in the separator: a window that reaches the ','
      or the blank after it cannot spell the marker. */
  lemma NoEarlyFragment(t: string, e: string, i: nat)
    requires !IsSubstring(Marker, t)
    requires i < |t| + 2
    ensures FragmentAt(t + ", Hashes: " + e, i).None?
  {
    var s := t + ", Hashes: " + e;
    if i + |Marker| <= |t| {
      assert s[i..i + |Marker|] == t[i..i + |Marker|];
      assert !OccursAt(t, Marker, i);
    } else if i <= |t| && i + |Marker| <= |s| {
      assert s[i..i + |Marker|][|t| - i] == s[|t|] == ',';
      assert Marker[|t| - i] != ',';
    } else if i + |Marker| <= |s| {
      assert s[i..i + |Marker|][0] == s[i] == ' ';
    }
  }

  /** `.*?\}` stops at the first '}' when no newline comes before it. */
  lemma {:induction false} CloseAtFirst(s: string, i: nat, k: nat)
    requires i <= k < |s| && s[k] == '}'
    requires forall m :: i <= m < k ==> s[m] != '}' && s[m] != '\n'
    ensures CloseAt(s, i) == Some(k)
    decreases k - i
  {
    if i < k {
      CloseAtFirst(s, i + 1, k);
    }
  }

  /** The appended fragment is found where it was appended, and spans the rest of the text. */
  lemma AppendedFragment(t: string, e: string)
    requires |e| >= 2 && e[0] == '{' && e[|e| - 1] == '}'
    requires forall k :: 1 <= k < |e| - 1 ==> e[k] != '}' && e[k] != '\n'
    ensures var s := t + ", Hashes: " + e;
      FragmentAt(s, |t| + 2) == Some(Fragment(|t| + 2, |t| + 10, |s|))
  {
    var s := t + ", Hashes: " + e;
    var i := |t| + 2;
    assert s[i..i + |Marker|] == Marker;
    assert s[i + 7] == ' ' && s[i + 8] == e[0];
    assert SpaceEnd(s, i + 8) == i + 8;
    assert SpaceEnd(s, i + 7) == i + 8;
    assert forall k :: i + 9 <= k < |s| ==> s[k] == e[k - i - 8];
    CloseAtFirst(s, i + 9, |s| - 1);
  }

  /** The appended fragment is the first one in the extended text. */
  lemma AppendedFirst(t: string, e: string)
    requires !IsSubstring(Marker, t)
    requires |e| >= 2 && e[0] == '{' && e[|e| - 1] == '}'
    requires forall k :: 1 <= k < |e| - 1 ==> e[k] != '}' && e[k] != '\n'
    ensures var s := t + ", Hashes: " + e;
      Search(s, 0) == Some(Fragment(|t| + 2, |t| + 10, |s|))
  {
    var s := t + ", Hashes: " + e;
    forall i | 0 <= i < |t| + 2
      ensures FragmentAt(s, i).None?
    {
      NoEarlyFragment(t, e, i);
    }
    AppendedFragment(t, e);
    SearchFinds(s, 0, |t| + 2);
  }

  /** When the first fragment runs to the end of the text, re.sub replaces just that one. */
  lemma SubAllLast(s: string, f: Fragment, t: seq<Piece>)
    requires Search(s, 0) == Some(f) && f.end == |s|
    ensures SubAll(s, 0, t) == s[..f.start] + Expand(t, s[f.start..f.end])
  {
    SubAllNone(s, |s|, t);
  }

  /** Merging a map into the text it was appended to rewrites the appended fragment with the
      replacement `Hashes: ` and the map's own encoding. */
  lemma MergeIntoAppended(c: Codec, infotext: string, hashtext: map<string, string>)
    requires !IsSubstring(Marker, infotext)
    requires FlatRoundTrip(c, hashtext)
    ensures var s := infotext + ", Hashes: " + c.dumps(hashtext);
      MergeInfotext(c, s, hashtext) == Sub(s, "Hashes: " + c.dumps(hashtext))
  {
    var e := c.dumps(hashtext);
    AppendedFirst(infotext, e);
    AppendedPieces(infotext, e);
    assert Merged(c, e, hashtext) == hashtext;
  }

  /** Rewriting the appended fragment with the map it encodes restores it, when the encoding holds no
      backslash. */
  lemma MergeAppended(c: Codec, infotext: string, hashtext: map<string, string>)
    requires !IsSubstring(Marker, infotext)
    requires FlatRoundTrip(c, hashtext) && '\\' !in c.dumps(hashtext)
    ensures var s := infotext + ", Hashes: " + c.dumps(hashtext);
      MergeInfotext(c, s, hashtext) == Success(s)
  {
    var e := c.dumps(hashtext);
    var s := infotext + ", Hashes: " + e;
    MergeIntoAppended(c, infotext, hashtext);
    AppendedFirst(infotext, e);
    MarkedNoBackslash(e);
    SubLastLiteral(s, Fragment(|infotext| + 2, |infotext| + 10, |s|), "Hashes: " + e);
    AppendedPieces(infotext, e);
  }

  lemma MarkedNoBackslash(e: string)
    requires '\\' !in e
    ensures '\\' !in "Hashes: " + e
  {
  }

  /** re.sub with a replacement without a backslash, on a text whose first fragment runs to its end. */
  lemma SubLastLiteral(s: string, f: Fragment, repl: string)
    requires Search(s, 0) == Some(f) && f.end == |s|
    requires '\\' !in repl
    ensures Sub(s, repl) == Success(s[..f.start] + repl)
  {
    TemplateLiteral(repl, s[f.start..f.end]);
    var t := ParseTemplate(repl, 0).value;
    assert Sub(s, repl) == Success(SubAll(s, 0, t));
    SubAllLast(s, f, t);
  }

  /** The appended text splits into the separator, the marker and the encoded object. */
  lemma AppendedPieces(t: string, e: string)
    ensures var s := t + ", Hashes: " + e;
      s[|t| + 10..|s|] == e && s[..|t| + 2] + ("Hashes: " + e) == s
  {
    var s := t + ", Hashes: " + e;
    assert s[..|t| + 2] == t + ", ";
    assert ", Hashes: " == ", " + "Hashes: ";
  }

  /** Merging the same map twice gives the same text as merging it once, for an infotext that holds
      no `Hashes:` marker and an encoder that writes the map as a flat object it can read back and
      without a backslash. */
  lemma MergeTwice(c: Codec, infotext: string, hashtext: map<string, string>)
    requires !IsSubstring(Marker, infotext)
    requires FlatRoundTrip(c, hashtext) && '\\' !in c.dumps(hashtext)
    ensures MergeInfotext(c, infotext, hashtext).Success?
    ensures MergeInfotext(c, MergeInfotext(c, infotext, hashtext).value, hashtext) == MergeInfotext(c, infotext, hashtext)
  {
    NoMarkerNoFragment(infotext);
    MergeAppends(c, infotext, hashtext);
    MergeAppended(c, infotext, hashtext);
  }

  /** Merging into an infotext without the marker appends, and so cannot raise; merging the same map
      again raises when its encoding holds a `\uXXXX` escape, as json.dumps writes for a non-ASCII
      key such as an embedding's name. */
  lemma MergeTwiceRaises(c: Codec, infotext: string, hashtext: map<string, string>, a: string, x: char, b: string)
    requires !IsSubstring(Marker, infotext)
    requires FlatRoundTrip(c, hashtext) && c.dumps(hashtext) == a + ['\\', x] + b
    requires '\\' !in a && AsciiLetter(x) && NamedEscape(x).None? && x != 'g'
    ensures MergeInfotext(c, infotext, hashtext).Success?
    ensures MergeInfotext(c, MergeInfotext(c, infotext, hashtext).value, hashtext) == Failure(TemplateError(8 + |a|))
  {
    var e := c.dumps(hashtext);
    NoMarkerNoFragment(infotext);
    MergeAppends(c, infotext, hashtext);
    MergeIntoAppended(c, infotext, hashtext);
    MarkedEscape(a, x, b);
  }

  /** The replacement `Hashes: ` + a + `\x` + b fails to compile at the backslash. */
  lemma MarkedEscape(a: string, x: char, b: string)
    requires '\\' !in a && AsciiLetter(x) && NamedEscape(x).None? && x != 'g'
    ensures ParseTemplate("Hashes: " + (a + ['\\', x] + b), 0) == Failure(TemplateError(8 + |a|))
  {
    assert "Hashes: " + (a + ['\\', x] + b) == ("Hashes: " + a) + ['\\', x] + b;
    MarkedNoBackslash(a);
    BadEscapeRaises("Hashes: " + a, x, b);
  }

  /** A text without the marker holds no fragment. */
  lemma NoMarkerNoFragment(infotext: string)
    requires !IsSubstring(Marker, infotext)
    ensures forall i :: 0 <= i <= |infotext| ==> FragmentAt(infotext, i).None?
  {
    forall i | 0 <= i <= |infotext|
      ensures FragmentAt(infotext, i).None?
    {
      assert !OccursAt(infotext, Marker, i);
    }
  }
}

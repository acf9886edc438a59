/** civitai_hashes and insert_infotext of scripts/paste.py: the map from resource keys (`vae`,
    `embed:NAME`, `lora:NAME`, `hypernet:NAME`, `model`) to the first ten characters of the hash of
    the inventory record a generation's infotext refers to, and the gate that merges that map into
    the infotext. The host's loaded VAE file name and the `civitai_hashify_resources` setting are
    parameters; the regular expressions are written out as scanners. */
module Hashify {
  import opened Wrappers
  import opened Seqs
  import opened Text
  import opened Resources
  import opened Infotext

  const NegativeMarker := "Negative prompt:"
  const ModelMarker := "Model hash: "

  /** The value stored for a record: `hash[:10]`. */
  function Short(r: Resource): string {
    Prefix(r.hash, 10)
  }

  // ---------------------------------------------------------------- prompt, negative prompt, parameters

  datatype Parts = Parts(prompt: string, negative: string, params: string)

  /** The first line of the stripped text, and what follows its newline ("" when there is none). */
  function FirstLineOf(t: string): (string, string) {
    match Find(t, '\n')
    case None => (t, "")
    case Some(i) => (t[..i], t[i + 1..])
  }

  /** The three sections of an infotext: the first line of the stripped text, the `Negative prompt:`
      line that may follow it, and everything after those. */
  function SplitInfotext(infotext: string): (p: Parts)
    ensures IsStripped(p.prompt) && IsStripped(p.negative)
  {
    SplitLines(Strip(infotext))
  }

  /** The sections of an already stripped infotext `t`. */
  function SplitLines(t: string): (p: Parts)
    ensures IsStripped(p.prompt) && IsStripped(p.negative)
  {
    var lines := FirstLineOf(t);
    StrippedStrip(lines.0);
    if StartsWith(lines.1, NegativeMarker) then
      var negative := NegativeSplit(lines.1);
      StrippedStrip(negative.0);
      Parts(Strip(lines.0), Strip(negative.0), negative.1)
    else
      StrippedStrip("");
      Parts(Strip(lines.0), "", lines.1)
  }

  /** The line `rest` starts with, its first `|NegativeMarker|` characters dropped (none left when it
      is shorter), and what follows its newline ("" when there is none). */
  function NegativeSplit(rest: string): (string, string) {
    var line := FirstLineOf(rest);
    (if |NegativeMarker| <= |line.0| then line.0[|NegativeMarker|..] else "", line.1)
  }

  /** The marker holds no newline, so the line that starts with it is at least as long. */
  lemma MarkerLine(rest: string)
    requires StartsWith(rest, NegativeMarker)
    ensures forall k :: 0 <= k < |NegativeMarker| ==> rest[k] != '\n'
  {
    forall k | 0 <= k < |NegativeMarker|
      ensures rest[k] != '\n'
    {
      assert rest[k] == rest[..|NegativeMarker|][k] == NegativeMarker[k];
    }
  }

  /** A `Negative prompt:` line ended by a newline at j: the marker is dropped from it, and the rest
      of the text follows the newline. */
  lemma NegativeSplitAt(rest: string, j: nat)
    requires StartsWith(rest, NegativeMarker) && Find(rest, '\n') == Some(j)
    ensures |NegativeMarker| <= j < |rest|
    ensures NegativeSplit(rest) == (rest[|NegativeMarker|..j], rest[j + 1..])
  {
    MarkerLineEnd(rest, j);
    FirstLineAt(rest, j);
    assert rest[..j][|NegativeMarker|..] == rest[|NegativeMarker|..j];
  }

  /** The first line ends at the first newline. */
  lemma FirstLineAt(t: string, j: nat)
    requires Find(t, '\n') == Some(j)
    ensures FirstLineOf(t) == (t[..j], t[j + 1..])
  {
  }

  /** A newline in a line that starts with the marker comes after the marker. */
  lemma MarkerLineEnd(rest: string, j: nat)
    requires StartsWith(rest, NegativeMarker) && j < |rest| && rest[j] == '\n'
    ensures |NegativeMarker| <= j
  {
    MarkerLine(rest);
  }

  /** Find stops at the first occurrence. */
  lemma {:induction false} FindFirst(s: string, c: char, i: nat)
    requires i < |s| && s[i] == c && forall k :: 0 <= k < i ==> s[k] != c
    ensures Find(s, c) == Some(i)
  {
    if i > 0 {
      FindFirst(s[1..], c, i - 1);
    }
  }

  /** Without a newline, the whole stripped text is the prompt. */
  lemma SplitOneLine(t: string)
    requires forall k :: 0 <= k < |t| ==> t[k] != '\n'
    ensures SplitLines(t) == Parts(Strip(t), "", "")
  {
    assert !StartsWith("", NegativeMarker);
  }

  /** The prompt is the stripped first line of the stripped text; when the next line does not start
      with `Negative prompt:`, there is no negative prompt and the parameters are all the rest. */
  lemma SplitPrompt(t: string, i: nat)
    requires i < |t| && t[i] == '\n' && forall k :: 0 <= k < i ==> t[k] != '\n'
    ensures SplitLines(t).prompt == Strip(t[..i])
    ensures !StartsWith(t[i + 1..], NegativeMarker) ==> SplitLines(t).negative == "" && SplitLines(t).params == t[i + 1..]
  {
    FindFirst(t, '\n', i);
  }

  /** A `Negative prompt:` line after the prompt gives the negative prompt, marker removed and
      stripped, and the parameters are what follows that line. */
  lemma SplitNegative(t: string, i: nat, j: nat)
    requires i < |t| && t[i] == '\n' && forall k :: 0 <= k < i ==> t[k] != '\n'
    requires StartsWith(t[i + 1..], NegativeMarker)
    requires i + 1 + |NegativeMarker| <= j < |t| && t[j] == '\n' && forall k :: i + 1 <= k < j ==> t[k] != '\n'
    ensures SplitLines(t).negative == Strip(t[i + 1 + |NegativeMarker|..j])
    ensures SplitLines(t).params == t[j + 1..]
  {
    var rest := t[i + 1..];
    FindFirst(t, '\n', i);
    FindFirst(rest, '\n', j - i - 1);
    assert FirstLineOf(t) == (t[..i], rest);
    NegativeSplitAt(rest, j - i - 1);
    assert rest[|NegativeMarker|..j - i - 1] == t[i + 1 + |NegativeMarker|..j];
    assert rest[j - i..] == t[j + 1..];
    assert SplitLines(t) == Parts(Strip(t[..i]), Strip(rest[|NegativeMarker|..j - i - 1]), rest[j - i..]);
  }

  /** A `Negative prompt:` line that ends the text gives the negative prompt and no parameters. */
  lemma SplitNegativeLast(t: string, i: nat)
    requires i < |t| && t[i] == '\n' && forall k :: 0 <= k < i ==> t[k] != '\n'
    requires StartsWith(t[i + 1..], NegativeMarker) && forall k :: i + 1 <= k < |t| ==> t[k] != '\n'
    ensures SplitLines(t).negative == Strip(t[i + 1 + |NegativeMarker|..])
    ensures SplitLines(t).params == ""
  {
    var rest := t[i + 1..];
    FindFirst(t, '\n', i);
    assert forall k :: 0 <= k < |rest| ==> rest[k] == t[i + 1 + k];
    assert Find(rest, '\n').None?;
    assert FirstLineOf(t) == (t[..i], rest);
    assert rest[|NegativeMarker|..] == t[i + 1 + |NegativeMarker|..];
  }

  // ---------------------------------------------------------------- the loaded VAE

  predicate IsVae(stem: string, r: Resource) {
    r.kind == VAE && r.name == stem
  }

  /** `vae`: the first VAE record named after the stem of the loaded VAE file, if a file is loaded. */
  function VaeEntry(rs: seq<Resource>, vaeFile: Option<string>): (r: Option<string>)
    ensures r.Some? <==> vaeFile.Some? && exists i :: 0 <= i < |rs| && IsVae(Stem(vaeFile.value), rs[i])
    ensures r.Some? ==> exists i :: 0 <= i < |rs| && IsVae(Stem(vaeFile.value), rs[i]) && r.value == Short(rs[i]) &&
                          forall j :: 0 <= j < i ==> !IsVae(Stem(vaeFile.value), rs[j])
  {
    if vaeFile.None? then None
    else match First(rs, (x: Resource) => IsVae(Stem(vaeFile.value), x))
      case None => None
      case Some(x) => Some(Short(x))
  }

  // ---------------------------------------------------------------- embeddings

  /** The characters `(?<![^\s:(|\[\]])` lets stand before an embedding name. */
  predicate LeftBoundary(c: char) {
    IsSpace(c) || c == ':' || c == '(' || c == '|' || c == '[' || c == ']'
  }

  /** The characters `(?![^\s:)|\[\]\,])` lets stand after an embedding name. */
  predicate RightBoundary(c: char) {
    IsSpace(c) || c == ':' || c == ')' || c == '|' || c == '[' || c == ']' || c == ','
  }

  /** The name, ignoring case, at position i of the text, with nothing but a boundary (or the end of
      the text) on either side. */
  predicate MentionAt(text: string, name: string, i: int) {
    && 0 <= i && i + |name| <= |text|
    && LowerStr(text[i..i + |name|]) == LowerStr(name)
    && (i == 0 || LeftBoundary(text[i - 1]))
    && (i + |name| == |text| || RightBoundary(text[i + |name|]))
  }

  predicate Mentions(text: string, name: string) {
    exists i :: 0 <= i <= |text| - |name| && MentionAt(text, name, i)
  }

  predicate Mentioned(p: Parts, r: Resource) {
    Mentions(p.prompt, r.name) || Mentions(p.negative, r.name)
  }

  predicate IsEmbedding(r: Resource) {
    r.kind == TextualInversion
  }

  function EmbedKey(r: Resource): string {
    "embed:" + r.name
  }

  /** The map after the embedding loop has visited `tis`, starting from `acc`. */
  function EmbedHashes(tis: seq<Resource>, p: Parts, acc: map<string, string>): map<string, string> {
    if tis == [] then acc
    else
      var m := EmbedHashes(tis[..|tis| - 1], p, acc);
      var r := tis[|tis| - 1];
      if Mentioned(p, r) then m[EmbedKey(r) := Short(r)] else m
  }

  /** `k` is the key of one of `tis` that the prompts mention. */
  predicate FromEmbed(tis: seq<Resource>, p: Parts, k: string) {
    exists i :: 0 <= i < |tis| && Mentioned(p, tis[i]) && k == EmbedKey(tis[i])
  }

  /** The embedding loop adds a key exactly for each embedding the prompts mention, and leaves every
      other key alone. */
  lemma {:induction false} EmbedHashesKeys(tis: seq<Resource>, p: Parts, acc: map<string, string>)
    ensures forall k :: k in EmbedHashes(tis, p, acc) <==> k in acc || FromEmbed(tis, p, k)
    ensures forall k :: k in acc && !StartsWith(k, "embed:") ==> EmbedHashes(tis, p, acc)[k] == acc[k]
  {
    if tis != [] {
      var butLast := tis[..|tis| - 1];
      EmbedHashesKeys(butLast, p, acc);
      assert forall i :: 0 <= i < |butLast| ==> butLast[i] == tis[i];
      assert StartsWith(EmbedKey(tis[|tis| - 1]), "embed:");
    }
  }

  /** A mentioned embedding's key holds its hash unless a later mentioned embedding has the same key:
      of several embeddings with one name, the last one wins. */
  lemma {:induction false} EmbedHashesValues(tis: seq<Resource>, p: Parts, acc: map<string, string>)
    ensures forall i :: 0 <= i < |tis| && Mentioned(p, tis[i]) &&
                        (forall j :: i < j < |tis| && Mentioned(p, tis[j]) ==> EmbedKey(tis[j]) != EmbedKey(tis[i])) ==>
                        EmbedKey(tis[i]) in EmbedHashes(tis, p, acc) && EmbedHashes(tis, p, acc)[EmbedKey(tis[i])] == Short(tis[i])
  {
    if tis != [] {
      var butLast := tis[..|tis| - 1];
      EmbedHashesValues(butLast, p, acc);
      assert forall i :: 0 <= i < |butLast| ==> butLast[i] == tis[i];
    }
  }

  /** Every value of the map is the first ten characters of the hash of a record of `rs`. */
  predicate FromInventory(m: map<string, string>, rs: seq<Resource>) {
    forall k :: k in m ==> exists r :: r in rs && m[k] == Short(r)
  }

  /** The embedding loop adds only short hashes of the embeddings it visits. */
  lemma {:induction false} EmbedHashesFrom(tis: seq<Resource>, p: Parts, acc: map<string, string>, rs: seq<Resource>)
    requires FromInventory(acc, rs) && forall r :: r in tis ==> r in rs
    ensures FromInventory(EmbedHashes(tis, p, acc), rs)
  {
    if tis != [] {
      var butLast := tis[..|tis| - 1];
      assert forall r :: r in butLast ==> r in tis;
      EmbedHashesFrom(butLast, p, acc, rs);
      assert tis[|tis| - 1] in tis;
    }
  }

  /** Two embeddings with the same name are mentioned or not together. */
  lemma SameNameSameMention(p: Parts, a: Resource, b: Resource)
    requires a.name == b.name
    ensures Mentioned(p, a) == Mentioned(p, b)
  {
  }

  // ---------------------------------------------------------------- `<lora:NAME:W>` and `<hypernet:NAME:W>` tags

  /** Groups 1 and 2 of a network tag: `lora` or `hypernet`, and the name. */
  datatype Tag = Tag(network: string, name: string)

  /** `[a-zA-Z0-9_\.\-\s]` */
  predicate NameChar(c: char) {
    ('a' <= c <= 'z') || ('A' <= c <= 'Z') || ('0' <= c <= '9') || c == '_' || c == '.' || c == '-' || IsSpace(c)
  }

  /** `[0-9.]` */
  predicate WeightChar(c: char) {
    ('0' <= c <= '9') || c == '.'
  }

  /** The end of the run of `[a-zA-Z0-9_\.\-\s]` that starts at i. */
  function NameEnd(s: string, i: nat): (j: nat)
    requires i <= |s|
    ensures i <= j <= |s|
    ensures forall k :: i <= k < j ==> NameChar(s[k])
    ensures j == |s| || !NameChar(s[j])
    decreases |s| - i
  {
    if i < |s| && NameChar(s[i]) then NameEnd(s, i + 1) else i
  }

  /** The end of the run of `[0-9.]` that starts at i. */
  function WeightEnd(s: string, i: nat): (j: nat)
    requires i <= |s|
    ensures i <= j <= |s|
    ensures forall k :: i <= k < j ==> WeightChar(s[k])
    ensures j == |s| || !WeightChar(s[j])
    decreases |s| - i
  {
    if i < |s| && WeightChar(s[i]) then WeightEnd(s, i + 1) else i
  }

  /** The end of the line that position i is on (`.` matches anything but a newline). */
  function LineEnd(s: string, i: nat): (j: nat)
    requires i <= |s|
    ensures i <= j <= |s| && (j == |s| || s[j] == '\n')
    ensures forall k :: i <= k < j ==> s[k] != '\n'
    decreases |s| - i
  {
    if i == |s| || s[i] == '\n' then i else LineEnd(s, i + 1)
  }

  /** The last c in s[lo..hi]. */
  function LastIn(s: string, lo: nat, hi: nat, c: char): (r: Option<nat>)
    requires lo <= hi <= |s|
    ensures r.Some? ==> lo <= r.value < hi && s[r.value] == c && forall k :: r.value < k < hi ==> s[k] != c
    ensures r.None? ==> forall k :: lo <= k < hi ==> s[k] != c
    decreases hi - lo
  {
    if lo == hi then None
    else if s[hi - 1] == c then Some(hi - 1)
    else LastIn(s, lo, hi - 1, c)
  }

  predicate KnownNetwork(t: Tag) {
    t.network == "lora" || t.network == "hypernet"
  }

  predicate NameOk(name: string) {
    |name| > 0 && forall k :: 0 <= k < |name| ==> NameChar(name[k])
  }

  predicate ValidTag(t: Tag) {
    KnownNetwork(t) && NameOk(t.name)
  }

  /** The tag's text begins at position i: `<`, the network, `:`, the name and `:`. */
  predicate TagText(s: string, t: Tag, i: int) {
    0 <= i < |s| && s[i] == '<' && OccursAt(s, t.network + ":", i + 1) && OccursAt(s, t.name + ":", i + |t.network| + 2)
  }

  /** `(lora|hypernet):` at j: the network, or "" when neither is written there. */
  function NetworkAt(s: string, j: nat): (net: string)
    ensures net == "" || ((net == "lora" || net == "hypernet") && OccursAt(s, net + ":", j))
  {
    if OccursAt(s, "lora:", j) then
      assert "lora" + ":" == "lora:";
      "lora"
    else if OccursAt(s, "hypernet:", j) then
      assert "hypernet" + ":" == "hypernet:";
      "hypernet"
    else ""
  }

  /** `(?:[:].*)?>` at w: either `>`, or `:` and the rest of the line up to its last `>`; the end of
      the match. */
  function TailEnd(s: string, w: nat): (e: Option<nat>)
    requires w <= |s|
    ensures e.Some? ==> w < e.value <= |s| && s[e.value - 1] == '>'
  {
    if w == |s| then None
    else if s[w] == '>' then Some(w + 1)
    else if s[w] == ':' then
      match LastIn(s, w + 1, LineEnd(s, w + 1), '>')
      case Some(k) => Some(k + 1)
      case None => None
    else None
  }

  /** A run of name characters followed by ':' is a well-formed name, written with its colon. */
  lemma NameColon(s: string, n0: nat, n1: nat)
    requires n0 < n1 < |s| && s[n1] == ':'
    requires forall k :: n0 <= k < n1 ==> NameChar(s[k])
    ensures OccursAt(s, s[n0..n1] + ":", n0) && NameOk(s[n0..n1])
  {
    assert s[n0..n1 + 1] == s[n0..n1] + ":";
    assert forall k :: 0 <= k < n1 - n0 ==> s[n0..n1][k] == s[n0 + k];
  }

  /** `<(lora|hypernet):([a-zA-Z0-9_\.\-\s]+):([0-9.]+)(?:[:].*)?>` matched at i: the tag and the end
      of the match. */
  function TagAt(s: string, i: nat): (r: Option<(Tag, nat)>)
    requires i <= |s|
    ensures r.Some? ==> i < r.value.1 <= |s| && s[r.value.1 - 1] == '>'
  {
    if i < |s| && s[i] == '<' then
      var net := NetworkAt(s, i + 1);
      if net == "" then None else TagAfter(s, i, net)
    else None
  }

  /** The rest of the pattern once `<` and the network with its colon have matched at i. */
  function TagAfter(s: string, i: nat, net: string): (r: Option<(Tag, nat)>)
    requires i < |s| && s[i] == '<' && (net == "lora" || net == "hypernet") && OccursAt(s, net + ":", i + 1)
    ensures r.Some? ==> i < r.value.1 <= |s| && s[r.value.1 - 1] == '>'
  {
    var n0 := i + |net| + 2;
    match NameAndTail(s, n0)
    case None => None
    case Some((n1, e)) => Some((Tag(net, s[n0..n1]), e))
  }

  /** A matched tag is well formed and written at the position it was matched at. */
  lemma TagAtSound(s: string, i: nat)
    requires i <= |s|
    ensures TagAt(s, i).Some? ==> ValidTag(TagAt(s, i).value.0) && TagText(s, TagAt(s, i).value.0, i)
  {
    if i < |s| && s[i] == '<' && NetworkAt(s, i + 1) != "" {
      TagAfterSound(s, i, NetworkAt(s, i + 1));
    }
  }

  /** After `<` and the network, a match gives a well-formed tag written there. */
  lemma TagAfterSound(s: string, i: nat, net: string)
    requires i < |s| && s[i] == '<' && (net == "lora" || net == "hypernet") && OccursAt(s, net + ":", i + 1)
    ensures TagAfter(s, i, net).Some? ==> ValidTag(TagAfter(s, i, net).value.0) && TagText(s, TagAfter(s, i, net).value.0, i)
  {
    var n0 := i + |net| + 2;
    match NameAndTail(s, n0)
    case None =>
    case Some((n1, e)) => NameColon(s, n0, n1);
  }

  /** `([a-zA-Z0-9_\.\-\s]+):([0-9.]+)(?:[:].*)?>` at n0: where the name ends (at its colon) and where
      the match ends. */
  function NameAndTail(s: string, n0: nat): (r: Option<(nat, nat)>)
    requires n0 <= |s|
    ensures r.Some? ==> n0 < r.value.0 < |s| && s[r.value.0] == ':' && r.value.0 < r.value.1 <= |s|
    ensures r.Some? ==> s[r.value.1 - 1] == '>' && forall k :: n0 <= k < r.value.0 ==> NameChar(s[k])
  {
    var n1 := NameEnd(s, n0);
    if n1 == n0 || n1 == |s| || s[n1] != ':' then None
    else
      var w1 := WeightEnd(s, n1 + 1);
      if w1 == n1 + 1 then None
      else
        match TailEnd(s, w1)
        case None => None
        case Some(e) => Some((n1, e))
  }

  /** re.findall from i: every tag, scanning left to right, each search resuming after the last match. */
  function FindTags(s: string, i: nat): seq<Tag>
    requires i <= |s|
    decreases |s| - i
  {
    if i == |s| then []
    else match TagAt(s, i)
      case Some((t, e)) => [t] + FindTags(s, e)
      case None => FindTags(s, i + 1)
  }

  /** Every tag found is well formed and written out in the text. */
  lemma {:induction false} FindTagsSound(s: string, i: nat)
    requires i <= |s|
    ensures forall t :: t in FindTags(s, i) ==> ValidTag(t) && exists k :: i <= k < |s| && TagText(s, t, k)
    decreases |s| - i
  {
    if i < |s| {
      TagAtSound(s, i);
      match TagAt(s, i)
      case Some((t, e)) => FindTagsSound(s, e);
      case None => FindTagsSound(s, i + 1);
    }
  }

  /** A tag written at i is matched there: `<`, a known network and `:`, a non-empty name run ending
      in `:`, a non-empty weight run, and then either `>` or `:` with a last `>` later on the line. */
  lemma TagAtComplete(s: string, i: nat, net: string, n1: nat, w1: nat, e: nat)
    requires i < |s| && s[i] == '<'
    requires (net == "lora" || net == "hypernet") && OccursAt(s, net + ":", i + 1)
    requires i + |net| + 2 < n1 < |s| && s[n1] == ':'
    requires forall k :: i + |net| + 2 <= k < n1 ==> NameChar(s[k])
    requires n1 + 1 < w1 < |s| && forall k :: n1 + 1 <= k < w1 ==> WeightChar(s[k])
    requires (s[w1] == '>' && e == w1 + 1) ||
             (s[w1] == ':' && w1 + 1 < e <= LineEnd(s, w1 + 1) && s[e - 1] == '>' &&
              forall k :: e <= k < LineEnd(s, w1 + 1) ==> s[k] != '>')
    ensures TagAt(s, i) == Some((Tag(net, s[i + |net| + 2..n1]), e))
  {
    TailEndComplete(s, w1, e);
    NameAndTailComplete(s, i + |net| + 2, n1, w1, e);
    TagAfterOf(s, i, net, n1, e);
    TagAtOf(s, i, net);
  }

  lemma TagAtOf(s: string, i: nat, net: string)
    requires i < |s| && s[i] == '<' && (net == "lora" || net == "hypernet") && OccursAt(s, net + ":", i + 1)
    ensures TagAt(s, i) == TagAfter(s, i, net)
  {
    NetworkAtKnown(s, i + 1, net);
  }

  lemma TagAfterOf(s: string, i: nat, net: string, n1: nat, e: nat)
    requires i < |s| && s[i] == '<' && (net == "lora" || net == "hypernet") && OccursAt(s, net + ":", i + 1)
    requires i + |net| + 2 <= |s| && NameAndTail(s, i + |net| + 2) == Some((n1, e))
    ensures TagAfter(s, i, net) == Some((Tag(net, s[i + |net| + 2..n1]), e))
  {
  }

  /** `(lora|hypernet):` matches the network written there. */
  lemma NetworkAtKnown(s: string, j: nat, net: string)
    requires (net == "lora" || net == "hypernet") && OccursAt(s, net + ":", j)
    ensures NetworkAt(s, j) == net
  {
    if net == "hypernet" {
      assert s[j] == (net + ":")[0] == 'h';
    }
  }

  /** The tail matches `>` at w, or `:` and the rest of the line up to its last `>`. */
  lemma TailEndComplete(s: string, w: nat, e: nat)
    requires w < |s|
    requires (s[w] == '>' && e == w + 1) ||
             (s[w] == ':' && w + 1 < e <= LineEnd(s, w + 1) && s[e - 1] == '>' &&
              forall k :: e <= k < LineEnd(s, w + 1) ==> s[k] != '>')
    ensures TailEnd(s, w) == Some(e)
  {
    if s[w] == ':' {
      var r := LastIn(s, w + 1, LineEnd(s, w + 1), '>');
      assert r.Some? && r.value == e - 1;
    }
  }

  /** A name run ending in its colon, a non-empty weight run and a matching tail are matched. */
  lemma NameAndTailComplete(s: string, n0: nat, n1: nat, w1: nat, e: nat)
    requires n0 < n1 < |s| && s[n1] == ':' && forall k :: n0 <= k < n1 ==> NameChar(s[k])
    requires n1 + 1 < w1 < |s| && forall k :: n1 + 1 <= k < w1 ==> WeightChar(s[k])
    requires (s[w1] == '>' || s[w1] == ':') && TailEnd(s, w1) == Some(e)
    ensures NameAndTail(s, n0) == Some((n1, e))
  {
    assert NameEnd(s, n0) == n1;
    assert WeightEnd(s, n1 + 1) == w1;
  }

  /** No tag is matched at any position from j up to i. */
  predicate NoTagBetween(s: string, j: nat, i: nat)
    requires j <= i <= |s|
    decreases i - j
  {
    j == i || (TagAt(s, j).None? && NoTagBetween(s, j + 1, i))
  }

  lemma {:induction false} NoTagBetweenOf(s: string, j: nat, i: nat)
    requires j <= i <= |s|
    requires forall k :: j <= k < i ==> TagAt(s, k).None?
    ensures NoTagBetween(s, j, i)
    decreases i - j
  {
    if j < i {
      NoTagBetweenOf(s, j + 1, i);
    }
  }

  /** re.findall skips the positions where no tag is matched. */
  lemma {:induction false} FindTagsSkips(s: string, j: nat, i: nat)
    requires j <= i <= |s|
    requires NoTagBetween(s, j, i)
    ensures FindTags(s, j) == FindTags(s, i)
    decreases i - j
  {
    if j < i {
      FindTagsSkips(s, j + 1, i);
      FindTagsStep(s, j);
    }
  }

  lemma FindTagsStep(s: string, j: nat)
    requires j < |s| && TagAt(s, j).None?
    ensures FindTags(s, j) == FindTags(s, j + 1)
  {
  }

  /** The first tag matched at or after j leads the list of tags found from j, and the search resumes
      where its match ends. */
  lemma FindTagsFirst(s: string, j: nat, i: nat)
    requires j <= i < |s| && TagAt(s, i).Some?
    requires forall k :: j <= k < i ==> TagAt(s, k).None?
    ensures FindTags(s, j) == [TagAt(s, i).value.0] + FindTags(s, TagAt(s, i).value.1)
  {
    NoTagBetweenOf(s, j, i);
    FindTagsSkips(s, j, i);
  }

  /** `additional_network_type_map` */
  function TypeOf(network: string): ResourceType {
    if network == "lora" then LORA else Hypernetwork
  }

  /** The record name equals the tag name ignoring case, or its part before the first `-` does. */
  predicate NameMatches(r: Resource, name: string) {
    LowerStr(r.name) == LowerStr(name) || BeforeFirst(LowerStr(r.name), '-') == LowerStr(name)
  }

  predicate IsNetwork(t: Tag, r: Resource) {
    r.kind == TypeOf(t.network) && NameMatches(r, t.name)
  }

  /** The first record of the tag's type whose name matches. */
  function TagMatch(rs: seq<Resource>, t: Tag): (r: Option<Resource>)
    ensures r.Some? <==> exists i :: 0 <= i < |rs| && IsNetwork(t, rs[i])
    ensures r.Some? ==> exists i :: 0 <= i < |rs| && rs[i] == r.value && IsNetwork(t, rs[i]) &&
                          forall j :: 0 <= j < i ==> !IsNetwork(t, rs[j])
  {
    First(rs, (x: Resource) => IsNetwork(t, x))
  }

  function TagKey(t: Tag): string {
    t.network + ":" + t.name
  }

  predicate IsTagKey(k: string) {
    StartsWith(k, "lora:") || StartsWith(k, "hypernet:")
  }

  /** The map after the tag loop has visited `tags`, starting from `acc`. */
  function TagHashes(tags: seq<Tag>, rs: seq<Resource>, acc: map<string, string>): map<string, string> {
    if tags == [] then acc
    else TagStep(TagHashes(tags[..|tags| - 1], rs, acc), rs, tags[|tags| - 1])
  }

  /** One pass of the tag loop: a matched tag sets its key to the first match's short hash. */
  function TagStep(m: map<string, string>, rs: seq<Resource>, t: Tag): (m': map<string, string>)
    ensures forall k :: k in m' <==> k in m || (TagMatch(rs, t).Some? && k == TagKey(t))
    ensures forall k :: k in m && k != TagKey(t) ==> m'[k] == m[k]
    ensures TagMatch(rs, t).Some? ==> m'[TagKey(t)] == Short(TagMatch(rs, t).value)
    ensures TagMatch(rs, t).None? ==> m' == m
  {
    match TagMatch(rs, t)
    case Some(r) => m[TagKey(t) := Short(r)]
    case None => m
  }

  /** Keys that start differently are different keys. */
  lemma Differ(k: string, a: string, b: string)
    requires StartsWith(k, a) && |a| > 0 && |b| > 0 && a[0] != b[0]
    ensures !StartsWith(k, b)
  {
    assert k[..|a|][0] == k[0];
    if |b| <= |k| {
      assert k[..|b|][0] == k[0];
    }
  }

  /** A well-formed tag's key is a network key, and so neither `vae`, `model` nor an `embed:` key. */
  lemma TagKeyClass(t: Tag)
    requires KnownNetwork(t)
    ensures IsTagKey(TagKey(t)) && TagKey(t) != "vae" && TagKey(t) != "model" && !StartsWith(TagKey(t), "embed:")
  {
    var k := TagKey(t);
    var pre := t.network + ":";
    assert k[..|pre|] == pre;
    if t.network == "lora" {
      assert pre == "lora:";
    } else {
      assert pre == "hypernet:";
    }
    Differ(k, pre, "embed:");
    assert k[0] != 'v' && k[0] != 'm';
  }

  /** `vae`, `model` and the `embed:` keys are not network keys. */
  lemma OtherKeyClass(k: string)
    requires k == "vae" || k == "model" || StartsWith(k, "embed:")
    ensures !IsTagKey(k)
  {
    if StartsWith(k, "embed:") {
      Differ(k, "embed:", "lora:");
      Differ(k, "embed:", "hypernet:");
    } else {
      assert k[0] != 'l' && k[0] != 'h';
      assert !StartsWith(k, "lora:") by {
        if |k| >= 5 {
          assert k[..5][0] == k[0];
        }
      }
      assert !StartsWith(k, "hypernet:");
    }
  }

  /** `k` is the key of one of `tags` that a record of its type matches. */
  predicate FromTag(tags: seq<Tag>, rs: seq<Resource>, k: string) {
    exists i :: 0 <= i < |tags| && TagMatch(rs, tags[i]).Some? && k == TagKey(tags[i])
  }

  /** The tag loop keeps every key it starts with, adds only keys of matched tags, and leaves every
      key that is not a network key alone. */
  lemma {:induction false} TagHashesKeys(tags: seq<Tag>, rs: seq<Resource>, acc: map<string, string>)
    requires forall t :: t in tags ==> KnownNetwork(t)
    ensures forall k :: k in acc ==> k in TagHashes(tags, rs, acc)
    ensures forall k :: k in TagHashes(tags, rs, acc) ==> k in acc || FromTag(tags, rs, k)
    ensures forall k :: k in acc && !IsTagKey(k) ==> TagHashes(tags, rs, acc)[k] == acc[k]
  {
    if tags != [] {
      var butLast := tags[..|tags| - 1];
      assert forall t :: t in butLast ==> t in tags;
      TagHashesKeys(butLast, rs, acc);
      var t := tags[|tags| - 1];
      assert t in tags;
      TagKeyClass(t);
      forall k | k in TagHashes(tags, rs, acc) && k !in acc
        ensures FromTag(tags, rs, k)
      {
        FromTagLast(tags, rs, k);
      }
    }
  }

  /** A key that comes from a tag of a prefix, or from the last tag, comes from the tags. */
  lemma FromTagLast(tags: seq<Tag>, rs: seq<Resource>, k: string)
    requires tags != []
    requires FromTag(tags[..|tags| - 1], rs, k) || (TagMatch(rs, tags[|tags| - 1]).Some? && k == TagKey(tags[|tags| - 1]))
    ensures FromTag(tags, rs, k)
  {
    var butLast := tags[..|tags| - 1];
    if FromTag(butLast, rs, k) {
      var i :| 0 <= i < |butLast| && TagMatch(rs, butLast[i]).Some? && k == TagKey(butLast[i]);
      assert tags[i] == butLast[i];
    } else {
      assert TagMatch(rs, tags[|tags| - 1]).Some? && k == TagKey(tags[|tags| - 1]);
    }
  }

  /** Tags with the same key are the same tag: the network holds no ':'. */
  lemma TagKeyInjective(a: Tag, b: Tag)
    requires KnownNetwork(a) && KnownNetwork(b) && TagKey(a) == TagKey(b)
    ensures a == b
  {
    assert TagKey(a)[4] == TagKey(b)[4];
    assert a.network == b.network;
    assert a.name == TagKey(a)[|a.network| + 1..];
  }

  /** A matched tag's key ends up holding the short hash of the first matching record: a repeated
      tag reassigns the same key the same value. */
  lemma {:induction false} TagHashesValue(tags: seq<Tag>, rs: seq<Resource>, acc: map<string, string>, i: nat)
    requires forall t :: t in tags ==> KnownNetwork(t)
    requires i < |tags| && TagMatch(rs, tags[i]).Some?
    ensures TagKey(tags[i]) in TagHashes(tags, rs, acc)
    ensures TagHashes(tags, rs, acc)[TagKey(tags[i])] == Short(TagMatch(rs, tags[i]).value)
  {
    var butLast := tags[..|tags| - 1];
    var t := tags[|tags| - 1];
    if i < |tags| - 1 {
      assert butLast[i] == tags[i];
      assert forall u :: u in butLast ==> u in tags;
      TagHashesValue(butLast, rs, acc, i);
      if TagKey(tags[i]) == TagKey(t) {
        assert tags[i] in tags && t in tags;
        TagKeyInjective(tags[i], t);
      }
    }
  }

  /** `TagHashesValue` for every matched tag at once. */
  lemma TagHashesValues(tags: seq<Tag>, rs: seq<Resource>, acc: map<string, string>)
    requires forall t :: t in tags ==> KnownNetwork(t)
    ensures forall i :: 0 <= i < |tags| && TagMatch(rs, tags[i]).Some? ==>
                        TagKey(tags[i]) in TagHashes(tags, rs, acc) &&
                        TagHashes(tags, rs, acc)[TagKey(tags[i])] == Short(TagMatch(rs, tags[i]).value)
  {
    forall i | 0 <= i < |tags| && TagMatch(rs, tags[i]).Some?
      ensures TagKey(tags[i]) in TagHashes(tags, rs, acc)
      ensures TagHashes(tags, rs, acc)[TagKey(tags[i])] == Short(TagMatch(rs, tags[i]).value)
    {
      TagHashesValue(tags, rs, acc, i);
    }
  }

  /** The tag loop adds only short hashes of records. */
  lemma {:induction false} TagHashesFrom(tags: seq<Tag>, rs: seq<Resource>, acc: map<string, string>)
    requires FromInventory(acc, rs)
    ensures FromInventory(TagHashes(tags, rs, acc), rs)
  {
    if tags != [] {
      TagHashesFrom(tags[..|tags| - 1], rs, acc);
      var t := tags[|tags| - 1];
      if TagMatch(rs, t).Some? {
        assert TagMatch(rs, t).value in rs;
      }
    }
  }

  // ---------------------------------------------------------------- the checkpoint

  /** `Model hash: ([0-9a-fA-F]{10})` matched at i. */
  predicate ModelHashAt(s: string, i: int) {
    OccursAt(s, ModelMarker, i) && i + 22 <= |s| && forall k :: i + 12 <= k < i + 22 ==> IsHexDigit(s[k])
  }

  /** re.search from i for the model hash: group 1 of the leftmost match. */
  function ModelHashFrom(s: string, i: nat): (r: Option<string>)
    requires i <= |s|
    ensures r.None? <==> forall k :: i <= k <= |s| ==> !ModelHashAt(s, k)
    ensures r.Some? ==> exists k :: i <= k <= |s| && ModelHashAt(s, k) && r.value == s[k + 12..k + 22] &&
                          forall j :: i <= j < k ==> !ModelHashAt(s, j)
    decreases |s| - i
  {
    if ModelHashAt(s, i) then Some(s[i + 12..i + 22])
    else if i == |s| then None
    else ModelHashFrom(s, i + 1)
  }

  predicate IsModel(h: string, r: Resource) {
    r.kind == Checkpoint && StartsWith(r.hash, h)
  }

  /** `model`: the first checkpoint whose hash starts with the model hash in the parameters. */
  function ModelEntry(rs: seq<Resource>, params: string): (r: Option<string>)
    ensures r.Some? <==> ModelHashFrom(params, 0).Some? && exists i :: 0 <= i < |rs| && IsModel(ModelHashFrom(params, 0).value, rs[i])
    ensures r.Some? ==> exists i :: 0 <= i < |rs| && IsModel(ModelHashFrom(params, 0).value, rs[i]) && r.value == Short(rs[i]) &&
                          forall j :: 0 <= j < i ==> !IsModel(ModelHashFrom(params, 0).value, rs[j])
  {
    match ModelHashFrom(params, 0)
    case None => None
    case Some(h) =>
      match First(rs, (x: Resource) => IsModel(h, x))
      case None => None
      case Some(x) => Some(Short(x))
  }

  /** A model hash found in the parameters is ten hexadecimal digits written after `Model hash: `. */
  lemma ModelHashShape(params: string)
    requires ModelHashFrom(params, 0).Some?
    ensures var h := ModelHashFrom(params, 0).value;
      |h| == 10 && (forall k :: 0 <= k < 10 ==> IsHexDigit(h[k])) && IsSubstring(ModelMarker + h, params)
  {
    var h := ModelHashFrom(params, 0).value;
    var i :| 0 <= i <= |params| && ModelHashAt(params, i) && h == params[i + 12..i + 22];
    assert params[i..i + 22] == ModelMarker + h;
    assert OccursAt(params, ModelMarker + h, i);
  }

  // ---------------------------------------------------------------- the whole map

  function VaeStage(rs: seq<Resource>, vaeFile: Option<string>): map<string, string> {
    match VaeEntry(rs, vaeFile)
    case Some(h) => map["vae" := h]
    case None => map[]
  }

  /** The model step sets `model` when a checkpoint matches and touches no other key. */
  function ModelStage(rs: seq<Resource>, params: string, m: map<string, string>): (m': map<string, string>)
    ensures forall k :: k != "model" ==> (k in m' <==> k in m) && (k in m ==> m'[k] == m[k])
    ensures "model" in m' <==> "model" in m || ModelEntry(rs, params).Some?
    ensures ModelEntry(rs, params).Some? ==> m'["model"] == ModelEntry(rs, params).value
  {
    match ModelEntry(rs, params)
    case Some(h) => m["model" := h]
    case None => m
  }

  /** The map after the embedding loop, before the tag loop. */
  function EmbedStage(rs: seq<Resource>, vaeFile: Option<string>, p: Parts): map<string, string> {
    EmbedHashes(Filter(rs, IsEmbedding), p, VaeStage(rs, vaeFile))
  }

  /** What civitai_hashes returns for an inventory, a loaded VAE file name and an infotext's sections. */
  function Hashes(rs: seq<Resource>, vaeFile: Option<string>, p: Parts): map<string, string> {
    ModelStage(rs, p.params, TagHashes(FindTags(p.prompt, 0), rs, EmbedStage(rs, vaeFile, p)))
  }

  lemma VaeStageFacts(rs: seq<Resource>, vaeFile: Option<string>)
    ensures FromInventory(VaeStage(rs, vaeFile), rs)
    ensures forall k :: k in VaeStage(rs, vaeFile) ==> k == "vae"
  {
  }

  lemma EmbedStageFrom(rs: seq<Resource>, vaeFile: Option<string>, p: Parts)
    ensures FromInventory(EmbedStage(rs, vaeFile, p), rs)
  {
    FilterMembers(rs, IsEmbedding);
    VaeStageFacts(rs, vaeFile);
    EmbedHashesFrom(Filter(rs, IsEmbedding), p, VaeStage(rs, vaeFile), rs);
  }

  /** Before the tag loop, the map holds only `vae` and `embed:` keys. */
  lemma EmbedStageKeys(rs: seq<Resource>, vaeFile: Option<string>, p: Parts)
    ensures forall k :: k in EmbedStage(rs, vaeFile, p) ==> !IsTagKey(k) && k != "model"
  {
    var tis := Filter(rs, IsEmbedding);
    var m0 := VaeStage(rs, vaeFile);
    VaeStageFacts(rs, vaeFile);
    EmbedHashesKeys(tis, p, m0);
    forall k | k in EmbedStage(rs, vaeFile, p)
      ensures !IsTagKey(k) && k != "model"
    {
      if k in m0 {
        OtherKeyClass(k);
      } else {
        var i :| 0 <= i < |tis| && Mentioned(p, tis[i]) && k == EmbedKey(tis[i]);
        assert StartsWith(k, "embed:");
        OtherKeyClass(k);
      }
    }
  }

  lemma FindTagsKnown(s: string)
    ensures forall t :: t in FindTags(s, 0) ==> KnownNetwork(t)
  {
    FindTagsSound(s, 0);
  }

  lemma TagStageKeeps(rs: seq<Resource>, p: Parts, m1: map<string, string>, k: string)
    requires !IsTagKey(k)
    ensures var m2 := TagHashes(FindTags(p.prompt, 0), rs, m1);
      (k in m2 <==> k in m1) && (k in m1 ==> m2[k] == m1[k])
  {
    var tags := FindTags(p.prompt, 0);
    FindTagsSound(p.prompt, 0);
    TagHashesKeys(tags, rs, m1);
    forall i | 0 <= i < |tags|
      ensures TagKey(tags[i]) != k
    {
      assert tags[i] in tags;
      TagKeyClass(tags[i]);
    }
  }

  /** Every value in the map is the first ten characters of the hash of a record of the inventory. */
  lemma HashesFromInventory(rs: seq<Resource>, vaeFile: Option<string>, p: Parts)
    ensures FromInventory(Hashes(rs, vaeFile, p), rs)
  {
    var m1 := EmbedStage(rs, vaeFile, p);
    var m2 := TagHashes(FindTags(p.prompt, 0), rs, m1);
    EmbedStageFrom(rs, vaeFile, p);
    TagHashesFrom(FindTags(p.prompt, 0), rs, m1);
    assert FromInventory(m2, rs);
  }

  /** The `vae` key is there exactly when a VAE file is loaded and a VAE record is named after its
      stem, and it holds the first such record's short hash. */
  lemma HashesVae(rs: seq<Resource>, vaeFile: Option<string>, p: Parts)
    ensures "vae" in Hashes(rs, vaeFile, p) <==> VaeEntry(rs, vaeFile).Some?
    ensures VaeEntry(rs, vaeFile).Some? ==> Hashes(rs, vaeFile, p)["vae"] == VaeEntry(rs, vaeFile).value
  {
    var tis := Filter(rs, IsEmbedding);
    var m0 := VaeStage(rs, vaeFile);
    EmbedHashesKeys(tis, p, m0);
    assert !StartsWith("vae", "embed:");
    OtherKeyClass("vae");
    TagStageKeeps(rs, p, EmbedStage(rs, vaeFile, p), "vae");
  }

  /** The `model` key is there exactly when the parameters carry a model hash that starts some
      checkpoint's hash, and it holds the first such checkpoint's short hash. */
  lemma HashesModel(rs: seq<Resource>, vaeFile: Option<string>, p: Parts)
    ensures "model" in Hashes(rs, vaeFile, p) <==> ModelEntry(rs, p.params).Some?
    ensures ModelEntry(rs, p.params).Some? ==> Hashes(rs, vaeFile, p)["model"] == ModelEntry(rs, p.params).value
  {
    EmbedStageKeys(rs, vaeFile, p);
    OtherKeyClass("model");
    TagStageKeeps(rs, p, EmbedStage(rs, vaeFile, p), "model");
  }

  /** Every tag of the prompt that one of its type's records matches has its key, holding the short
      hash of the first such record. */
  lemma HashesTagValues(rs: seq<Resource>, vaeFile: Option<string>, p: Parts)
    ensures var tags := FindTags(p.prompt, 0);
      forall i :: 0 <= i < |tags| && TagMatch(rs, tags[i]).Some? ==>
        TagKey(tags[i]) in Hashes(rs, vaeFile, p) && Hashes(rs, vaeFile, p)[TagKey(tags[i])] == Short(TagMatch(rs, tags[i]).value)
  {
    var tags := FindTags(p.prompt, 0);
    FindTagsSound(p.prompt, 0);
    TagHashesValues(tags, rs, EmbedStage(rs, vaeFile, p));
    forall i | 0 <= i < |tags|
      ensures TagKey(tags[i]) != "model"
    {
      assert tags[i] in tags;
      TagKeyClass(tags[i]);
    }
  }

  /** A network key is there only for a tag of the prompt that a record of its type matches. */
  lemma HashesTagKeys(rs: seq<Resource>, vaeFile: Option<string>, p: Parts)
    ensures forall k :: k in Hashes(rs, vaeFile, p) && IsTagKey(k) ==> FromTag(FindTags(p.prompt, 0), rs, k)
  {
    var m1 := EmbedStage(rs, vaeFile, p);
    forall k | k in Hashes(rs, vaeFile, p) && IsTagKey(k)
      ensures FromTag(FindTags(p.prompt, 0), rs, k)
    {
      TagKeyOrigin(rs, vaeFile, p, k);
    }
  }

  /** A network key of the whole map was put there by the tag loop, for a matched tag of the prompt. */
  lemma TagKeyOrigin(rs: seq<Resource>, vaeFile: Option<string>, p: Parts, k: string)
    requires k in Hashes(rs, vaeFile, p) && IsTagKey(k)
    ensures FromTag(FindTags(p.prompt, 0), rs, k)
  {
    var tags := FindTags(p.prompt, 0);
    var m1 := EmbedStage(rs, vaeFile, p);
    OtherKeyClass("model");
    EmbedStageKeys(rs, vaeFile, p);
    FindTagsKnown(p.prompt);
    assert k in TagHashes(tags, rs, m1) && k !in m1;
    TagHashesKeys(tags, rs, m1);
  }

  /** The tag loop and the model step leave `embed:` keys alone. */
  lemma EmbedKeyPasses(rs: seq<Resource>, vaeFile: Option<string>, p: Parts, k: string)
    requires StartsWith(k, "embed:")
    ensures var m1 := EmbedStage(rs, vaeFile, p);
      (k in Hashes(rs, vaeFile, p) <==> k in m1) && (k in m1 ==> Hashes(rs, vaeFile, p)[k] == m1[k])
  {
    OtherKeyClass(k);
    TagStageKeeps(rs, p, EmbedStage(rs, vaeFile, p), k);
    Differ(k, "embed:", "model");
  }

  /** An `embed:` key is there exactly for each embedding a prompt mentions. */
  lemma HashesEmbedKeys(rs: seq<Resource>, vaeFile: Option<string>, p: Parts)
    ensures var tis := Filter(rs, IsEmbedding);
      forall k :: StartsWith(k, "embed:") ==>
        (k in Hashes(rs, vaeFile, p) <==> FromEmbed(tis, p, k))
  {
    var tis := Filter(rs, IsEmbedding);
    var m0 := VaeStage(rs, vaeFile);
    EmbedHashesKeys(tis, p, m0);
    VaeStageFacts(rs, vaeFile);
    forall k | StartsWith(k, "embed:")
      ensures k in Hashes(rs, vaeFile, p) <==> FromEmbed(tis, p, k)
    {
      EmbedKeyPasses(rs, vaeFile, p, k);
      Differ(k, "embed:", "vae");
    }
  }

  /** A mentioned embedding's key holds its short hash unless a later mentioned embedding has the same
      name: the last embedding of a name wins. */
  lemma HashesEmbedValues(rs: seq<Resource>, vaeFile: Option<string>, p: Parts)
    ensures var tis := Filter(rs, IsEmbedding);
      forall i :: 0 <= i < |tis| && Mentioned(p, tis[i]) &&
                  (forall j :: i < j < |tis| && Mentioned(p, tis[j]) ==> EmbedKey(tis[j]) != EmbedKey(tis[i])) ==>
        EmbedKey(tis[i]) in Hashes(rs, vaeFile, p) && Hashes(rs, vaeFile, p)[EmbedKey(tis[i])] == Short(tis[i])
  {
    var tis := Filter(rs, IsEmbedding);
    EmbedHashesValues(tis, p, VaeStage(rs, vaeFile));
    forall i | 0 <= i < |tis|
      ensures var k := EmbedKey(tis[i]);
        (k in Hashes(rs, vaeFile, p) <==> k in EmbedStage(rs, vaeFile, p)) &&
        (k in EmbedStage(rs, vaeFile, p) ==> Hashes(rs, vaeFile, p)[k] == EmbedStage(rs, vaeFile, p)[k])
    {
      assert EmbedKey(tis[i])[..6] == "embed:";
      EmbedKeyPasses(rs, vaeFile, p, EmbedKey(tis[i]));
    }
  }

  /** The embedding loop of civitai_hashes, over the embedding records in inventory order. */
  method EmbedLoop(tis: seq<Resource>, p: Parts, acc: map<string, string>) returns (m: map<string, string>)
    ensures m == EmbedHashes(tis, p, acc)
  {
    m := acc;
    for i := 0 to |tis|
      invariant m == EmbedHashes(tis[..i], p, acc)
    {
      assert tis[..i + 1][..i] == tis[..i];
      if Mentioned(p, tis[i]) {
        m := m[EmbedKey(tis[i]) := Short(tis[i])];
      }
    }
    assert tis[..|tis|] == tis;
  }

  /** The tag loop of civitai_hashes, over the prompt's tags in order. */
  method TagLoop(tags: seq<Tag>, rs: seq<Resource>, acc: map<string, string>) returns (m: map<string, string>)
    ensures m == TagHashes(tags, rs, acc)
  {
    m := acc;
    for i := 0 to |tags|
      invariant m == TagHashes(tags[..i], rs, acc)
    {
      assert tags[..i + 1][..i] == tags[..i] && tags[..i + 1][i] == tags[i];
      assert TagHashes(tags[..i + 1], rs, acc) == TagStep(m, rs, tags[i]);
      var matched := TagMatch(rs, tags[i]);
      if matched.Some? {
        m := m[TagKey(tags[i]) := Short(matched.value)];
      }
    }
    assert tags[..|tags|] == tags;
  }

  /** civitai_hashes: nothing when hashifying is off; otherwise the map of short hashes of the records
      the infotext uses, computed against the current inventory (the reload rescans no type). */
  method CivitaiHashes(inv: Inventory, opts: CmdOpts, env: Env, d: Dirs, hashify: bool,
                       vaeFile: Option<string>, infotext: string) returns (hashes: map<string, string>)
    modifies inv, opts
    ensures inv.resources == old(inv.resources) && opts.noHashing == old(opts.noHashing)
    ensures !hashify ==> hashes == map[]
    ensures hashify ==> hashes == Hashes(old(inv.resources), vaeFile, SplitInfotext(infotext))
  {
    if !hashify {
      return map[];
    }
    var rs := CurrentResources(inv, opts, env, d);
    hashes := CollectHashes(rs, vaeFile, infotext);
  }

  /** The body of civitai_hashes once the inventory is at hand: the VAE entry, the embedding loop, the
      tag loop and the model entry, in that order. */
  method CollectHashes(rs: seq<Resource>, vaeFile: Option<string>, infotext: string) returns (hashes: map<string, string>)
    ensures hashes == Hashes(rs, vaeFile, SplitInfotext(infotext))
  {
    var p := SplitInfotext(infotext);
    hashes := VaeStage(rs, vaeFile);
    hashes := EmbedLoop(Filter(rs, IsEmbedding), p, hashes);
    hashes := TagLoop(FindTags(p.prompt, 0), rs, hashes);
    hashes := ModelStage(rs, p.params, hashes);
  }

  /** What the host's infotext builder produced: a string, or some other value. */
  datatype Created<X> = Str(text: string) | NonStr(x: X)

  /** insert_infotext, which wraps the host's infotext builder: a string result gets the hashes merged
      in when hashifying is on and at least one resource was found, and the merge's exception
      propagates; anything else passes through. */
  method InsertInfotext<X>(inv: Inventory, opts: CmdOpts, env: Env, d: Dirs, hashify: bool,
                           vaeFile: Option<string>, c: Codec, created: Created<X>)
    returns (r: Result<Created<X>, TemplateError>)
    modifies inv, opts
    ensures inv.resources == old(inv.resources) && opts.noHashing == old(opts.noHashing)
    ensures created.NonStr? || !hashify ==> r == Success(created)
    ensures created.Str? && hashify ==>
      var h := Hashes(old(inv.resources), vaeFile, SplitInfotext(created.text));
      && (h == map[] ==> r == Success(created))
      && (h != map[] ==> match MergeInfotext(c, created.text, h)
                         case Success(text) => r == Success(Str(text))
                         case Failure(e) => r == Failure(e))
  {
    if created.NonStr? {
      return Success(created);
    }
    r := Success(created);
    if hashify {
      var hashes := CivitaiHashes(inv, opts, env, d, hashify, vaeFile, created.text);
      if hashes != map[] {
        match MergeInfotext(c, created.text, hashes)
        case Success(text) => r := Success(Str(text));
        case Failure(e) => r := Failure(e);
      }
    }
  }
}

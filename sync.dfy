/** The background jobs of scripts/script.py: `load_info` writes a `.json` sidecar for every
    synced resource that lacks one and that the catalog knows, and `load_preview` asks for a
    preview download for every synced resource that lacks a preview. The file writes and
    downloads are modelled as the list of writes and dispatches each job performs. */
module Sync {
  import opened Wrappers
  import opened Seqs
  import opened Text
  import opened Catalog
  import opened Resources
  import opened HashCache

  /** The types both jobs look after. */
  const SyncedTypes: seq<ResourceType> := [LORA, LoCon, Hypernetwork, TextualInversion, Checkpoint]

  predicate LacksInfo(r: Resource) {
    r.kind in SyncedTypes && !r.hasInfo
  }

  predicate LacksPreview(r: Resource) {
    r.kind in SyncedTypes && !r.hasPreview
  }

  /** `[r['hash'] for r in rs]` */
  function HashesOf(rs: seq<Resource>): (hs: seq<string>)
    ensures |hs| == |rs| && forall i :: 0 <= i < |rs| ==> hs[i] == rs[i].hash
  {
    seq(|rs|, i requires 0 <= i < |rs| => rs[i].hash)
  }

  /** The resources `load_info` works on: synced types without an info file. */
  lemma InfoCandidates(rs: seq<Resource>)
    ensures forall r :: r in Filter(rs, LacksInfo) <==> r in rs && r.kind in SyncedTypes && !r.hasInfo
  {
    FilterMembers(rs, LacksInfo);
  }

  /** The resources `load_preview` works on: synced types without a preview. */
  lemma PreviewCandidates(rs: seq<Resource>)
    ensures forall r :: r in Filter(rs, LacksPreview) <==> r in rs && r.kind in SyncedTypes && !r.hasPreview
  {
    FilterMembers(rs, LacksPreview);
  }

  /** A file's SHA256 entry, when it has a `hashes` map holding one; other files are skipped. */
  function FileSha(f: FileInfo): (r: Option<string>)
    ensures r.Some? <==> f.hashes.Some? && "SHA256" in f.hashes.value
  {
    if f.hashes.Some? && "SHA256" in f.hashes.value then Some(f.hashes.value["SHA256"]) else None
  }

  /** A file one of whose requested hashes it carries (compared lower-cased). */
  predicate Requested(f: FileInfo, hashes: seq<string>) {
    FileSha(f).Some? && LowerStr(FileSha(f).value) in hashes
  }

  // ---------------------------------------------------------------------------------------------
  // The info record

  /** `baseList`, in dict order: a key that occurs in `baseModel` gives the SD version. */
  const BaseList: seq<(string, string)> := [
    ("SD 1", "SD1"), ("SD 1.5", "SD1"), ("SD 2", "SD2"), ("SD 3", "SD3"),
    ("SDXL", "SDXL"), ("Pony", "SDXL"), ("Illustrious", "SDXL")]

  function KeyIn(baseModel: string): ((string, string)) -> bool {
    (kv: (string, string)) => IsSubstring(kv.0, baseModel)
  }

  /** `sd version`: the value of the first key of the table that is a substring of the base model,
      or '' when none is (or the record has no base model). */
  function SdVersion(baseModel: Option<string>): (v: string)
    ensures var bm := if baseModel.Some? then baseModel.value else "";
      || (exists i :: 0 <= i < |BaseList| && IsSubstring(BaseList[i].0, bm) && v == BaseList[i].1 &&
                      forall j :: 0 <= j < i ==> !IsSubstring(BaseList[j].0, bm))
      || (v == "" && forall i :: 0 <= i < |BaseList| ==> !IsSubstring(BaseList[i].0, bm))
  {
    var bm := if baseModel.Some? then baseModel.value else "";
    match FirstIndex(BaseList, KeyIn(bm))
    case None => ""
    case Some(i) => BaseList[i].1
  }

  lemma NotSubstring(sub: string, s: string, c: char)
    requires c in sub && c !in s
    ensures !IsSubstring(sub, s)
  {
    var k :| 0 <= k < |sub| && sub[k] == c;
    forall i
      ensures !OccursAt(s, sub, i)
    {
      if 0 <= i && i + |sub| <= |s| {
        assert s[i..i + |sub|][k] == s[i + k];
        assert s[i + k] in s;
      }
    }
  }

  lemma Occurs(sub: string, s: string)
    requires StartsWith(s, sub)
    ensures IsSubstring(sub, s)
  {
    assert OccursAt(s, sub, 0);
  }

  lemma KeysOfBaseList()
    ensures BaseList[0].0 == "SD 1" && BaseList[1].0 == "SD 1.5" && BaseList[2].0 == "SD 2" && BaseList[3].0 == "SD 3"
    ensures BaseList[4].0 == "SDXL" && BaseList[5].0 == "Pony" && BaseList[6].0 == "Illustrious"
    ensures BaseList[0].1 == "SD1" && BaseList[4].1 == "SDXL" && BaseList[5].1 == "SDXL" && BaseList[6].1 == "SDXL"
  {
  }

  lemma SdxlOneIsSdxl()
    ensures SdVersion(Some("SDXL 1.0")) == "SDXL"
  {
    var s := "SDXL 1.0";
    KeysOfBaseList();
    assert !IsSubstring("SD 1", s) by {
      forall i
        ensures !OccursAt(s, "SD 1", i)
      {
        if 0 <= i && i + 4 <= |s| {
          if i == 2 {
            assert s[i..i + 4][0] == 'X';
          } else {
            assert s[i..i + 4][2] != ' ';
          }
        }
      }
    }
    NotSubstring("SD 1.5", s, '5');
    NotSubstring("SD 2", s, '2');
    NotSubstring("SD 3", s, '3');
    Occurs("SDXL", s);
  }

  lemma PonyIsSdxl()
    ensures SdVersion(Some("Pony")) == "SDXL"
  {
    KeysOfBaseList();
    NotSubstring("SD 1", "Pony", 'S');
    NotSubstring("SD 1.5", "Pony", 'S');
    NotSubstring("SD 2", "Pony", 'S');
    NotSubstring("SD 3", "Pony", 'S');
    NotSubstring("SDXL", "Pony", 'S');
    Occurs("Pony", "Pony");
  }

  lemma IllustriousIsSdxl()
    ensures SdVersion(Some("Illustrious")) == "SDXL"
  {
    KeysOfBaseList();
    NotSubstring("SD 1", "Illustrious", 'S');
    NotSubstring("SD 1.5", "Illustrious", 'S');
    NotSubstring("SD 2", "Illustrious", 'S');
    NotSubstring("SD 3", "Illustrious", 'S');
    NotSubstring("SDXL", "Illustrious", 'S');
    NotSubstring("Pony", "Illustrious", 'y');
    Occurs("Illustrious", "Illustrious");
  }

  lemma SdOneFiveIsSdOne()
    ensures SdVersion(Some("SD 1.5")) == "SD1"
  {
    KeysOfBaseList();
    Occurs("SD 1", "SD 1.5");
  }

  lemma NoBaseModel()
    ensures SdVersion(None) == ""
  {
    forall i | 0 <= i < |BaseList|
      ensures !IsSubstring(BaseList[i].0, "")
    {
      assert BaseList[i].0 != [];
    }
  }

  /** Substring, not prefix, matching in dict order: 'SDXL 1.0', 'Pony' and 'Illustrious' are SDXL,
      'SD 1.5' is SD1 through the earlier key 'SD 1', and a record without a base model has version ''. */
  lemma SdVersionTable()
    ensures SdVersion(Some("SDXL 1.0")) == "SDXL"
    ensures SdVersion(Some("Pony")) == "SDXL"
    ensures SdVersion(Some("SD 1.5")) == "SD1"
    ensures SdVersion(Some("Illustrious")) == "SDXL"
    ensures SdVersion(None) == ""
  {
    SdxlOneIsSdxl();
    PonyIsSdxl();
    IllustriousIsSdxl();
    SdOneFiveIsSdOne();
    NoBaseModel();
  }

  /** The fields of an info sidecar. */
  datatype InfoData = InfoData(
    activationText: string,
    sdVersion: string,
    modelId: int,
    modelVersionId: int,
    sha256: string)

  /** The record `load_info` builds from a catalog version and the file's SHA256. */
  function InfoOf(v: Version, sha256: string): (data: InfoData)
    ensures data.modelId == v.modelId && data.modelVersionId == v.id
    ensures data.sha256 == UpperStr(sha256) && LowerStr(data.sha256) == LowerStr(sha256)
    ensures data.sdVersion == SdVersion(v.baseModel)
    ensures v.trainedWords.Some? ==> data.activationText == Join(v.trainedWords.value, ", ")
    ensures v.trainedWords.None? ==> data.activationText == ""
  {
    LowerOfUpper(sha256);
    InfoData(Join(if v.trainedWords.Some? then v.trainedWords.value else [], ", "),
             SdVersion(v.baseModel), v.modelId, v.id, UpperStr(sha256))
  }

  /** One sidecar write: the JSON of `data` at `path`. */
  datatype InfoWrite = InfoWrite(path: string, data: InfoData)

  // ---------------------------------------------------------------------------------------------
  // Which sidecars are written

  function HasHash(h: string): Resource -> bool {
    (r: Resource) => h == r.hash
  }

  /** `Path(t['path']).with_suffix('.json')` for each target t, all with the same record. */
  function Sidecars(targets: seq<Resource>, data: InfoData): (ws: seq<InfoWrite>)
    ensures |ws| == |targets|
    ensures forall i :: 0 <= i < |targets| ==> ws[i] == InfoWrite(WithSuffix(targets[i].path, ".json"), data)
  {
    seq(|targets|, i requires 0 <= i < |targets| => InfoWrite(WithSuffix(targets[i].path, ".json"), data))
  }

  /** What one file of a version writes: nothing when it is skipped, otherwise a sidecar for every
      missing-info resource carrying its hash. */
  function FileWrites(missing: seq<Resource>, hashes: seq<string>, v: Version, f: FileInfo): seq<InfoWrite> {
    if !Requested(f, hashes) then []
    else
      var sha := FileSha(f).value;
      Sidecars(Filter(missing, HasHash(LowerStr(sha))), InfoOf(v, sha))
  }

  function VersionWrites(missing: seq<Resource>, hashes: seq<string>, v: Version, files: seq<FileInfo>): seq<InfoWrite> {
    if files == [] then []
    else VersionWrites(missing, hashes, v, files[..|files| - 1]) + FileWrites(missing, hashes, v, files[|files| - 1])
  }

  /** Everything `load_info` writes for the catalog's answer, in loop order. */
  function InfoWrites(missing: seq<Resource>, hashes: seq<string>, results: seq<Version>): seq<InfoWrite> {
    if results == [] then []
    else
      var v := results[|results| - 1];
      InfoWrites(missing, hashes, results[..|results| - 1]) + VersionWrites(missing, hashes, v, v.files)
  }

  /** w is the sidecar of missing resource t for file f of version v. */
  predicate WriteFor(missing: seq<Resource>, hashes: seq<string>, v: Version, f: FileInfo, t: Resource, w: InfoWrite) {
    && t in missing && Requested(f, hashes) && t.hash == LowerStr(FileSha(f).value)
    && w == InfoWrite(WithSuffix(t.path, ".json"), InfoOf(v, FileSha(f).value))
  }

  lemma FileWritesMeans(missing: seq<Resource>, hashes: seq<string>, v: Version, f: FileInfo)
    ensures forall w :: w in FileWrites(missing, hashes, v, f) <==> exists t :: WriteFor(missing, hashes, v, f, t, w)
  {
    if Requested(f, hashes) {
      var sha := FileSha(f).value;
      var targets := Filter(missing, HasHash(LowerStr(sha)));
      FilterMembers(missing, HasHash(LowerStr(sha)));
      forall w | w in FileWrites(missing, hashes, v, f)
        ensures exists t :: WriteFor(missing, hashes, v, f, t, w)
      {
        var i :| 0 <= i < |targets| && Sidecars(targets, InfoOf(v, sha))[i] == w;
        assert targets[i] in targets;
        assert WriteFor(missing, hashes, v, f, targets[i], w);
      }
      forall w, t | WriteFor(missing, hashes, v, f, t, w)
        ensures w in FileWrites(missing, hashes, v, f)
      {
        var i :| 0 <= i < |targets| && targets[i] == t;
        assert Sidecars(targets, InfoOf(v, sha))[i] == w;
      }
    }
  }

  lemma {:induction false} VersionWritesMeans(missing: seq<Resource>, hashes: seq<string>, v: Version, files: seq<FileInfo>)
    ensures forall w :: w in VersionWrites(missing, hashes, v, files) <==>
                        exists f, t :: f in files && WriteFor(missing, hashes, v, f, t, w)
  {
    if files != [] {
      var init := files[..|files| - 1];
      var f := files[|files| - 1];
      VersionWritesMeans(missing, hashes, v, init);
      FileWritesMeans(missing, hashes, v, f);
      assert files == init + [f];
      assert forall g :: g in files <==> g in init || g == f;
    }
  }

  /** Soundness and completeness of the sidecar plan: a write happens exactly for a file of a
      returned version that has a SHA256 among the requested hashes, and a missing-info resource
      carrying that hash; it goes to the resource's path with suffix `.json` and holds the record
      built from that version and file. */
  lemma {:induction false} InfoWritesMeans(missing: seq<Resource>, hashes: seq<string>, results: seq<Version>)
    ensures forall w :: w in InfoWrites(missing, hashes, results) <==>
                        exists v, f, t :: v in results && f in v.files && WriteFor(missing, hashes, v, f, t, w)
  {
    if results != [] {
      var init := results[..|results| - 1];
      var v := results[|results| - 1];
      InfoWritesMeans(missing, hashes, init);
      VersionWritesMeans(missing, hashes, v, v.files);
      assert results == init + [v];
      assert forall x :: x in results <==> x in init || x == v;
    }
  }

  /** Every sidecar names a missing-info resource and records its hash (upper-cased). */
  lemma SidecarsIdentifyResource(missing: seq<Resource>, hashes: seq<string>, results: seq<Version>)
    ensures forall w :: w in InfoWrites(missing, hashes, results) ==>
                        exists t :: t in missing && w.path == WithSuffix(t.path, ".json") && LowerStr(w.data.sha256) == t.hash
  {
    InfoWritesMeans(missing, hashes, results);
    forall w | w in InfoWrites(missing, hashes, results)
      ensures exists t :: t in missing && w.path == WithSuffix(t.path, ".json") && LowerStr(w.data.sha256) == t.hash
    {
      var v, f, t :| v in results && f in v.files && WriteFor(missing, hashes, v, f, t, w);
      assert LowerStr(w.data.sha256) == LowerStr(FileSha(f).value);
    }
  }

  /** `for r in v`: one sidecar per matching resource. */
  method WriteSidecars(targets: seq<Resource>, data: InfoData) returns (writes: seq<InfoWrite>)
    ensures writes == Sidecars(targets, data)
  {
    writes := [];
    var j := 0;
    while j < |targets|
      invariant 0 <= j <= |targets|
      invariant writes == Sidecars(targets[..j], data)
    {
      assert Sidecars(targets[..j + 1], data) == Sidecars(targets[..j], data) + [InfoWrite(WithSuffix(targets[j].path, ".json"), data)];
      writes := writes + [InfoWrite(WithSuffix(targets[j].path, ".json"), data)];
      j := j + 1;
    }
    assert targets[..j] == targets;
  }

  /** The loop over one version's files. */
  method VersionInfo(missing: seq<Resource>, hashes: seq<string>, r: Version) returns (writes: seq<InfoWrite>)
    ensures writes == VersionWrites(missing, hashes, r, r.files)
  {
    writes := [];
    var k := 0;
    while k < |r.files|
      invariant 0 <= k <= |r.files|
      invariant writes == VersionWrites(missing, hashes, r, r.files[..k])
    {
      var f := r.files[k];
      assert r.files[..k + 1][..k] == r.files[..k];
      var sha := FileSha(f);
      if sha.Some? && LowerStr(sha.value) in hashes {
        var data := InfoOf(r, sha.value);
        var v := Filter(missing, HasHash(LowerStr(sha.value)));
        if v != [] {
          var ws := WriteSidecars(v, data);
          writes := writes + ws;
        }
      }
      k := k + 1;
    }
    assert r.files[..k] == r.files;
  }

  /** The write loop of `load_info`, with `N` counting the writes. */
  method PlanInfo(missing: seq<Resource>, hashes: seq<string>, results: seq<Version>)
    returns (writes: seq<InfoWrite>, n: nat)
    ensures writes == InfoWrites(missing, hashes, results)
    ensures n == |writes|
  {
    writes := [];
    n := 0;
    var i := 0;
    while i < |results|
      invariant 0 <= i <= |results|
      invariant writes == InfoWrites(missing, hashes, results[..i]) && n == |writes|
    {
      assert results[..i + 1][..i] == results[..i];
      var ws := VersionInfo(missing, hashes, results[i]);
      writes := writes + ws;
      n := n + |ws|;
      i := i + 1;
    }
    assert results[..i] == results;
  }

  // ---------------------------------------------------------------------------------------------
  // The loop as written: `for r in v` rebinds the version variable

  /** What the name `r` holds while a version's files are walked: the version itself, or, after a
      file matched, the last missing resource it matched. */
  datatype Bound = AVersion(v: Version) | AResource(res: Resource)

  /** Building the record from whatever `r` holds: a resource record has no `trainedWords` or
      `baseModel` (so `.get` gives the defaults) and no `modelId` (so indexing raises KeyError). */
  function InfoOfBound(b: Bound, sha256: string): Result<InfoData, Error> {
    match b
    case AVersion(v) => Success(InfoOf(v, sha256))
    case AResource(_) => Failure(MissingKey("modelId"))
  }

  datatype Progress = Progress(bound: Bound, writes: seq<InfoWrite>, error: Option<Error>)

  function FileStepAsWritten(missing: seq<Resource>, hashes: seq<string>, p: Progress, f: FileInfo): Progress {
    if p.error.Some? || !Requested(f, hashes) then p
    else
      var sha := FileSha(f).value;
      match InfoOfBound(p.bound, sha)
      case Failure(e) => Progress(p.bound, p.writes, Some(e))
      case Success(data) =>
        var v := Filter(missing, HasHash(LowerStr(sha)));
        if v == [] then p
        else Progress(AResource(v[|v| - 1]), p.writes + Sidecars(v, data), None)
  }

  function FilesAsWritten(missing: seq<Resource>, hashes: seq<string>, p: Progress, files: seq<FileInfo>): Progress {
    if files == [] then p
    else FileStepAsWritten(missing, hashes, FilesAsWritten(missing, hashes, p, files[..|files| - 1]), files[|files| - 1])
  }

  /** `load_info`'s loop as written: each version starts with `r` bound to it; the writes made before
      an exception stay made. */
  function InfoAsWritten(missing: seq<Resource>, hashes: seq<string>, results: seq<Version>): (seq<InfoWrite>, Option<Error>) {
    if results == [] then ([], None)
    else
      var (ws, err) := InfoAsWritten(missing, hashes, results[..|results| - 1]);
      if err.Some? then (ws, err)
      else
        var v := results[|results| - 1];
        var p := FilesAsWritten(missing, hashes, Progress(AVersion(v), ws, None), v.files);
        (p.writes, p.error)
  }

  lemma FilterPair(t1: Resource, t2: Resource, h: string)
    ensures Filter([t1, t2], HasHash(h)) == (if h == t1.hash then [t1] else []) + (if h == t2.hash then [t2] else [])
  {
    assert [t1, t2][1..] == [t2];
    assert [t2][1..] == [];
  }

  /** As written: a version with two files carrying the hashes of two different missing resources
      writes the first sidecar, then reads `modelId` from the resource record `r` was rebound to,
      and the job dies with KeyError. */
  lemma RebindingAborts(t1: Resource, t2: Resource, s1: string, s2: string, v: Version)
    requires t1.hash == LowerStr(s1) && t2.hash == LowerStr(s2) && t1.hash != t2.hash
    requires |v.files| == 2 && FileSha(v.files[0]) == Some(s1) && FileSha(v.files[1]) == Some(s2)
    ensures InfoAsWritten([t1, t2], [t1.hash, t2.hash], [v]) ==
              (Sidecars([t1], InfoOf(v, s1)), Some(MissingKey("modelId")))
  {
    var missing := [t1, t2];
    var hashes := [t1.hash, t2.hash];
    var p0 := Progress(AVersion(v), [], None);
    var p1 := Progress(AResource(t1), Sidecars([t1], InfoOf(v, s1)), None);
    RebindFirst(t1, t2, s1, v, v.files[0]);
    assert v.files[..1][..0] == [];
    assert FilesAsWritten(missing, hashes, p0, v.files[..1]) == p1;
    assert v.files[..2][..1] == v.files[..1] && v.files[..2] == v.files;
    RebindSecond(missing, hashes, p1, v.files[1]);
    assert FilesAsWritten(missing, hashes, p0, v.files) == Progress(p1.bound, p1.writes, Some(MissingKey("modelId")));
    assert [v][..0] == [];
  }

  /** The first file: its sidecar is written and `r` is rebound to the resource record. */
  lemma RebindFirst(t1: Resource, t2: Resource, s1: string, v: Version, f: FileInfo)
    requires t1.hash == LowerStr(s1) && t1.hash != t2.hash && FileSha(f) == Some(s1)
    ensures FileStepAsWritten([t1, t2], [t1.hash, t2.hash], Progress(AVersion(v), [], None), f) ==
              Progress(AResource(t1), Sidecars([t1], InfoOf(v, s1)), None)
  {
    FilterPair(t1, t2, t1.hash);
    assert [t1] + [] == [t1];
  }

  /** A requested file met while `r` holds a resource record raises KeyError and writes nothing. */
  lemma RebindSecond(missing: seq<Resource>, hashes: seq<string>, p: Progress, f: FileInfo)
    requires p.bound.AResource? && p.error.None? && Requested(f, hashes)
    ensures FileStepAsWritten(missing, hashes, p, f) == Progress(p.bound, p.writes, Some(MissingKey("modelId")))
  {
  }

  lemma OneVersion(missing: seq<Resource>, hashes: seq<string>, v: Version)
    ensures InfoWrites(missing, hashes, [v]) == VersionWrites(missing, hashes, v, v.files)
  {
    assert [v][..0] == [];
    assert InfoWrites(missing, hashes, [v]) == [] + VersionWrites(missing, hashes, v, v.files);
  }

  lemma TwoFiles(missing: seq<Resource>, hashes: seq<string>, v: Version, files: seq<FileInfo>)
    requires |files| == 2
    ensures VersionWrites(missing, hashes, v, files) ==
              FileWrites(missing, hashes, v, files[0]) + FileWrites(missing, hashes, v, files[1])
  {
    var w0 := FileWrites(missing, hashes, v, files[0]);
    assert files[..1][..0] == [];
    assert VersionWrites(missing, hashes, v, files[..1]) == [] + w0;
    assert [] + w0 == w0;
    assert files[..2][..1] == files[..1] && files[..2] == files;
  }

  lemma OneFile(t1: Resource, t2: Resource, s: string, v: Version, f: FileInfo, t: Resource)
    requires t1.hash != t2.hash && (t == t1 || t == t2) && t.hash == LowerStr(s) && FileSha(f) == Some(s)
    ensures FileWrites([t1, t2], [t1.hash, t2.hash], v, f) == Sidecars([t], InfoOf(v, s))
  {
    FilterPair(t1, t2, t.hash);
    assert [t1] + [] == [t1] && [] + [t2] == [t2];
  }

  /** Intended: the same version writes both sidecars, each with the version's record. */
  lemma BothSidecarsWritten(t1: Resource, t2: Resource, s1: string, s2: string, v: Version)
    requires t1.hash == LowerStr(s1) && t2.hash == LowerStr(s2) && t1.hash != t2.hash
    requires |v.files| == 2 && FileSha(v.files[0]) == Some(s1) && FileSha(v.files[1]) == Some(s2)
    ensures InfoWrites([t1, t2], [t1.hash, t2.hash], [v]) ==
              Sidecars([t1], InfoOf(v, s1)) + Sidecars([t2], InfoOf(v, s2))
  {
    OneVersion([t1, t2], [t1.hash, t2.hash], v);
    TwoFiles([t1, t2], [t1.hash, t2.hash], v, v.files);
    OneFile(t1, t2, s1, v, v.files[0], t1);
    OneFile(t1, t2, s2, v, v.files[1], t2);
  }

  /** No file of `files` that writes a sidecar is followed by another requested file, so the
      rebinding of `r` is never seen. */
  predicate RebindUnseen(missing: seq<Resource>, hashes: seq<string>, v: Version, files: seq<FileInfo>) {
    forall i, j :: 0 <= i < j < |files| && FileWrites(missing, hashes, v, files[i]) != [] ==> !Requested(files[j], hashes)
  }

  /** Files none of which writes anything write nothing together. */
  lemma {:induction false} VersionWritesNone(missing: seq<Resource>, hashes: seq<string>, v: Version, files: seq<FileInfo>)
    requires forall i :: 0 <= i < |files| ==> FileWrites(missing, hashes, v, files[i]) == []
    ensures VersionWrites(missing, hashes, v, files) == []
  {
    if files != [] {
      VersionWritesNone(missing, hashes, v, files[..|files| - 1]);
    }
  }

  /** The loop as written over one version's files agrees with the corrected one while the rebinding
      is unseen: no exception, the same writes, and `r` still bound to the version if nothing was
      written. */
  lemma {:induction false} FilesAgree(missing: seq<Resource>, hashes: seq<string>, v: Version, ws: seq<InfoWrite>, files: seq<FileInfo>)
    requires RebindUnseen(missing, hashes, v, files)
    ensures var p := FilesAsWritten(missing, hashes, Progress(AVersion(v), ws, None), files);
      && p.error == None && p.writes == ws + VersionWrites(missing, hashes, v, files)
      && (VersionWrites(missing, hashes, v, files) == [] ==> p.bound == AVersion(v))
  {
    if files != [] {
      var init := files[..|files| - 1];
      var f := files[|files| - 1];
      assert RebindUnseen(missing, hashes, v, init);
      FilesAgree(missing, hashes, v, ws, init);
      var q := FilesAsWritten(missing, hashes, Progress(AVersion(v), ws, None), init);
      if Requested(f, hashes) {
        forall i | 0 <= i < |init|
          ensures FileWrites(missing, hashes, v, init[i]) == []
        {
          assert init[i] == files[i];
        }
        VersionWritesNone(missing, hashes, v, init);
      }
      StepAgrees(missing, hashes, v, q, f);
      var p := FilesAsWritten(missing, hashes, Progress(AVersion(v), ws, None), files);
      assert p == FileStepAsWritten(missing, hashes, q, f);
      var before := VersionWrites(missing, hashes, v, init);
      var step := FileWrites(missing, hashes, v, f);
      assert VersionWrites(missing, hashes, v, files) == before + step;
      AppendAssoc(ws, before, step);
    }
  }

  /** One file, walked while `r` is bound to the version (or while the file is skipped anyway),
      writes what the corrected loop writes for it. */
  lemma StepAgrees(missing: seq<Resource>, hashes: seq<string>, v: Version, q: Progress, f: FileInfo)
    requires q.error == None && (q.bound == AVersion(v) || !Requested(f, hashes))
    ensures var p := FileStepAsWritten(missing, hashes, q, f);
      && p.error == None && p.writes == q.writes + FileWrites(missing, hashes, v, f)
      && (FileWrites(missing, hashes, v, f) == [] ==> p.bound == q.bound)
  {
    if Requested(f, hashes) {
      var sha := FileSha(f).value;
      assert InfoOfBound(q.bound, sha) == Success(InfoOf(v, sha));
    }
  }

  /** Where no version shows the rebinding, `load_info` as written raises nothing and writes exactly
      what the corrected loop writes. */
  lemma {:induction false} AsWrittenAgrees(missing: seq<Resource>, hashes: seq<string>, results: seq<Version>)
    requires forall n :: 0 <= n < |results| ==> RebindUnseen(missing, hashes, results[n], results[n].files)
    ensures InfoAsWritten(missing, hashes, results) == (InfoWrites(missing, hashes, results), None)
  {
    if results != [] {
      var init := results[..|results| - 1];
      var v := results[|results| - 1];
      AsWrittenAgrees(missing, hashes, init);
      FilesAgree(missing, hashes, v, InfoWrites(missing, hashes, init), v.files);
    }
  }

  // ---------------------------------------------------------------------------------------------
  // Previews

  /** A still image: its lower-cased URL ends in neither `.mp4` nor `.gif`. */
  predicate IsStill(img: ImageInfo) {
    !EndsWith(LowerStr(img.url), ".mp4") && !EndsWith(LowerStr(img.url), ".gif")
  }

  /** The preview of a version: its first still image, if it has images and one is still. */
  function PreviewImage(images: Option<seq<ImageInfo>>): (r: Option<ImageInfo>)
    ensures var imgs := if images.Some? then images.value else [];
      && (r.Some? <==> exists i :: 0 <= i < |imgs| && IsStill(imgs[i]))
      && (r.Some? ==> exists i :: 0 <= i < |imgs| && imgs[i] == r.value && IsStill(imgs[i]) &&
                        forall j :: 0 <= j < i ==> !IsStill(imgs[j]))
  {
    First(if images.Some? then images.value else [], IsStill)
  }

  /** One `update_resource_preview(sha256, url)` call, with the destinations it downloads to. */
  datatype PreviewJob = PreviewJob(hash: string, url: string, dests: seq<string>)

  function FilePreview(rs: seq<Resource>, hashes: seq<string>, v: Version, f: FileInfo): seq<PreviewJob> {
    if !Requested(f, hashes) || PreviewImage(v.images).None? then []
    else
      var sha := FileSha(f).value;
      [PreviewJob(sha, PreviewImage(v.images).value.url, PreviewTargets(rs, sha))]
  }

  function VersionPreviews(rs: seq<Resource>, hashes: seq<string>, v: Version, files: seq<FileInfo>): seq<PreviewJob> {
    if files == [] then []
    else VersionPreviews(rs, hashes, v, files[..|files| - 1]) + FilePreview(rs, hashes, v, files[|files| - 1])
  }

  /** Every preview `load_preview` dispatches, in loop order. */
  function PreviewJobs(rs: seq<Resource>, hashes: seq<string>, results: seq<Version>): seq<PreviewJob> {
    if results == [] then []
    else
      var v := results[|results| - 1];
      PreviewJobs(rs, hashes, results[..|results| - 1]) + VersionPreviews(rs, hashes, v, v.files)
  }

  /** j is the preview dispatched for file f of version v. */
  predicate JobFor(rs: seq<Resource>, hashes: seq<string>, v: Version, f: FileInfo, j: PreviewJob) {
    && Requested(f, hashes) && PreviewImage(v.images).Some?
    && j == PreviewJob(FileSha(f).value, PreviewImage(v.images).value.url, PreviewTargets(rs, FileSha(f).value))
  }

  lemma {:induction false} VersionPreviewsMeans(rs: seq<Resource>, hashes: seq<string>, v: Version, files: seq<FileInfo>)
    ensures forall j :: j in VersionPreviews(rs, hashes, v, files) <==> exists f :: f in files && JobFor(rs, hashes, v, f, j)
  {
    if files != [] {
      var init := files[..|files| - 1];
      var f := files[|files| - 1];
      VersionPreviewsMeans(rs, hashes, v, init);
      assert forall j :: j in FilePreview(rs, hashes, v, f) <==> JobFor(rs, hashes, v, f, j);
      assert files == init + [f];
      assert forall g :: g in files <==> g in init || g == f;
    }
  }

  /** A preview is dispatched exactly for a file of a returned version whose SHA256 is among the
      requested hashes, when the version has a still image; it carries that image's URL and the
      `.preview.png` destinations of the resources with that hash. */
  lemma {:induction false} PreviewJobsMeans(rs: seq<Resource>, hashes: seq<string>, results: seq<Version>)
    ensures forall j :: j in PreviewJobs(rs, hashes, results) <==>
                        exists v, f :: v in results && f in v.files && JobFor(rs, hashes, v, f, j)
  {
    if results != [] {
      var init := results[..|results| - 1];
      var v := results[|results| - 1];
      PreviewJobsMeans(rs, hashes, init);
      VersionPreviewsMeans(rs, hashes, v, v.files);
      assert results == init + [v];
      assert forall x :: x in results <==> x in init || x == v;
    }
  }

  /** The loop over one version's files: a dispatch for each requested file when the version has
      a still image. */
  method VersionPreview(rs: seq<Resource>, hashes: seq<string>, r: Version) returns (jobs: seq<PreviewJob>)
    ensures jobs == VersionPreviews(rs, hashes, r, r.files)
  {
    jobs := [];
    var k := 0;
    while k < |r.files|
      invariant 0 <= k <= |r.files|
      invariant jobs == VersionPreviews(rs, hashes, r, r.files[..k])
    {
      var f := r.files[k];
      assert r.files[..k + 1][..k] == r.files[..k];
      var sha := FileSha(f);
      var img := if r.images.Some? then r.images.value else [];
      if sha.Some? && LowerStr(sha.value) in hashes && img != [] {
        var preview := First(img, IsStill);
        if preview.Some? {
          var dests := UpdateResourcePreview(rs, sha.value);
          jobs := jobs + [PreviewJob(sha.value, preview.value.url, dests)];
        }
      }
      k := k + 1;
    }
    assert r.files[..k] == r.files;
  }

  /** The dispatch loop of `load_preview`, with `N` counting the dispatches. */
  method PlanPreview(rs: seq<Resource>, hashes: seq<string>, results: seq<Version>)
    returns (jobs: seq<PreviewJob>, n: nat)
    ensures jobs == PreviewJobs(rs, hashes, results)
    ensures n == |jobs|
  {
    jobs := [];
    n := 0;
    var i := 0;
    while i < |results|
      invariant 0 <= i <= |results|
      invariant jobs == PreviewJobs(rs, hashes, results[..i]) && n == |jobs|
    {
      assert results[..i + 1][..i] == results[..i];
      var js := VersionPreview(rs, hashes, results[i]);
      jobs := jobs + js;
      n := n + |js|;
      i := i + 1;
    }
    assert results[..i] == results;
  }

  // ---------------------------------------------------------------------------------------------
  // The jobs

  /** `load_info`: rebuild the whole inventory, look the hashes of the synced resources that lack an
      info file up (through the cache) and write their sidecars; `n` is the count it logs. */
  method LoadInfo(inv: Inventory, opts: CmdOpts, env: Env, d: Dirs, cache: ApiCache, api: Api)
    returns (r: Result<seq<InfoWrite>, Error>, n: nat)
    modifies inv, opts, cache
    ensures var m := Reload(env, d, AllTypes, old(inv.resources));
      var missing := Filter(m.resources, LacksInfo);
      var hashes := HashesOf(missing);
      var out := Lookup(api, hashes, old(cache.entries));
      && inv.resources == m.resources
      && (m.error.Some? ==> r == Failure(m.error.value) && cache.entries == old(cache.entries))
      && (m.error.None? && out.Failure? ==> r == Failure(out.error) && cache.entries == old(cache.entries))
      && (m.error.None? && out.Success? ==>
            && cache.entries == out.value.cache
            && r == Success(InfoWrites(missing, hashes, out.value.results)))
    ensures r.Success? ==> n == |r.value|
  {
    n := 0;
    var listed := LoadResourceList(inv, opts, env, d, None);
    if listed.Failure? {
      return Failure(listed.error), 0;
    }
    var missing := Filter(listed.value, LacksInfo);
    var hashes := HashesOf(missing);
    var results := cache.GetAllByHashWithCache(api, hashes);
    if results.Failure? {
      return Failure(results.error), 0;
    }
    if results.value == [] {
      return Success([]), 0;
    }
    var writes;
    writes, n := PlanInfo(missing, hashes, results.value);
    return Success(writes), n;
  }

  /** `load_preview`: the same lookup for the synced resources that lack a preview, dispatching a
      download of each matched version's first still image; `n` is the count it logs. */
  method LoadPreview(inv: Inventory, opts: CmdOpts, env: Env, d: Dirs, cache: ApiCache, api: Api)
    returns (r: Result<seq<PreviewJob>, Error>, n: nat)
    modifies inv, opts, cache
    ensures var m := Reload(env, d, AllTypes, old(inv.resources));
      var hashes := HashesOf(Filter(m.resources, LacksPreview));
      var out := Lookup(api, hashes, old(cache.entries));
      && inv.resources == m.resources
      && (m.error.Some? ==> r == Failure(m.error.value) && cache.entries == old(cache.entries))
      && (m.error.None? && out.Failure? ==> r == Failure(out.error) && cache.entries == old(cache.entries))
      && (m.error.None? && out.Success? ==>
            && cache.entries == out.value.cache
            && r == Success(PreviewJobs(m.resources, hashes, out.value.results)))
    ensures r.Success? ==> n == |r.value|
  {
    n := 0;
    var listed := LoadResourceList(inv, opts, env, d, None);
    if listed.Failure? {
      return Failure(listed.error), 0;
    }
    var hashes := HashesOf(Filter(listed.value, LacksPreview));
    var results := cache.GetAllByHashWithCache(api, hashes);
    if results.Failure? {
      return Failure(results.error), 0;
    }
    if results.value == [] {
      return Success([]), 0;
    }
    var jobs;
    jobs, n := PlanPreview(inv.resources, hashes, results.value);
    return Success(jobs), n;
  }
}

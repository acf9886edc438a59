/** The local resource inventory of civitai/lib.py: how files under the host's model folders become
    resource records (type, name, hash, path, preview and info flags), how the inventory is rebuilt
    per type, and the lookups by hash over it. The file system and the host's hasher are an oracle. */
module Resources {
  import opened Wrappers
  import opened Seqs
  import opened Text
  import opened Catalog

  /** The resource types the inventory knows. */
  datatype ResourceType = LORA | LoCon | Hypernetwork | TextualInversion | Checkpoint | VAE | Controlnet | Upscaler
  {
    /** The type tag stored in a resource record. */
    function Name(): string {
      match this
      case LORA => "LORA"
      case LoCon => "LoCon"
      case Hypernetwork => "Hypernetwork"
      case TextualInversion => "TextualInversion"
      case Checkpoint => "Checkpoint"
      case VAE => "VAE"
      case Controlnet => "Controlnet"
      case Upscaler => "Upscaler"
    }
  }

  /** One inventory record. `downloading` is set by the download manager; the scanner writes false. */
  datatype Resource = Resource(
    kind: ResourceType,
    name: string,
    hash: string,
    path: string,
    hasPreview: bool,
    hasInfo: bool,
    downloading: bool)

  /** What the model reads of the host: the recursive glob of `folder/**/*.ext`, directory and file
      tests, existence, path absolutisation, the allowed preview extensions, and the host's cached
      SHA-256 of a file under a cache title, which skips hashing when its no-hashing flag is set. */
  datatype Env = Env(
    glob: (string, string) -> seq<string>,
    isDir: string -> bool,
    isFile: string -> bool,
    pathExists: string -> bool,
    absPath: string -> string,
    previewExts: seq<string>,
    sha256: (string, string, bool) -> Result<string, Error>)

  // ---------------------------------------------------------------- names

  /** `get_automatic_type`: the prefix the host uses for a type in its hash-cache titles. */
  function AutomaticType(fileType: string): string {
    if fileType == "Hypernetwork" then "hypernet" else LowerStr(fileType)
  }

  /** The cache-title prefix of each type. */
  lemma AutomaticTypeTable()
    ensures AutomaticType(LORA.Name()) == "lora"
    ensures AutomaticType(LoCon.Name()) == "locon"
    ensures AutomaticType(Hypernetwork.Name()) == "hypernet"
    ensures AutomaticType(TextualInversion.Name()) == "textualinversion"
    ensures AutomaticType(Checkpoint.Name()) == "checkpoint"
    ensures AutomaticType(VAE.Name()) == "vae"
    ensures AutomaticType(Controlnet.Name()) == "controlnet"
    ensures AutomaticType(Upscaler.Name()) == "upscaler"
  {
    assert LowerStr("LORA") == "lora";
    assert LowerStr("LoCon") == "locon";
    assert LowerStr("TextualInversion") == "textualinversion";
    assert LowerStr("Checkpoint") == "checkpoint";
    assert LowerStr("VAE") == "vae";
    assert LowerStr("Controlnet") == "controlnet";
    assert LowerStr("Upscaler") == "upscaler";
  }

  /** Every type gets its own cache-title prefix. */
  lemma AutomaticTypeDistinct(a: ResourceType, b: ResourceType)
    requires a != b
    ensures AutomaticType(a.Name()) != AutomaticType(b.Name())
  {
    AutomaticTypeTable();
  }

  /** `get_automatic_name`: the name under which the host caches the hash. When the absolute path
      starts with the folder, every occurrence of the folder is removed from it (`str.replace`);
      otherwise the base name of the path is used. One leading separator is dropped, and all types
      but checkpoints lose their extension. */
  function AutomaticName(kind: ResourceType, filename: string, abspath: string, folder: string): string {
    var full := if StartsWith(abspath, folder) then RemoveAll(abspath, folder) else Basename(filename);
    var rel := if StartsWith(full, "\\") || StartsWith(full, "/") then full[1..] else full;
    if kind == Checkpoint then rel else Stem(rel)
  }

  /** A file at `folder/rel`, where the folder does not occur again, is named by its path relative to
      the folder: with its extension for a checkpoint, without it otherwise. */
  lemma AutomaticNameRelative(kind: ResourceType, filename: string, folder: string, rel: string)
    requires folder != ""
    requires !IsSubstring(folder, "/" + rel)
    ensures AutomaticName(kind, filename, folder + "/" + rel, folder) == if kind == Checkpoint then rel else Stem(rel)
  {
    var abs := folder + "/" + rel;
    assert abs[..|folder|] == folder;
    assert abs[|folder|..] == "/" + rel;
    RemoveAllAbsent("/" + rel, folder);
    assert RemoveAll(abs, folder) == "/" + rel;
    assert ("/" + rel)[1..] == rel;
  }

  // ---------------------------------------------------------------- sidecar files

  /** `has_info`: a `.json` file sits next to the model. */
  predicate HasInfo(env: Env, filename: string) {
    env.isFile(Stem(filename) + ".json")
  }

  /** `has_preview`: for some allowed preview extension `e`, `<stem>.e` or `<stem>.preview.e` exists. */
  predicate HasPreview(env: Env, filename: string) {
    exists e :: e in env.previewExts &&
      (env.pathExists(Stem(filename) + "." + e) || env.pathExists(Stem(filename) + ".preview." + e))
  }

  /** The extension list `has_preview` walks: the allowed extensions, then each with "preview." in front. */
  function PreviewExtensions(exts: seq<string>): (r: seq<string>)
    ensures |r| == 2 * |exts|
    ensures forall i :: 0 <= i < |exts| ==> r[i] == exts[i] && r[|exts| + i] == "preview." + exts[i]
  {
    exts + seq(|exts|, i requires 0 <= i < |exts| => "preview." + exts[i])
  }

  /** `has_preview` as the host runs it: a loop over the candidate extensions that stops at the first
      existing file. */
  method HasPreviewScan(env: Env, filename: string) returns (b: bool)
    ensures b == HasPreview(env, filename)
  {
    var exts := PreviewExtensions(env.previewExts);
    var stem := Stem(filename);
    var n := |env.previewExts|;
    var i := 0;
    while i < |exts|
      invariant 0 <= i <= |exts|
      invariant forall j :: 0 <= j < i && j < n ==> !env.pathExists(stem + "." + env.previewExts[j])
      invariant forall j :: 0 <= j < i - n ==> !env.pathExists(stem + ".preview." + env.previewExts[j])
    {
      if env.pathExists(stem + "." + exts[i]) {
        if i < n {
          assert exts[i] == env.previewExts[i];
          assert env.previewExts[i] in env.previewExts;
        } else {
          assert exts[i] == "preview." + env.previewExts[i - n];
          assert stem + "." + exts[i] == stem + ".preview." + env.previewExts[i - n];
          assert env.previewExts[i - n] in env.previewExts;
        }
        return true;
      }
      if n <= i {
        assert stem + "." + exts[i] == stem + ".preview." + env.previewExts[i - n];
      }
      i := i + 1;
    }
    forall e | e in env.previewExts
      ensures !env.pathExists(stem + "." + e) && !env.pathExists(stem + ".preview." + e)
    {
      var j :| 0 <= j < n && env.previewExts[j] == e;
    }
    return false;
  }

  // ---------------------------------------------------------------- scanning one folder

  /** The candidate list before exclusion: the globs for each extension, concatenated in order. */
  function Globbed(env: Env, folder: string, exts: seq<string>): seq<string> {
    if exts == [] then [] else Globbed(env, folder, exts[..|exts| - 1]) + env.glob(folder, exts[|exts| - 1])
  }

  /** The filter `[x for x in candidates if not x.endswith(e)]`. */
  function Keeps(e: string): string -> bool {
    x => !EndsWith(x, e)
  }

  /** The candidates after dropping those ending in each excluded suffix, one suffix at a time. */
  function ExcludeAll(c: seq<string>, excl: seq<string>): seq<string> {
    if excl == [] then c else Filter(ExcludeAll(c, excl[..|excl| - 1]), Keeps(excl[|excl| - 1]))
  }

  lemma {:induction false} ExcludeAllSound(c: seq<string>, excl: seq<string>)
    ensures forall x :: x in ExcludeAll(c, excl) <==> x in c && forall e :: e in excl ==> !EndsWith(x, e)
  {
    if excl != [] {
      var init := excl[..|excl| - 1];
      ExcludeAllSound(c, init);
      FilterMembers(ExcludeAll(c, init), Keeps(excl[|excl| - 1]));
      assert excl == init + [excl[|excl| - 1]];
      forall x ensures x in ExcludeAll(c, excl) <==> x in c && forall e :: e in excl ==> !EndsWith(x, e) {
        if x in c && forall e :: e in excl ==> !EndsWith(x, e) {
          assert forall e :: e in init ==> e in excl;
        }
      }
    }
  }

  /** Directories matched by the glob are skipped. */
  function NotDir(isDir: string -> bool): string -> bool {
    p => !isDir(p)
  }

  /** The record for one scanned file: the name is the base name without extension, and the hash is
      the host's SHA-256 under the title `<automatic type>/<automatic name>` with hashing enabled. */
  function Entry(env: Env, kind: ResourceType, folder: string, filename: string): (r: Result<Resource, Error>)
    ensures r.Success? <==> env.sha256(filename, CacheTitle(env, kind, folder, filename), false).Success?
    ensures r.Failure? ==> env.sha256(filename, CacheTitle(env, kind, folder, filename), false) == Failure(r.error)
    ensures r.Success? ==>
      && r.value.kind == kind && r.value.path == filename && r.value.name == Stem(Basename(filename))
      && Success(r.value.hash) == env.sha256(filename, CacheTitle(env, kind, folder, filename), false)
      && r.value.hasPreview == HasPreview(env, filename) && r.value.hasInfo == HasInfo(env, filename)
      && !r.value.downloading
  {
    match env.sha256(filename, CacheTitle(env, kind, folder, filename), false)
    case Failure(e) => Failure(e)
    case Success(h) =>
      Success(Resource(kind, Stem(Basename(filename)), h, filename, HasPreview(env, filename), HasInfo(env, filename), false))
  }

  /** The title the host caches a file's hash under. */
  function CacheTitle(env: Env, kind: ResourceType, folder: string, filename: string): string {
    AutomaticType(kind.Name()) + "/" + AutomaticName(kind, filename, env.absPath(filename), folder)
  }

  function EntryOf(env: Env, kind: ResourceType, folder: string): string -> Result<Resource, Error> {
    f => Entry(env, kind, folder, f)
  }

  /** The scan loop over the sorted candidates, skipping directories and stopping at the first
      exception. */
  function ScanPaths(isDir: string -> bool, entry: string -> Result<Resource, Error>, paths: seq<string>): Result<seq<Resource>, Error> {
    if paths == [] then Success([])
    else if isDir(paths[0]) then ScanPaths(isDir, entry, paths[1..])
    else match entry(paths[0])
      case Failure(e) => Failure(e)
      case Success(r) => Prepend([r], ScanPaths(isDir, entry, paths[1..]))
  }

  /** `get_resources_in_folder` as a value: the folder's globbed candidates, minus the excluded
      suffixes, sorted, scanned against the absolute folder. */
  function ScanFolder(env: Env, kind: ResourceType, folder: string, exts: seq<string>, excl: seq<string>): Result<seq<Resource>, Error> {
    ScanPaths(env.isDir, EntryOf(env, kind, env.absPath(folder)), SortStrings(ExcludeAll(Globbed(env, folder, exts), excl)))
  }

  /** A successful scan yields one record per non-directory path, in order. */
  lemma {:induction false} ScanPathsOk(isDir: string -> bool, entry: string -> Result<Resource, Error>, paths: seq<string>)
    requires ScanPaths(isDir, entry, paths).Success?
    ensures var files := Filter(paths, NotDir(isDir));
      var rs := ScanPaths(isDir, entry, paths).value;
      && |rs| == |files|
      && forall i :: 0 <= i < |rs| ==> entry(files[i]) == Success(rs[i])
  {
    if paths != [] {
      ScanPathsOk(isDir, entry, paths[1..]);
      if !isDir(paths[0]) {
        var tail := Filter(paths[1..], NotDir(isDir));
        var rest := ScanPaths(isDir, entry, paths[1..]).value;
        var files := [paths[0]] + tail;
        assert Filter(paths, NotDir(isDir)) == files;
        var rs := ScanPaths(isDir, entry, paths).value;
        assert rs == [rs[0]] + rest;
        forall i | 0 < i < |rs| ensures entry(files[i]) == Success(rs[i]) {
          assert files[i] == tail[i - 1] && rs[i] == rest[i - 1];
        }
      }
    }
  }

  /** The test "hashing this file raises". */
  function Fails(entry: string -> Result<Resource, Error>): string -> bool {
    p => entry(p).Failure?
  }

  /** A scan raises exactly when some non-directory path fails, and then with the exception of the
      first such path. */
  lemma {:induction false} ScanPathsFailure(isDir: string -> bool, entry: string -> Result<Resource, Error>, paths: seq<string>)
    ensures var files := Filter(paths, NotDir(isDir));
      var i := FirstIndex(files, Fails(entry));
      && (ScanPaths(isDir, entry, paths).Failure? <==> i.Some?)
      && (i.Some? ==> entry(files[i.value]) == Failure(ScanPaths(isDir, entry, paths).error))
  {
    if paths != [] {
      ScanPathsFailure(isDir, entry, paths[1..]);
      var tail := Filter(paths[1..], NotDir(isDir));
      if isDir(paths[0]) {
        assert Filter(paths, NotDir(isDir)) == tail;
      } else {
        var files := [paths[0]] + tail;
        assert Filter(paths, NotDir(isDir)) == files;
        assert files[0] == paths[0] && files[1..] == tail;
      }
    }
  }

  /** Every record of a scan is a record of its entry function. */
  lemma {:induction false} ScanPathsFrom(isDir: string -> bool, entry: string -> Result<Resource, Error>, paths: seq<string>)
    requires ScanPaths(isDir, entry, paths).Success?
    ensures forall r :: r in ScanPaths(isDir, entry, paths).value ==>
              exists p :: p in paths && !isDir(p) && entry(p) == Success(r)
  {
    if paths != [] {
      ScanPathsFrom(isDir, entry, paths[1..]);
      assert forall p :: p in paths[1..] ==> p in paths;
    }
  }

  /** The paths of a scan's records, in record order. */
  function Paths(rs: seq<Resource>): (ps: seq<string>)
    ensures |ps| == |rs| && forall i :: 0 <= i < |rs| ==> ps[i] == rs[i].path
  {
    seq(|rs|, i requires 0 <= i < |rs| => rs[i].path)
  }

  /** A scan of sorted paths whose entries keep their path yields records in path order. */
  lemma ScanPathsSorted(isDir: string -> bool, entry: string -> Result<Resource, Error>, paths: seq<string>)
    requires SortedStrings(paths)
    requires forall p :: entry(p).Success? ==> entry(p).value.path == p
    requires ScanPaths(isDir, entry, paths).Success?
    ensures SortedStrings(Paths(ScanPaths(isDir, entry, paths).value))
  {
    var files := Filter(paths, NotDir(isDir));
    var rs := ScanPaths(isDir, entry, paths).value;
    ScanPathsOk(isDir, entry, paths);
    SortedFilter(paths, NotDir(isDir));
    forall i | 0 <= i < |rs| ensures Paths(rs)[i] == files[i] {
      assert entry(files[i]) == Success(rs[i]);
    }
    assert Paths(rs) == files;
  }

  /** Every record of a scan comes from a candidate that is not a directory. */
  lemma ScanPathsRecords(env: Env, kind: ResourceType, folder: string, paths: seq<string>)
    requires ScanPaths(env.isDir, EntryOf(env, kind, folder), paths).Success?
    ensures forall r :: r in ScanPaths(env.isDir, EntryOf(env, kind, folder), paths).value ==>
              r.path in paths && !env.isDir(r.path) && Entry(env, kind, folder, r.path) == Success(r)
  {
    var entry := EntryOf(env, kind, folder);
    ScanPathsFrom(env.isDir, entry, paths);
    forall r | r in ScanPaths(env.isDir, entry, paths).value
      ensures r.path in paths && !env.isDir(r.path) && Entry(env, kind, folder, r.path) == Success(r)
    {
      var p :| p in paths && !env.isDir(p) && entry(p) == Success(r);
      assert Entry(env, kind, folder, p) == Success(r);
    }
  }

  /** What a successful folder scan promises of each record: the sorted order of the paths, that each
      path was globbed, is not a directory and carries no excluded suffix, and that every field is the
      one computed for that file, with the hash taken under the file's cache title. */
  lemma ScanFolderSound(env: Env, kind: ResourceType, folder: string, exts: seq<string>, excl: seq<string>)
    requires ScanFolder(env, kind, folder, exts, excl).Success?
    ensures var rs := ScanFolder(env, kind, folder, exts, excl).value;
      && SortedStrings(Paths(rs))
      && forall r :: r in rs ==>
           && r.path in Globbed(env, folder, exts)
           && !env.isDir(r.path)
           && (forall e :: e in excl ==> !EndsWith(r.path, e))
           && r.kind == kind && r.name == Stem(Basename(r.path)) && !r.downloading
           && r.hasInfo == HasInfo(env, r.path) && r.hasPreview == HasPreview(env, r.path)
           && Success(r.hash) == env.sha256(r.path, CacheTitle(env, kind, env.absPath(folder), r.path), false)
  {
    var abs := env.absPath(folder);
    var entry := EntryOf(env, kind, abs);
    var cands := ExcludeAll(Globbed(env, folder, exts), excl);
    var sorted := SortStrings(cands);
    ScanPathsSorted(env.isDir, entry, sorted);
    ScanPathsRecords(env, kind, abs, sorted);
    ExcludeAllSound(Globbed(env, folder, exts), excl);
    forall r | r in ScanFolder(env, kind, folder, exts, excl).value ensures r.path in cands {
      assert r.path in multiset(sorted);
    }
  }

  /** Records already collected, in front of the rest of a scan. */
  function Prepend(acc: seq<Resource>, rest: Result<seq<Resource>, Error>): Result<seq<Resource>, Error> {
    match rest
    case Failure(e) => Failure(e)
    case Success(rs) => Success(acc + rs)
  }

  lemma PrependNothing(rest: Result<seq<Resource>, Error>)
    ensures Prepend([], rest) == rest
  {
    if rest.Success? {
      assert [] + rest.value == rest.value;
    }
  }

  lemma PrependTwice(a: seq<Resource>, b: seq<Resource>, rest: Result<seq<Resource>, Error>)
    ensures Prepend(a, Prepend(b, rest)) == Prepend(a + b, rest)
  {
    if rest.Success? {
      assert a + (b + rest.value) == (a + b) + rest.value;
    }
  }

  /** Command-line options of the host; only the no-hashing flag is read or written here. */
  class CmdOpts {
    var noHashing: bool

    constructor(noHashing: bool)
      ensures this.noHashing == noHashing
    {
      this.noHashing := noHashing;
    }
  }

  /** The candidate collection of `get_resources_in_folder`: the glob of every extension, then the
      filter for every excluded suffix. */
  method Candidates(env: Env, folder: string, exts: seq<string>, excl: seq<string>) returns (candidates: seq<string>)
    ensures candidates == ExcludeAll(Globbed(env, folder, exts), excl)
  {
    candidates := [];
    for i := 0 to |exts|
      invariant candidates == Globbed(env, folder, exts[..i])
    {
      assert exts[..i + 1][..i] == exts[..i];
      candidates := candidates + env.glob(folder, exts[i]);
    }
    assert exts[..|exts|] == exts;
    ghost var globbed := candidates;
    for i := 0 to |excl|
      invariant candidates == ExcludeAll(globbed, excl[..i])
    {
      assert excl[..i + 1][..i] == excl[..i];
      candidates := Filter(candidates, Keeps(excl[i]));
    }
    assert excl[..|excl|] == excl;
  }

  /** The scan loop of `get_resources_in_folder` over the sorted candidates, with hashing on. */
  method ScanSorted(opts: CmdOpts, env: Env, kind: ResourceType, absFolder: string, sorted: seq<string>)
    returns (res: Result<seq<Resource>, Error>)
    requires !opts.noHashing
    ensures res == ScanPaths(env.isDir, EntryOf(env, kind, absFolder), sorted)
  {
    ghost var entry := EntryOf(env, kind, absFolder);
    var acc: seq<Resource> := [];
    var i := 0;
    assert sorted[i..] == sorted;
    PrependNothing(ScanPaths(env.isDir, entry, sorted));
    while i < |sorted|
      invariant 0 <= i <= |sorted|
      invariant ScanPaths(env.isDir, entry, sorted) == Prepend(acc, ScanPaths(env.isDir, entry, sorted[i..]))
    {
      var filename := sorted[i];
      ScanPathsNext(env.isDir, entry, sorted, i, acc);
      if env.isDir(filename) {
        i := i + 1;
        continue;
      }
      var name := Stem(Basename(filename));
      var automaticName := AutomaticName(kind, filename, env.absPath(filename), absFolder);
      var fileHash := env.sha256(filename, AutomaticType(kind.Name()) + "/" + automaticName, opts.noHashing);
      assert entry(filename) == Entry(env, kind, absFolder, filename);
      if fileHash.Failure? {
        return Failure(fileHash.error);
      }
      var hasPreview := HasPreviewScan(env, filename);
      acc := acc + [Resource(kind, name, fileHash.value, filename, hasPreview, HasInfo(env, filename), false)];
      i := i + 1;
    }
    assert sorted[i..] == [];
    assert acc + [] == acc;
    return Success(acc);
  }

  /** `get_resources_in_folder`: collects the candidates, turns hashing on for the scan, and restores
      the caller's no-hashing setting whether or not the scan raises. */
  method GetResourcesInFolder(opts: CmdOpts, env: Env, kind: ResourceType, folder: string,
                              exts: seq<string>, excl: seq<string>) returns (res: Result<seq<Resource>, Error>)
    modifies opts
    ensures opts.noHashing == old(opts.noHashing)
    ensures res == ScanFolder(env, kind, folder, exts, excl)
  {
    var candidates := Candidates(env, folder, exts, excl);
    var absFolder := env.absPath(folder);
    var saved := opts.noHashing;
    opts.noHashing := false;
    res := ScanSorted(opts, env, kind, absFolder, SortStrings(candidates));
    opts.noHashing := saved;
  }

  /** One step of the scan loop: a directory is skipped, a failing entry ends the scan with its
      exception, and a successful one is added to the records collected so far. */
  lemma ScanPathsNext(isDir: string -> bool, entry: string -> Result<Resource, Error>, paths: seq<string>, i: nat,
                      acc: seq<Resource>)
    requires i < |paths|
    requires ScanPaths(isDir, entry, paths) == Prepend(acc, ScanPaths(isDir, entry, paths[i..]))
    ensures isDir(paths[i]) ==> ScanPaths(isDir, entry, paths) == Prepend(acc, ScanPaths(isDir, entry, paths[i + 1..]))
    ensures !isDir(paths[i]) && entry(paths[i]).Failure? ==> ScanPaths(isDir, entry, paths) == Failure(entry(paths[i]).error)
    ensures !isDir(paths[i]) && entry(paths[i]).Success? ==>
              ScanPaths(isDir, entry, paths) == Prepend(acc + [entry(paths[i]).value], ScanPaths(isDir, entry, paths[i + 1..]))
  {
    assert paths[i..][0] == paths[i] && paths[i..][1..] == paths[i + 1..];
    if !isDir(paths[i]) && entry(paths[i]).Success? {
      PrependTwice(acc, [entry(paths[i]).value], ScanPaths(isDir, entry, paths[i + 1..]));
    }
  }

  // ---------------------------------------------------------------- rebuilding the inventory

  /** The host's folder settings. `lycoDir` is None when the host has no such option; `ckptDir` is None
      when unset. */
  datatype Dirs = Dirs(
    loraDir: string,
    lycoDir: Option<string>,
    ckptDir: Option<string>,
    modelPath: string,
    hypernetworkDir: string,
    embeddingsDir: string,
    modelsPath: string,
    vaePath: string)

  /** `get_locon_dir`: the LyCORIS folder when set and non-empty, else the LoRA folder. */
  function LoconDir(d: Dirs): string {
    if d.lycoDir.Some? && d.lycoDir.value != "" then d.lycoDir.value else d.loraDir
  }

  /** `get_model_dir`: the checkpoint folder when set and non-empty, else the host's model path. */
  function ModelDir(d: Dirs): string {
    if d.ckptDir.Some? && d.ckptDir.value != "" then d.ckptDir.value else d.modelPath
  }

  /** One folder scan of a rebuild; `drop` says whether the type's old entries are removed first. */
  datatype Step = Step(kind: ResourceType, drop: bool, folder: string, exts: seq<string>, excl: seq<string>)

  /** The order in which `load_resource_list`'s blocks visit the types. */
  const Order: seq<ResourceType> := [LORA, LoCon, Hypernetwork, TextualInversion, Checkpoint, Controlnet, Upscaler, VAE]

  /** The requested types when none are given: all of them. */
  const AllTypes: seq<ResourceType> := [LORA, LoCon, Hypernetwork, TextualInversion, Checkpoint, VAE, Controlnet, Upscaler]

  /** The folder scans a rebuild of one type performs: one scan that first drops the type's entries,
      except for VAEs, whose model-folder scan for `*.vae.*` files is followed by a scan of the VAE
      folder whose results are added without a second drop. */
  function ScansOf(d: Dirs, t: ResourceType): (r: seq<Step>)
    ensures |r| >= 1 && r[0].drop
    ensures forall s :: s in r ==> s.kind == t
    ensures forall i :: 0 < i < |r| ==> !r[i].drop
    ensures |r| == 2 <==> t == VAE
    ensures |r| <= 2
  {
    match t
    case LORA => [Step(LORA, true, d.loraDir, ["pt", "safetensors", "ckpt"], [])]
    case LoCon => [Step(LoCon, true, LoconDir(d), ["pt", "safetensors", "ckpt"], [])]
    case Hypernetwork => [Step(Hypernetwork, true, d.hypernetworkDir, ["pt", "safetensors", "ckpt"], [])]
    case TextualInversion => [Step(TextualInversion, true, d.embeddingsDir, ["pt", "bin", "safetensors"], [])]
    case Checkpoint => [Step(Checkpoint, true, ModelDir(d), ["safetensors", "ckpt"], ["vae.safetensors", "vae.ckpt"])]
    case Controlnet => [Step(Controlnet, true, JoinPath(d.modelsPath, "ControlNet"), ["safetensors", "ckpt"], ["vae.safetensors", "vae.ckpt"])]
    case Upscaler => [Step(Upscaler, true, JoinPath(d.modelsPath, "ESRGAN"), ["safetensors", "ckpt", "pt"], [])]
    case VAE => [Step(VAE, true, ModelDir(d), ["vae.pt", "vae.safetensors", "vae.ckpt"], []),
                 Step(VAE, false, d.vaePath, ["pt", "safetensors", "ckpt"], [])]
  }

  /** A requested type is rescanned, except LyCORIS when it shares the LoRA folder. */
  predicate Rescanned(types: seq<ResourceType>, d: Dirs, t: ResourceType) {
    t in types && !(t == LoCon && d.loraDir == LoconDir(d))
  }

  /** The scans of one `if <type> in types` block. */
  function Block(types: seq<ResourceType>, d: Dirs, t: ResourceType): seq<Step> {
    if Rescanned(types, d, t) then ScansOf(d, t) else []
  }

  /** The scans of a rebuild, block by block in the given order. */
  function StepsOver(order: seq<ResourceType>, types: seq<ResourceType>, d: Dirs): seq<Step> {
    if order == [] then []
    else StepsOver(order[..|order| - 1], types, d) + Block(types, d, order[|order| - 1])
  }

  /** The inventory after some scans, and the exception that stopped them, if any. */
  datatype Rebuild = Rebuild(resources: seq<Resource>, error: Option<Error>)

  function ByType(rs: seq<Resource>, t: ResourceType): seq<Resource> {
    Filter(rs, (r: Resource) => r.kind == t)
  }

  function DropType(rs: seq<Resource>, t: ResourceType): seq<Resource> {
    Filter(rs, (r: Resource) => r.kind != t)
  }

  /** The folder scan of a step, on the host. */
  function StepScan(env: Env): Step -> Result<seq<Resource>, Error> {
    (s: Step) => ScanFolder(env, s.kind, s.folder, s.exts, s.excl)
  }

  /** Runs scans in order. A scan that raises leaves behind the inventory as it was just before it,
      with its type's old entries already dropped. */
  function RunSteps(scan: Step -> Result<seq<Resource>, Error>, steps: seq<Step>, rs: seq<Resource>): Rebuild {
    if steps == [] then Rebuild(rs, None)
    else
      var s := steps[0];
      var kept := if s.drop then DropType(rs, s.kind) else rs;
      match scan(s)
      case Failure(e) => Rebuild(kept, Some(e))
      case Success(found) => RunSteps(scan, steps[1..], kept + found)
  }

  /** The next block of a rebuild, unless an earlier block raised. */
  function Continue(scan: Step -> Result<seq<Resource>, Error>, m: Rebuild, types: seq<ResourceType>, d: Dirs,
                    t: ResourceType): Rebuild {
    if m.error.Some? then m else RunSteps(scan, Block(types, d, t), m.resources)
  }

  /** The first `n` blocks of `load_resource_list` chained over a block order: each block runs unless
      an earlier one raised. */
  function FoldBlocks(scan: Step -> Result<seq<Resource>, Error>, order: seq<ResourceType>, n: nat,
                      types: seq<ResourceType>, d: Dirs, m: Rebuild): Rebuild
    requires n <= |order|
  {
    if n == 0 then m
    else Continue(scan, FoldBlocks(scan, order, n - 1, types, d, m), types, d, order[n - 1])
  }

  /** `load_resource_list(types)` as a value: its `if <type> in types` blocks in source order. */
  function Reload(env: Env, d: Dirs, types: seq<ResourceType>, rs: seq<Resource>): Rebuild {
    FoldBlocks(StepScan(env), Order, |Order|, types, d, Rebuild(rs, None))
  }

  /** The concatenated results of some scans, or the first exception. */
  function Scanned(scan: Step -> Result<seq<Resource>, Error>, steps: seq<Step>): Result<seq<Resource>, Error> {
    if steps == [] then Success([])
    else
      match scan(steps[0])
      case Failure(e) => Failure(e)
      case Success(found) => Prepend(found, Scanned(scan, steps[1..]))
  }

  /** Every scan yields records of its step's type only. */
  ghost predicate KindsKept(scan: Step -> Result<seq<Resource>, Error>) {
    forall s :: scan(s).Success? ==> forall r :: r in scan(s).value ==> r.kind == s.kind
  }

  lemma {:induction false} ScanPathsKinds(isDir: string -> bool, entry: string -> Result<Resource, Error>,
                                          paths: seq<string>, kind: ResourceType)
    requires forall p :: entry(p).Success? ==> entry(p).value.kind == kind
    requires ScanPaths(isDir, entry, paths).Success?
    ensures forall r :: r in ScanPaths(isDir, entry, paths).value ==> r.kind == kind
  {
    ScanPathsFrom(isDir, entry, paths);
  }

  lemma HostScanKinds(env: Env)
    ensures KindsKept(StepScan(env))
  {
    forall s | StepScan(env)(s).Success?
      ensures forall r :: r in StepScan(env)(s).value ==> r.kind == s.kind
    {
      var entry := EntryOf(env, s.kind, env.absPath(s.folder));
      assert forall p :: entry(p) == Entry(env, s.kind, env.absPath(s.folder), p);
      ScanPathsKinds(env.isDir, entry, SortStrings(ExcludeAll(Globbed(env, s.folder, s.exts), s.excl)), s.kind);
    }
  }

  lemma {:induction false} RunStepsConcat(scan: Step -> Result<seq<Resource>, Error>, a: seq<Step>, b: seq<Step>, rs: seq<Resource>)
    ensures RunSteps(scan, a + b, rs) ==
            (var m := RunSteps(scan, a, rs); if m.error.Some? then m else RunSteps(scan, b, m.resources))
  {
    if a == [] {
      assert a + b == b;
    } else {
      assert (a + b)[0] == a[0];
      assert (a + b)[1..] == a[1..] + b;
      var s := a[0];
      var kept := if s.drop then DropType(rs, s.kind) else rs;
      if scan(s).Success? {
        RunStepsConcat(scan, a[1..], b, kept + scan(s).value);
      }
    }
  }

  lemma {:induction false} StepsOverConcat(a: seq<ResourceType>, b: seq<ResourceType>, types: seq<ResourceType>, d: Dirs)
    ensures StepsOver(a + b, types, d) == StepsOver(a, types, d) + StepsOver(b, types, d)
    decreases |b|
  {
    if b == [] {
      assert a + b == a;
    } else {
      var init := b[..|b| - 1];
      assert (a + b)[..|a + b| - 1] == a + init;
      assert (a + b)[|a + b| - 1] == b[|b| - 1];
      StepsOverConcat(a, init, types, d);
    }
  }

  lemma {:induction false} StepsOverKinds(order: seq<ResourceType>, types: seq<ResourceType>, d: Dirs)
    ensures forall s :: s in StepsOver(order, types, d) ==> s.kind in order && Rescanned(types, d, s.kind)
  {
    if order != [] {
      var init := order[..|order| - 1];
      StepsOverKinds(init, types, d);
      assert forall t :: t in init ==> t in order;
    }
  }

  lemma {:induction false} StepsOverNothing(order: seq<ResourceType>, d: Dirs)
    ensures StepsOver(order, [], d) == []
  {
    if order != [] {
      StepsOverNothing(order[..|order| - 1], d);
    }
  }

  /** Records of a single type, filtered for another type, vanish; for the same type they all stay. */
  lemma ByTypeOfKind(rs: seq<Resource>, k: ResourceType, t: ResourceType)
    requires forall r :: r in rs ==> r.kind == k
    ensures ByType(rs, t) == if k == t then rs else []
  {
    FilterAllOrNone(rs, (r: Resource) => r.kind == t);
  }

  lemma ByTypeOfDrop(rs: seq<Resource>, k: ResourceType, t: ResourceType)
    ensures ByType(DropType(rs, k), t) == if k == t then [] else ByType(rs, t)
  {
    if k == t {
      FilterMembers(rs, (r: Resource) => r.kind != k);
      FilterAllOrNone(DropType(rs, k), (r: Resource) => r.kind == t);
    } else {
      FilterFilter(rs, (r: Resource) => r.kind != k, (r: Resource) => r.kind == t, (r: Resource) => r.kind == t);
    }
  }

  /** Scans of other types leave a type's entries as they were, even when a scan raises. */
  lemma {:induction false} RunStepsPreserves(scan: Step -> Result<seq<Resource>, Error>, steps: seq<Step>, rs: seq<Resource>, t: ResourceType)
    requires KindsKept(scan)
    requires forall s :: s in steps ==> s.kind != t
    ensures ByType(RunSteps(scan, steps, rs).resources, t) == ByType(rs, t)
  {
    if steps != [] {
      var s := steps[0];
      var kept := if s.drop then DropType(rs, s.kind) else rs;
      if s.drop { ByTypeOfDrop(rs, s.kind, t); }
      if scan(s).Success? {
        ByTypeOfKind(scan(s).value, s.kind, t);
        FilterConcat(kept, scan(s).value, (r: Resource) => r.kind == t);
        assert forall x :: x in steps[1..] ==> x in steps;
        RunStepsPreserves(scan, steps[1..], kept + scan(s).value, t);
      }
    }
  }

  /** Scans that do not drop raise nothing exactly when each of them succeeds, and then append what
      they found. */
  lemma {:induction false} RunStepsNoDrop(scan: Step -> Result<seq<Resource>, Error>, steps: seq<Step>, rs: seq<Resource>)
    requires forall i :: 0 <= i < |steps| ==> !steps[i].drop
    ensures RunSteps(scan, steps, rs).error.None? <==> Scanned(scan, steps).Success?
    ensures Scanned(scan, steps).Success? ==> RunSteps(scan, steps, rs).resources == rs + Scanned(scan, steps).value
  {
    if steps == [] {
      assert rs + [] == rs;
    } else if scan(steps[0]).Success? {
      var found := scan(steps[0]).value;
      assert forall i :: 0 <= i < |steps[1..]| ==> steps[1..][i] == steps[i + 1];
      RunStepsNoDrop(scan, steps[1..], rs + found);
      if Scanned(scan, steps[1..]).Success? {
        assert rs + found + Scanned(scan, steps[1..]).value == rs + (found + Scanned(scan, steps[1..]).value);
      }
    }
  }

  /** Scans of one type find records of that type only. */
  lemma {:induction false} ScannedKinds(scan: Step -> Result<seq<Resource>, Error>, steps: seq<Step>, t: ResourceType)
    requires KindsKept(scan)
    requires forall i :: 0 <= i < |steps| ==> steps[i].kind == t
    requires Scanned(scan, steps).Success?
    ensures forall r :: r in Scanned(scan, steps).value ==> r.kind == t
  {
    if steps != [] {
      assert forall i :: 0 <= i < |steps[1..]| ==> steps[1..][i] == steps[i + 1];
      ScannedKinds(scan, steps[1..], t);
      assert forall r :: r in scan(steps[0]).value ==> r.kind == t;
    }
  }

  /** Scans of a type that do not drop add their results after the type's entries. */
  lemma RunStepsAppend(scan: Step -> Result<seq<Resource>, Error>, steps: seq<Step>, rs: seq<Resource>, t: ResourceType)
    requires KindsKept(scan)
    requires forall i :: 0 <= i < |steps| ==> steps[i].kind == t && !steps[i].drop
    requires RunSteps(scan, steps, rs).error.None?
    ensures Scanned(scan, steps).Success?
    ensures ByType(RunSteps(scan, steps, rs).resources, t) == ByType(rs, t) + Scanned(scan, steps).value
  {
    RunStepsNoDrop(scan, steps, rs);
    var found := Scanned(scan, steps).value;
    ScannedKinds(scan, steps, t);
    ByTypeOfKind(found, t, t);
    FilterConcat(rs, found, (r: Resource) => r.kind == t);
  }

  /** After a type's own scans (the first drops, the others add), its entries are exactly what they
      found. */
  lemma RunOwnScans(scan: Step -> Result<seq<Resource>, Error>, steps: seq<Step>, t: ResourceType, rs: seq<Resource>)
    requires KindsKept(scan)
    requires |steps| >= 1 && steps[0].drop
    requires forall s :: s in steps ==> s.kind == t
    requires forall i :: 0 < i < |steps| ==> !steps[i].drop
    requires RunSteps(scan, steps, rs).error.None?
    ensures Scanned(scan, steps).Success?
    ensures ByType(RunSteps(scan, steps, rs).resources, t) == Scanned(scan, steps).value
  {
    var s := steps[0];
    assert s in steps;
    assert scan(s).Success?;
    var found := scan(s).value;
    var kept := DropType(rs, t);
    var next := kept + found;
    assert RunSteps(scan, steps, rs) == RunSteps(scan, steps[1..], next);
    assert forall r :: r in found ==> r.kind == t;
    ByTypeOfDrop(rs, t, t);
    ByTypeOfKind(found, t, t);
    FilterConcat(kept, found, (r: Resource) => r.kind == t);
    assert ByType(next, t) == found;
    assert forall i :: 0 <= i < |steps[1..]| ==> steps[1..][i] == steps[i + 1] && steps[i + 1] in steps;
    RunStepsAppend(scan, steps[1..], next, t);
    var later := Scanned(scan, steps[1..]).value;
    assert Scanned(scan, steps) == Success(found + later);
    assert [] + (found + later) == found + later;
  }

  /** In any block order that visits `t` once, a rebuild that raises nothing leaves `t` with exactly
      what its own scans found. */
  lemma {:induction false} RescansIn(scan: Step -> Result<seq<Resource>, Error>, pre: seq<ResourceType>, t: ResourceType,
                                     post: seq<ResourceType>, types: seq<ResourceType>, d: Dirs, rs: seq<Resource>)
    requires KindsKept(scan)
    requires Rescanned(types, d, t) && t !in post
    requires RunSteps(scan, StepsOver(pre + [t] + post, types, d), rs).error.None?
    ensures Scanned(scan, ScansOf(d, t)).Success?
    ensures ByType(RunSteps(scan, StepsOver(pre + [t] + post, types, d), rs).resources, t) == Scanned(scan, ScansOf(d, t)).value
  {
    StepsOverConcat(pre + [t], post, types, d);
    assert (pre + [t])[..|pre|] == pre;
    var a := StepsOver(pre, types, d);
    var own := ScansOf(d, t);
    var b := StepsOver(post, types, d);
    assert StepsOver(pre + [t], types, d) == a + own;
    RunStepsConcat(scan, a + own, b, rs);
    RunStepsConcat(scan, a, own, rs);
    var m1 := RunSteps(scan, a, rs);
    var m2 := RunSteps(scan, own, m1.resources);
    RunOwnScans(scan, own, t, m1.resources);
    StepsOverKinds(post, types, d);
    RunStepsPreserves(scan, b, m2.resources, t);
  }

  lemma {:induction false} FoldSteps(scan: Step -> Result<seq<Resource>, Error>, order: seq<ResourceType>, n: nat,
                                     types: seq<ResourceType>, d: Dirs, rs: seq<Resource>)
    requires n <= |order|
    ensures FoldBlocks(scan, order, n, types, d, Rebuild(rs, None)) == RunSteps(scan, StepsOver(order[..n], types, d), rs)
  {
    if n > 0 {
      FoldSteps(scan, order, n - 1, types, d, rs);
      assert order[..n][..n - 1] == order[..n - 1];
      RunStepsConcat(scan, StepsOver(order[..n - 1], types, d), Block(types, d, order[n - 1]), rs);
    }
  }

  /** Once a block raises, the later blocks change nothing. */
  lemma {:induction false} FoldStops(scan: Step -> Result<seq<Resource>, Error>, order: seq<ResourceType>, k: nat, n: nat,
                                     types: seq<ResourceType>, d: Dirs, m: Rebuild)
    requires k <= n <= |order|
    requires FoldBlocks(scan, order, k, types, d, m).error.Some?
    ensures FoldBlocks(scan, order, n, types, d, m) == FoldBlocks(scan, order, k, types, d, m)
  {
    if n > k {
      FoldStops(scan, order, k, n - 1, types, d, m);
    }
  }

  /** The chained blocks are the scans of all blocks run in one go. */
  lemma ReloadSteps(env: Env, d: Dirs, types: seq<ResourceType>, rs: seq<Resource>)
    ensures Reload(env, d, types, rs) == RunSteps(StepScan(env), StepsOver(Order, types, d), rs)
  {
    FoldSteps(StepScan(env), Order, |Order|, types, d, rs);
    assert Order[..|Order|] == Order;
  }

  /** With no types requested, the inventory is returned as it is. */
  lemma ReloadNothing(env: Env, d: Dirs, rs: seq<Resource>)
    ensures Reload(env, d, [], rs) == Rebuild(rs, None)
  {
    ReloadSteps(env, d, [], rs);
    StepsOverNothing(Order, d);
  }

  /** Types that are not rescanned keep their entries, whether or not the rebuild raises. */
  lemma ReloadPreserves(env: Env, d: Dirs, types: seq<ResourceType>, rs: seq<Resource>, t: ResourceType)
    requires !Rescanned(types, d, t)
    ensures ByType(Reload(env, d, types, rs).resources, t) == ByType(rs, t)
  {
    ReloadSteps(env, d, types, rs);
    HostScanKinds(env);
    StepsOverKinds(Order, types, d);
    RunStepsPreserves(StepScan(env), StepsOver(Order, types, d), rs, t);
  }

  /** After a rebuild that raises nothing, a rescanned type has exactly the entries its folder scans
      found, in scan order. */
  lemma ReloadRescans(env: Env, d: Dirs, types: seq<ResourceType>, rs: seq<Resource>, t: ResourceType)
    requires Rescanned(types, d, t)
    requires Reload(env, d, types, rs).error.None?
    ensures Scanned(StepScan(env), ScansOf(d, t)).Success?
    ensures ByType(Reload(env, d, types, rs).resources, t) == Scanned(StepScan(env), ScansOf(d, t)).value
  {
    ReloadSteps(env, d, types, rs);
    HostScanKinds(env);
    var i := OrderIndex(t);
    RescansAt(StepScan(env), Order, i, types, d, rs);
  }

  /** Each type has one block, at its place in the block order. */
  lemma OrderIndex(t: ResourceType) returns (i: nat)
    ensures i < |Order| && Order[i] == t
    ensures forall j :: i < j < |Order| ==> Order[j] != t
  {
    i := match t
      case LORA => 0 case LoCon => 1 case Hypernetwork => 2 case TextualInversion => 3
      case Checkpoint => 4 case Controlnet => 5 case Upscaler => 6 case VAE => 7;
  }

  /** `RescansIn` for the block at index `i` of an order that visits its type only there. */
  lemma RescansAt(scan: Step -> Result<seq<Resource>, Error>, order: seq<ResourceType>, i: nat,
                  types: seq<ResourceType>, d: Dirs, rs: seq<Resource>)
    requires KindsKept(scan)
    requires i < |order| && Rescanned(types, d, order[i])
    requires forall j :: i < j < |order| ==> order[j] != order[i]
    requires RunSteps(scan, StepsOver(order, types, d), rs).error.None?
    ensures Scanned(scan, ScansOf(d, order[i])).Success?
    ensures ByType(RunSteps(scan, StepsOver(order, types, d), rs).resources, order[i]) == Scanned(scan, ScansOf(d, order[i])).value
  {
    var post := order[i + 1..];
    assert order == order[..i] + [order[i]] + post;
    assert order[i] !in post by {
      forall j | 0 <= j < |post| ensures post[j] != order[i] {
        assert post[j] == order[i + 1 + j];
      }
    }
    RescansIn(scan, order[..i], order[i], post, types, d, rs);
  }

  /** The module-level inventory `resources`. */
  class Inventory {
    var resources: seq<Resource>

    constructor()
      ensures resources == []
    {
      resources := [];
    }
  }

  /** One folder scan of a block: drop the type's entries if asked, then add what the folder scan
      finds, or stop with its exception. */
  method RunStep(inv: Inventory, opts: CmdOpts, env: Env, s: Step) returns (err: Option<Error>)
    modifies inv, opts
    ensures opts.noHashing == old(opts.noHashing)
    ensures Rebuild(inv.resources, err) == RunSteps(StepScan(env), [s], old(inv.resources))
  {
    if s.drop {
      inv.resources := DropType(inv.resources, s.kind);
    }
    var found := GetResourcesInFolder(opts, env, s.kind, s.folder, s.exts, s.excl);
    assert StepScan(env)(s) == found;
    assert [s][1..] == [];
    if found.Failure? {
      return Some(found.error);
    }
    inv.resources := inv.resources + found.value;
    return None;
  }

  /** One `if <type> in types` block of `load_resource_list`. */
  method RescanType(inv: Inventory, opts: CmdOpts, env: Env, d: Dirs, types: seq<ResourceType>, t: ResourceType)
    returns (err: Option<Error>)
    modifies inv, opts
    ensures opts.noHashing == old(opts.noHashing)
    ensures Rebuild(inv.resources, err) == RunSteps(StepScan(env), Block(types, d, t), old(inv.resources))
  {
    if !Rescanned(types, d, t) {
      return None;
    }
    var steps := ScansOf(d, t);
    err := RunStep(inv, opts, env, steps[0]);
    if t != VAE {
      assert steps == [steps[0]];
      return;
    }
    assert steps == [steps[0]] + [steps[1]];
    RunStepsConcat(StepScan(env), [steps[0]], [steps[1]], old(inv.resources));
    if err.Some? {
      return;
    }
    err := RunStep(inv, opts, env, steps[1]);
  }

  /** The block of the `k`-th type of a block order, which does nothing once an earlier block raised. */
  method RescanBlock(inv: Inventory, opts: CmdOpts, env: Env, d: Dirs, types: seq<ResourceType>,
                     order: seq<ResourceType>, k: nat, ghost m0: Rebuild, prior: Option<Error>)
    returns (err: Option<Error>)
    requires k < |order|
    requires Rebuild(inv.resources, prior) == FoldBlocks(StepScan(env), order, k, types, d, m0)
    modifies inv, opts
    ensures opts.noHashing == old(opts.noHashing)
    ensures Rebuild(inv.resources, err) == FoldBlocks(StepScan(env), order, k + 1, types, d, m0)
  {
    if prior.Some? {
      return prior;
    }
    err := RescanType(inv, opts, env, d, types, order[k]);
  }

  /** The blocks of `load_resource_list` for a given list of types, in source order: an exception from
      a scan skips the remaining blocks and propagates, leaving the inventory as it was when the
      exception was raised. */
  method LoadTypes(inv: Inventory, opts: CmdOpts, env: Env, d: Dirs, types: seq<ResourceType>)
    returns (r: Result<seq<Resource>, Error>)
    modifies inv, opts
    ensures opts.noHashing == old(opts.noHashing)
    ensures var m := Reload(env, d, types, old(inv.resources));
      && inv.resources == m.resources
      && (r.Success? <==> m.error.None?)
      && (r.Success? ==> r.value == m.resources)
      && (r.Failure? ==> m.error == Some(r.error))
  {
    ghost var m0 := Rebuild(inv.resources, None);
    var k: nat := 0;
    var err: Option<Error> := None;
    err := RescanBlock(inv, opts, env, d, types, Order, k, m0, err);
    k := k + 1;
    err := RescanBlock(inv, opts, env, d, types, Order, k, m0, err);
    k := k + 1;
    err := RescanBlock(inv, opts, env, d, types, Order, k, m0, err);
    k := k + 1;
    err := RescanBlock(inv, opts, env, d, types, Order, k, m0, err);
    k := k + 1;
    err := RescanBlock(inv, opts, env, d, types, Order, k, m0, err);
    k := k + 1;
    err := RescanBlock(inv, opts, env, d, types, Order, k, m0, err);
    k := k + 1;
    err := RescanBlock(inv, opts, env, d, types, Order, k, m0, err);
    k := k + 1;
    err := RescanBlock(inv, opts, env, d, types, Order, k, m0, err);
    k := k + 1;
    assert k == |Order|;
    assert Rebuild(inv.resources, err) == Reload(env, d, types, old(inv.resources));
    if err.Some? {
      return Failure(err.value);
    }
    return Success(inv.resources);
  }

  /** `load_resource_list`: rebuilds the requested types, all of them when none are given. */
  method LoadResourceList(inv: Inventory, opts: CmdOpts, env: Env, d: Dirs, types: Option<seq<ResourceType>>)
    returns (r: Result<seq<Resource>, Error>)
    modifies inv, opts
    ensures opts.noHashing == old(opts.noHashing)
    ensures var m := Reload(env, d, if types.None? then AllTypes else types.value, old(inv.resources));
      && inv.resources == m.resources
      && (r.Success? <==> m.error.None?)
      && (r.Success? ==> r.value == m.resources)
      && (r.Failure? ==> m.error == Some(r.error))
  {
    var ts := if types.None? then AllTypes else types.value;
    r := LoadTypes(inv, opts, env, d, ts);
  }

  // ---------------------------------------------------------------- lookups

  predicate MatchesHash(r: Resource, hash: string) {
    LowerStr(hash) == r.hash && !r.downloading
  }

  /** `get_resource_by_hash` over an inventory: the first record whose hash is the lower-cased query and
      that is not being downloaded. */
  function ResourceByHash(rs: seq<Resource>, hash: string): (r: Option<Resource>)
    ensures r.Some? <==> exists i :: 0 <= i < |rs| && MatchesHash(rs[i], hash)
    ensures r.Some? ==> exists i :: 0 <= i < |rs| && rs[i] == r.value && MatchesHash(rs[i], hash) &&
                          forall j :: 0 <= j < i ==> !MatchesHash(rs[j], hash)
  {
    First(rs, (x: Resource) => MatchesHash(x, hash))
  }

  /** The query is case-insensitive: an upper-cased hash finds the same record. */
  lemma ResourceByHashIgnoresCase(rs: seq<Resource>, hash: string)
    ensures ResourceByHash(rs, UpperStr(hash)) == ResourceByHash(rs, hash)
  {
    LowerOfUpper(hash);
    FirstIndexCongruent(rs, (x: Resource) => MatchesHash(x, UpperStr(hash)), (x: Resource) => MatchesHash(x, hash));
  }

  /** `get_resource_by_hash`: reads the inventory through `load_resource_list([])`, which rescans
      nothing, and looks the hash up in it. */
  method GetResourceByHash(inv: Inventory, opts: CmdOpts, env: Env, d: Dirs, hash: string) returns (r: Option<Resource>)
    modifies inv, opts
    ensures inv.resources == old(inv.resources) && opts.noHashing == old(opts.noHashing)
    ensures r == ResourceByHash(old(inv.resources), hash)
  {
    var rs := CurrentResources(inv, opts, env, d);
    return ResourceByHash(rs, hash);
  }

  /** `load_resource_list([])`: rescanning no type cannot fail and returns the inventory as it is. */
  method CurrentResources(inv: Inventory, opts: CmdOpts, env: Env, d: Dirs) returns (rs: seq<Resource>)
    modifies inv, opts
    ensures inv.resources == old(inv.resources) && opts.noHashing == old(opts.noHashing)
    ensures rs == old(inv.resources)
  {
    ReloadNothing(env, d, inv.resources);
    var loaded := LoadResourceList(inv, opts, env, d, Some([]));
    return loaded.value;
  }

  /** A checkpoint known to the host, with its full, short and legacy hashes, each possibly unknown. */
  datatype CheckpointInfo = CheckpointInfo(title: string, sha256: Option<string>, shorthash: Option<string>, hash: Option<string>)

  predicate KnownAs(c: CheckpointInfo, h: string) {
    c.sha256 == Some(h) || c.shorthash == Some(h) || c.hash == Some(h)
  }

  /** `get_model_by_hash`: the first checkpoint any of whose hashes equals the query, exactly. */
  function GetModelByHash(checkpoints: seq<CheckpointInfo>, h: string): (r: Option<CheckpointInfo>)
    ensures r.Some? <==> exists i :: 0 <= i < |checkpoints| && KnownAs(checkpoints[i], h)
    ensures r.Some? ==> exists i :: 0 <= i < |checkpoints| && checkpoints[i] == r.value && KnownAs(checkpoints[i], h) &&
                          forall j :: 0 <= j < i ==> !KnownAs(checkpoints[j], h)
  {
    First(checkpoints, (c: CheckpointInfo) => KnownAs(c, h))
  }

  // ---------------------------------------------------------------- previews

  /** The preview file written for a record: `<stem>.preview.png`. */
  function PreviewPath(r: Resource): string {
    Stem(r.path) + ".preview.png"
  }

  /** The test `update_resource_preview` applies to each record: its hash is `h`. */
  function HashIs(h: string): Resource -> bool {
    (x: Resource) => x.hash == h
  }

  /** The destinations `update_resource_preview` downloads to: one per record whose hash is the
      lower-cased query (downloading or not), in inventory order. */
  function PreviewTargets(rs: seq<Resource>, hash: string): (r: seq<string>)
    ensures |r| <= |rs|
    ensures forall p :: p in r <==> exists x :: x in rs && x.hash == LowerStr(hash) && p == PreviewPath(x)
  {
    if rs == [] then []
    else
      var rest := PreviewTargets(rs[1..], hash);
      assert forall x :: x in rs <==> x == rs[0] || x in rs[1..];
      (if rs[0].hash == LowerStr(hash) then [PreviewPath(rs[0])] else []) + rest
  }

  /** The destinations follow the matching records one for one, in order. */
  lemma {:induction false} PreviewTargetsOrdered(rs: seq<Resource>, hash: string)
    ensures var r, ms := PreviewTargets(rs, hash), Filter(rs, HashIs(LowerStr(hash)));
      |r| == |ms| && forall i :: 0 <= i < |r| ==> r[i] == PreviewPath(ms[i])
  {
    if rs != [] {
      PreviewTargetsOrdered(rs[1..], hash);
      var p := HashIs(LowerStr(hash));
      assert Filter(rs, p) == (if p(rs[0]) then [rs[0]] else []) + Filter(rs[1..], p);
    }
  }

  /** `update_resource_preview`'s loop over the matching records, returning where each download goes. */
  method UpdateResourcePreview(rs: seq<Resource>, hash: string) returns (dests: seq<string>)
    ensures dests == PreviewTargets(rs, hash)
  {
    var h := LowerStr(hash);
    dests := [];
    var i := 0;
    while i < |rs|
      invariant 0 <= i <= |rs|
      invariant PreviewTargets(rs, hash) == dests + PreviewTargets(rs[i..], hash)
    {
      PreviewTargetsAt(rs, i, hash);
      if rs[i].hash == h {
        AppendAssoc(dests, [PreviewPath(rs[i])], PreviewTargets(rs[i + 1..], hash));
        dests := dests + [PreviewPath(rs[i])];
      }
      i := i + 1;
    }
  }

  lemma PreviewTargetsAt(rs: seq<Resource>, i: nat, hash: string)
    requires i < |rs|
    ensures PreviewTargets(rs[i..], hash) ==
            (if rs[i].hash == LowerStr(hash) then [PreviewPath(rs[i])] else []) + PreviewTargets(rs[i + 1..], hash)
  {
    assert rs[i..][0] == rs[i] && rs[i..][1..] == rs[i + 1..];
  }

  /** Once the preview is written, `has_preview` sees it, provided PNG is an allowed preview type. */
  lemma PreviewSeen(env: Env, r: Resource)
    requires "png" in env.previewExts
    requires env.pathExists(PreviewPath(r))
    ensures HasPreview(env, r.path)
  {
    assert Stem(r.path) + ".preview." + "png" == PreviewPath(r);
  }

  /** Floor division brackets its dividend. */
  lemma DivBracket(a: nat, b: nat)
    requires b > 0
    ensures (a / b) * b <= a < (a / b + 1) * b
  {
    var q, m := a / b, a % b;
    assert a == q * b + m && m < b;
    assert (q + 1) * b == q * b + b;
  }

  lemma MulLe(x: nat, y: nat, z: nat)
    requires x <= y
    ensures x * z <= y * z
  {
  }

  lemma MulCancel(x: nat, y: nat, z: nat)
    requires z > 0 && x * z <= y * z
    ensures x <= y
  {
  }

  lemma ScaledFacts(short: nat, long: nat, size: nat)
    requires 0 < short <= long
    ensures (short * size / long) * long <= short * size < (short * size / long + 1) * long
    ensures 0 <= short * size / long <= size
  {
    DivBracket(short * size, long);
    MulLe(short, long, size);
    MulCancel(short * size / long, size, long);
  }

  /** `int(short * size / long)` for positive edges: the short edge scaled so that the long edge
      becomes `size`, rounded down, hence never above `size`. */
  function Scaled(short: nat, long: nat, size: nat): (q: nat)
    requires 0 < short <= long
    ensures q * long <= short * size < (q + 1) * long
    ensures q <= size
  {
    ScaledFacts(short, long, size);
    var q: int := short * size / long;
    q
  }

  /** `resizer`'s target size: the long edge becomes `size` and the short edge is scaled in proportion,
      rounded down. */
  function Resize(w: nat, h: nat, size: nat): (r: (nat, nat))
    requires w > 0 && h > 0
    ensures w > h ==> r.0 == size && r.1 * w <= h * size < (r.1 + 1) * w
    ensures w <= h ==> r.1 == size && r.0 * h <= w * size < (r.0 + 1) * h
    ensures r.0 <= size && r.1 <= size
  {
    if w > h then (size, Scaled(h, w, size)) else (Scaled(w, h, size), size)
  }
}

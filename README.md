# Civitai extension for the Automatic1111 web UI — a verified model

The extension links a local Stable Diffusion installation to the Civitai catalog. This project
models the three parts of it that carry its logic.

- **The inventory and the catalog client** (`civitai/lib.py`, modules `Resources`, `Catalog` and
  `HashCache`).
  - The extension scans the model folders of the host into a list of resource records: type,
    name, SHA-256, path, and whether a preview and an info file exist.
  - It rebuilds that list type by type.
  - It answers first-match lookups by hash.
  - It asks the catalog's by-hash endpoint about uncached hashes, in batches of 100. It sorts the
    answers newest first and remembers "not found" answers in a persistent cache.
- **The sidecar jobs** (`scripts/script.py`, module `Sync`).
  - `load_info` writes a `.json` info sidecar next to every resource that lacks one and that the
    catalog knows.
  - `load_preview` sends each such resource's first still image to the preview downloader.
- **The metadata hashifier** (`scripts/paste.py`, modules `Infotext` and `Hashify`).
  - When an image's generation text ("infotext") is built, the hashifier splits it into prompt,
    negative prompt and parameters.
  - It finds the VAE, embeddings, `<lora:…>`/`<hypernet:…>` tags and the model hash that the text
    uses.
  - It merges their short hashes into a `Hashes: {…}` fragment.

The host is a parameter throughout.
- `Resources.Env` gives glob, directory and file tests, path existence, `abspath`, the allowed
  preview extensions and the hasher.
- `Catalog.Api` gives the API key setting, the JSON encoder of a hash list and the HTTP
  transport.
- `Infotext.Codec` gives `json.dumps`/`json.loads` on flat string maps.
- The host's folder settings are a `Resources.Dirs` value.
- The `no_hashing` command-line flag is the field of a `Resources.CmdOpts` object.
- The module-level `resources` list is the field of a `Resources.Inventory` object.
- The persistent lookup cache is the field of a `HashCache.ApiCache` object.
- The `civitai_hashify_resources` setting and the loaded VAE file name are arguments.

Code that loops or updates state is written as methods with loops and invariants. Each method is
proved equal to a function of its inputs, and the functions carry the properties. This covers the
folder scan, the rebuild blocks, the batch loop, the cache writes, the sidecar and preview loops,
and the embedding and tag loops. Expression-level code is written as functions and lemmas.

Where the code and its description disagree, the model follows the code:
- The missing-hash list is not deduplicated (`civitai/lib.py:178`).
- Found records are never cached, so asking again re-sends them (`HashCache.LookupForgetsFound`).
- A failing request or a file without `hashes`/`SHA256` leaves the cache as it was.
- `get_automatic_name` removes every occurrence of the folder (`str.replace`), not just a prefix.
- Among embeddings of one name, the last wins (`Hashify.EmbedHashesValues`).
- `re.sub` rewrites every `Hashes:` fragment with the map built from the first one.
- `re.sub` reads the merged `Hashes: …` text as a replacement template, not as literal text. A
  backslash escape in the encoded map is interpreted. A `\uXXXX`, which `json.dumps` writes for a
  non-ASCII character, makes the merge raise (`Infotext.MergeRaises`).
- A rebuild whose scan raises has already dropped that type's entries.

One place departs from the code on purpose: the sidecar loop of `load_info`. `Sync.VersionInfo`,
`Sync.PlanInfo` and `Sync.LoadInfo` model it with the loop variable clash at `scripts/script.py:52`
corrected (see "## Findings"). The loop as written is `Sync.InfoAsWritten`. `Sync.AsWrittenAgrees`
proves that the two agree whenever no version has a requested file after one that wrote a sidecar.

## Model

| member | source | states |
|---|---|---|
| Catalog.BuildHeaders | civitai/lib.py:31-39 | User-Agent is always set. `Authorization: Bearer <key>` is set exactly when a key is configured, even an empty one. `Content-Type: application/json` is set exactly when data is given. No other header is added, and the caller's other headers keep their values. |
| Catalog.BuildUrl | civitai/lib.py:40-44 | The URL is the endpoint under the base URL with exactly one `/` between them, added only when the endpoint lacks a leading `/`. |
| Catalog.BuildRequest | civitai/lib.py:37-44 | The request carries the verb, that URL and those headers. It has a body exactly when data is given, and that body is the encoded data. Its query parameters are the given ones, or none. |
| Catalog.Req | civitai/lib.py:44-47 | The call succeeds exactly when the status is 200, returning the decoded body. Otherwise it raises `Error: <status> <text>`. |
| Catalog.GetAllByHashSends | civitai/lib.py:63-65 | Each batch is one POST to `/model-versions/by-hash` carrying its encoding as a JSON body. It carries a bearer token exactly when a key is set, and is accepted only with status 200. |
| HashCache.MissingIsUncached | civitai/lib.py:178 | The missing list holds exactly the requested hashes that are not cached. |
| HashCache.MissingCounts | civitai/lib.py:178 | Every uncached hash is in the missing list as often as it was requested, so duplicates are not removed. |
| HashCache.MissingKeepsDuplicates | civitai/lib.py:178 | An uncached hash requested twice is sent twice. |
| HashCache.Batches | civitai/lib.py:181-182 | Every batch is non-empty and holds at most 100 hashes. |
| HashCache.BatchesCount | civitai/lib.py:181 | There are ceil(n/100) batches for n missing hashes. |
| HashCache.BatchesFlatten | civitai/lib.py:181-183 | Concatenated in order, the batches are the missing list. |
| HashCache.BatchesAreSlices | civitai/lib.py:181-182 | Batch i is the slice of the missing list from 100·i to min(100·i+100, n). |
| HashCache.NeverRequestsCached | civitai/lib.py:178-183 | No batch carries a cached hash, and every hash sent was requested. |
| HashCache.FetchMissing | civitai/lib.py:180-186 | The batch loop sends one request per batch in order. It concatenates the answers, and the first failure raises and stops the loop. |
| HashCache.SortNewest | civitai/lib.py:188 | The sorted results are a permutation of the fetched ones. |
| HashCache.SortNewestOrdered | civitai/lib.py:188 | The results are ordered by `createdAt`, newest first. |
| HashCache.SortNewestStable | civitai/lib.py:188 | Records with equal `createdAt` keep the order in which the batches returned them, as Python's stable sort promises. |
| HashCache.FoundHashesMeans | civitai/lib.py:190-194 | The found set is defined exactly when every returned file has `hashes.SHA256` (otherwise KeyError). It is then exactly the set of lower-cased SHA256 values of the returned files. |
| HashCache.CollectFound | civitai/lib.py:190-194 | The nested record/file loop computes that found set, or the KeyError. |
| HashCache.CacheAfter | civitai/lib.py:195-197 | Existing entries are kept unchanged. The only new keys are missing hashes that were not found, and each holds None. |
| HashCache.LookupOrdered | civitai/lib.py:178-188 | A successful call returns a permutation of the fetched records, newest first and stable among equals. |
| HashCache.LookupCaches | civitai/lib.py:190-197 | Existing cache entries are never overwritten. Every requested, uncached hash that no returned file carries is cached as None, and no other entry is added. |
| HashCache.LookupForgetsFound | civitai/lib.py:178-197 | A hash that was found stays uncached, so the next call sends it again. |
| HashCache.ApiCache.constructor | civitai/lib.py:20 | The cache starts with the given persistent entries. |
| HashCache.ApiCache.CacheNotFound | civitai/lib.py:195-197 | The write loop leaves the cache as `CacheAfter` describes. |
| HashCache.ApiCache.GetAllByHashWithCache | civitai/lib.py:174-198 | On an exception, the exception is returned and the cache is unchanged. On success, the sorted records are returned and the cache is updated with the None entries. |
| Resources.AutomaticTypeTable | civitai/lib.py:108-111 | Hypernetwork maps to `hypernet`, and every other type maps to its name in lower case. |
| Resources.AutomaticTypeDistinct | civitai/lib.py:108-111 | Different types get different cache-title prefixes. |
| Resources.AutomaticNameRelative | civitai/lib.py:114-126 | A file at `folder/rel`, where the folder does not occur again, is named `rel` if it is a checkpoint. Any other file is named `rel` without its extension. |
| Resources.PreviewExtensions | civitai/lib.py:130-131 | The candidate extensions are the allowed ones, followed by each of them with `preview.` in front. |
| Resources.HasPreviewScan | civitai/lib.py:128-135 | The loop finds a preview exactly when `<stem>.<e>` or `<stem>.preview.<e>` exists for some allowed extension e. |
| Resources.ExcludeAllSound | civitai/lib.py:152-153 | A path survives exclusion exactly when it is a candidate that ends in none of the excluded suffixes. |
| Resources.Entry | civitai/lib.py:165-169 | A scanned record holds its type and path, and the base name without extension as its name. Its hash is the host's SHA-256 under `<automatic type>/<automatic name>` with hashing on. `hasInfo`/`hasPreview` hold exactly when the sidecar/preview exists. It is not downloading. It fails exactly when hashing fails. |
| Resources.ScanPathsOk | civitai/lib.py:161-169 | A successful scan has one record per non-directory path, in path order, each the entry of that path. |
| Resources.ScanPathsFailure | civitai/lib.py:160-171 | The scan raises exactly when some non-directory path fails to hash, and then it raises the first such exception. |
| Resources.ScanPathsFrom | civitai/lib.py:161-169 | Every record comes from a scanned path that is not a directory. |
| Resources.ScanPathsSorted | civitai/lib.py:161 | Sorted candidates give records in sorted path order. |
| Resources.ScanPathsRecords | civitai/lib.py:161-169 | Every record is the host entry of a non-directory candidate. |
| Resources.ScanFolderSound | civitai/lib.py:141-172 | Every record of a folder scan is a globbed, non-directory path that ends in no excluded suffix. Every field of each record is the one computed for its file, and the records are in sorted path order. |
| Resources.Candidates | civitai/lib.py:149-153 | The candidate loop yields the globs of every extension, concatenated in order, with every excluded suffix filtered out. |
| Resources.ScanSorted | civitai/lib.py:161-169 | The scan loop, stopping at the first exception, yields the scan result of the sorted candidates. |
| Resources.GetResourcesInFolder | civitai/lib.py:141-172 | The method returns the folder scan, hashing with `no_hashing` off. It restores the caller's `no_hashing` value on every exit, including an exception. |
| Resources.ScanPathsNext | civitai/lib.py:161-169 | One loop step skips a directory, ends the scan on an exception, or appends the new record. |
| Resources.ScansOf | civitai/lib.py:208-234 | A type's block first drops that type's entries. Only VAE has a second scan, which adds results without dropping. |
| Resources.ReloadSteps | civitai/lib.py:208-234 | The chained `if <type> in types` blocks are the scans of all the requested blocks, run in the fixed source order. |
| Resources.ReloadNothing | civitai/lib.py:202-236 | `types=[]` returns the inventory unchanged and cannot raise. |
| Resources.ReloadPreserves | civitai/lib.py:208-234 | A type not rescanned keeps exactly its entries, whether or not the rebuild raises. This covers unrequested types, and LoCon when its folder is the LoRA folder. |
| Resources.ReloadRescans | civitai/lib.py:208-234 | After a rebuild that does not raise, a rescanned type holds exactly what its folder scans found, in scan order. For VAE this is the model-folder scan followed by the VAE-folder scan. |
| Resources.RunStep | civitai/lib.py:209-210 | One scan drops the type's entries if asked and appends the fresh scan, or stops with its exception. `no_hashing` is unchanged. |
| Resources.RescanType | civitai/lib.py:208-234 | One block runs its type's scans, or nothing when the type is not rescanned. |
| Resources.RescanBlock | civitai/lib.py:208-234 | The k-th block runs only when no earlier block raised. |
| Resources.LoadTypes | civitai/lib.py:206-236 | The inventory ends as the chained blocks leave it. The method returns it, or the first exception with the inventory as it was when the exception was raised. |
| Resources.LoadResourceList | civitai/lib.py:202-236 | The same, with all eight types when none are given. |
| Resources.ResourceByHash | civitai/lib.py:245-249 | The result is the first record whose hash equals the lower-cased query and that is not downloading, and is None exactly when there is none. |
| Resources.ResourceByHashIgnoresCase | civitai/lib.py:245 | An upper-cased query finds the same record. |
| Resources.GetResourceByHash | civitai/lib.py:242-249 | The lookup runs over the current inventory and changes neither the inventory nor `no_hashing`. |
| Resources.CurrentResources | civitai/lib.py:243 | `load_resource_list([])` returns the inventory and changes nothing. |
| Resources.GetModelByHash | civitai/lib.py:238-240 | The result is the first checkpoint whose sha256, short hash or legacy hash equals the query exactly, and is None exactly when there is none. |
| Resources.PreviewTargets | civitai/lib.py:298-302 | A path is a destination exactly when it is `<stem>.preview.png` of a record whose hash is the lower-cased query, downloading or not; there are no more destinations than records. |
| Resources.PreviewTargetsOrdered | civitai/lib.py:298-302 | The destinations follow the matching records one for one and in inventory order: the i-th destination is the preview path of the i-th record the hash test keeps. |
| Resources.UpdateResourcePreview | civitai/lib.py:296-303 | The loop over the matches yields those destinations. |
| Resources.PreviewSeen | civitai/lib.py:128-135 | Once the preview is written, `has_preview` finds it, provided `png` is an allowed preview extension. |
| Resources.Scaled | civitai/lib.py:254 | The scaled short edge is the floor of short·size/long, and never exceeds size. |
| Resources.Resize | civitai/lib.py:251-254 | The long edge becomes `size`. The other edge is scaled in proportion, rounded down. Both edges are at most `size`. |
| Resources.Inventory.constructor | civitai/lib.py:200 | The inventory starts empty. |
| Sync.HashesOf | scripts/script.py:15 | The hash list has one hash per resource, in order. |
| Sync.InfoCandidates | scripts/script.py:11-14 | `load_info` works on exactly the resources of the five synced types that lack an info file. |
| Sync.PreviewCandidates | scripts/script.py:60 | `load_preview` works on exactly the resources of the five synced types that lack a preview. |
| Sync.FileSha | scripts/script.py:27-28 | A file has a SHA256 exactly when it has a `hashes` map holding one. |
| Sync.SdVersion | scripts/script.py:31-43 | The SD version is the value of the first table key, in dict order, that is a substring of `baseModel`, or `''` when no key is. |
| Sync.SdVersionTable | scripts/script.py:31-43 | `SDXL 1.0`, `Pony` and `Illustrious` map to SDXL. `SD 1.5` maps to SD1 through the earlier key `SD 1`. A missing base model gives `''`. |
| Sync.InfoOf | scripts/script.py:41-47 | The record copies `modelId` and the version id, and holds the file's SHA256 in upper case, which lower-cases back to the matched hash. Its SD version comes from the base-model table. Its activation text is the trained words joined with `, `, or empty when there are none. |
| Sync.Sidecars | scripts/script.py:52-54 | There is one write per target, at `with_suffix('.json')` of its path, each with the same record. |
| Sync.FileWritesMeans | scripts/script.py:27-54 | A file writes exactly the sidecars of the missing resources carrying its hash, and nothing when it is skipped. |
| Sync.VersionWritesMeans | scripts/script.py:26-54 | A version writes exactly the sidecars of its files. |
| Sync.InfoWritesMeans | scripts/script.py:23-55 | A sidecar is written exactly for each returned file whose SHA256 is requested and each missing-info resource with that hash. It is written at that resource's `.json` path, with the version's record. |
| Sync.SidecarsIdentifyResource | scripts/script.py:49-54 | Every sidecar belongs to a missing-info resource and records that resource's hash. |
| Sync.WriteSidecars | scripts/script.py:52-55 | The inner loop writes those sidecars. |
| Sync.VersionInfo | scripts/script.py:26-55 | The file loop writes that version's sidecars. |
| Sync.PlanInfo | scripts/script.py:21-57 | The write loop writes every planned sidecar, and `N` equals the number of writes. |
| Sync.InfoAsWritten | scripts/script.py:23-55 | The loop as written: after a file matches, `r` is rebound to a resource record, and the writes made before an exception stay made. |
| Sync.StepAgrees | scripts/script.py:27-54 | One file walked while `r` is still the version (or skipped anyway) writes what the corrected loop writes for it, without raising. |
| Sync.FilesAgree | scripts/script.py:26-54 | A version's file loop as written raises nothing and writes what the corrected loop writes, when no requested file follows one that wrote a sidecar. |
| Sync.AsWrittenAgrees | scripts/script.py:23-55 | Under that condition for every version, `load_info`'s loop as written raises nothing and writes exactly the corrected loop's writes. |
| Sync.RebindingAborts | scripts/script.py:44-52 | As written: in a version whose two files match two different missing resources, the first sidecar is written and then the job dies with KeyError `modelId`. |
| Sync.BothSidecarsWritten | scripts/script.py:26-55 | As intended: in that same version, both sidecars are written, each with the version's record. |
| Sync.PreviewImage | scripts/script.py:76-80 | The preview is the first image whose lower-cased URL ends in neither `.mp4` nor `.gif`, and is None exactly when no image qualifies or there are none. |
| Sync.VersionPreviewsMeans | scripts/script.py:71-83 | A version dispatches exactly one preview per requested file, when it has a still image. |
| Sync.PreviewJobsMeans | scripts/script.py:68-83 | A preview is dispatched exactly for each returned file whose SHA256 is requested, when its version has a still image. It carries that image's URL and the `.preview.png` destinations of the matching records. |
| Sync.VersionPreview | scripts/script.py:71-83 | The file loop dispatches that version's previews. |
| Sync.PlanPreview | scripts/script.py:66-85 | The dispatch loop sends every planned preview, and `N` equals the number sent. |
| Sync.LoadInfo | scripts/script.py:13-57 | The job rebuilds the inventory and looks up the hashes of the resources lacking info, through the cache. It returns the planned sidecars and their count. If the rebuild or the lookup raises, the job returns that exception and the cache is unchanged. |
| Sync.LoadPreview | scripts/script.py:59-85 | The same, for resources lacking a preview, returning the planned preview downloads and their count. |
| Infotext.SpaceEnd | scripts/paste.py:21 | `\s*` stops at the first non-whitespace character. |
| Infotext.CloseAt | scripts/paste.py:21 | `.*?\}` stops at the first `}` before any newline, and fails when a newline comes first. |
| Infotext.FragmentAt | scripts/paste.py:21 | A fragment is the marker, then whitespace, then a one-line brace-delimited object that holds no other `}`. |
| Infotext.Search | scripts/paste.py:21 | `re.search` finds the leftmost fragment, or reports that none exists. |
| Infotext.ParseTemplate | scripts/paste.py:28-29 | When compiling the replacement raises, the error points at a backslash at or after the start position. |
| Infotext.ParseLiteralRun | scripts/paste.py:28-29 | A run without backslashes compiles to literal pieces in front of what follows it. |
| Infotext.PrependTextExpands | scripts/paste.py:28-29 | Literal pieces in front of a template produce their text before the template's output, and fail exactly where the template fails. |
| Infotext.TemplateLiteral | scripts/paste.py:28-29 | A replacement without a backslash compiles, and every match becomes exactly that text. |
| Infotext.BadEscapeRaises | scripts/paste.py:28-29 | A backslash before an ASCII letter that names no escape makes compiling raise at the first such backslash. |
| Infotext.SubAllNone | scripts/paste.py:29 | `re.sub` leaves a text without fragments unchanged. |
| Infotext.SubAllFixed | scripts/paste.py:29 | `re.sub` leaves a text unchanged when every fragment already reads as what the template makes of it. |
| Infotext.SubLastLiteral | scripts/paste.py:29 | With a backslash-free replacement, a last fragment that runs to the end is replaced by exactly that text. |
| Infotext.Merged | scripts/paste.py:23-27 | The merged map keeps the existing keys, with `hashtext` overriding their values. Malformed JSON counts as an empty map. |
| Infotext.MergeAppends | scripts/paste.py:30-31 | Without a fragment, the merge succeeds with the input followed by exactly `, Hashes: ` and the encoded map. |
| Infotext.MergeRewrites | scripts/paste.py:21-29 | With a fragment, the merge raises exactly when the replacement `Hashes: ` + encoding of the merged map does not compile. Otherwise the text before the first fragment is kept, and each fragment becomes what the compiled replacement makes of it. |
| Infotext.MergeRewritesLiteral | scripts/paste.py:21-29 | With a backslash-free merged encoding, the merge succeeds, and its result starts with the text before the first fragment followed by the replacement. |
| Infotext.MergeRaises | scripts/paste.py:21-29 | A merged encoding holding a `\u` escape (or another backslash before a letter that names no escape) makes the merge raise at that backslash of the replacement. |
| Infotext.MergeIntoAppended | scripts/paste.py:20-32 | Merging a map into the text it was appended to is `re.sub` of that text with `Hashes: ` + the map's encoding. |
| Infotext.MergeAppended | scripts/paste.py:20-32 | With a backslash-free encoding, merging a map into the text it was appended to gives that text back. |
| Infotext.MergeTwice | scripts/paste.py:20-32 | With a backslash-free encoding, merging the same map twice succeeds and gives the text that merging it once gives. |
| Infotext.MergeTwiceRaises | scripts/paste.py:20-32 | When the encoding holds a `\u` escape, the first merge succeeds but merging the same map again raises. |
| Hashify.SplitInfotext | scripts/paste.py:42-53 | The prompt and the negative prompt are stripped. |
| Hashify.SplitLines | scripts/paste.py:42-53 | The sections of an already stripped text, with a stripped prompt and negative prompt. |
| Hashify.SplitOneLine | scripts/paste.py:42-45 | A one-line text is all prompt. |
| Hashify.SplitPrompt | scripts/paste.py:42-48 | The prompt is the stripped first line. When the next line does not start with `Negative prompt:`, the negative prompt is empty and the parameters are the rest. |
| Hashify.SplitNegative | scripts/paste.py:50-53 | A `Negative prompt:` line gives the negative prompt, with the marker removed and stripped. The parameters are what follows that line. |
| Hashify.SplitNegativeLast | scripts/paste.py:50-53 | A final `Negative prompt:` line leaves no parameters. |
| Hashify.VaeEntry | scripts/paste.py:58-61 | The `vae` value exists exactly when a VAE file is loaded and some VAE record is named after its stem. It is then the short hash of the first such record. |
| Hashify.EmbedHashesKeys | scripts/paste.py:63-65 | The embedding loop adds a key exactly for each embedding the prompt or the negative prompt mentions, and leaves other keys alone. |
| Hashify.EmbedHashesValues | scripts/paste.py:63-65 | A mentioned embedding's key holds its short hash unless a later mentioned embedding has the same name. |
| Hashify.EmbedHashesFrom | scripts/paste.py:63-65 | The embedding loop adds only short hashes of inventory records. |
| Hashify.SameNameSameMention | scripts/paste.py:64 | Embeddings of one name are mentioned or not together. |
| Hashify.NameEnd | scripts/paste.py:36 | The name run is maximal over `[a-zA-Z0-9_.\-\s]`. |
| Hashify.WeightEnd | scripts/paste.py:36 | The weight run is maximal over `[0-9.]`. |
| Hashify.TagAt | scripts/paste.py:36 | A match at a position ends after it, within the text, on a `>`. |
| Hashify.TagAfter | scripts/paste.py:36 | After `<network:`, a match of the rest of the pattern ends after the `<`, within the text, on a `>`. |
| Hashify.TagAtSound | scripts/paste.py:36 | A matched tag is well formed and written at the position it was matched at: `<`, the network, `:`, the name and `:`. |
| Hashify.TagAfterSound | scripts/paste.py:36 | After `<network:`, a match gives a well-formed tag written at that position. |
| Hashify.NameAndTail | scripts/paste.py:36 | After the network, a match has a non-empty name run ending in `:`, and the match ends with `>`. |
| Hashify.FindTagsSound | scripts/paste.py:67 | Every tag `re.findall` returns is well formed and written in the text. |
| Hashify.TagAtComplete | scripts/paste.py:36 | A tag written at a position is matched there: the network, the name between the colons, and the match end at `>` or at the line's last `>` after `:`. |
| Hashify.NetworkAtKnown | scripts/paste.py:36 | The `(lora|hypernet)` alternation matches the network written there. |
| Hashify.TailEndComplete | scripts/paste.py:36 | `(?:[:].*)?>` matches a `>`, or a `:` followed by the line up to its last `>`. |
| Hashify.NameAndTailComplete | scripts/paste.py:36 | A name run ending in `:`, a non-empty weight run and a matching tail are matched, with that end. |
| Hashify.FindTagsSkips | scripts/paste.py:67 | `re.findall` skips positions where no tag matches. |
| Hashify.FindTagsFirst | scripts/paste.py:67 | The first tag matched at or after a position leads the list found from there, and the search resumes at its end. |
| Hashify.TagMatch | scripts/paste.py:69-72 | The match is the first record of the mapped type whose name equals the tag name ignoring case, or whose part before the first `-` does. It is None exactly when there is none. |
| Hashify.TagStep | scripts/paste.py:73 | A matched tag sets the key `network:name` to the match's short hash and touches no other key. An unmatched tag changes nothing. |
| Hashify.TagHashesKeys | scripts/paste.py:67-73 | The tag loop keeps every key, adds only keys of matched tags, and leaves every non-network key alone. |
| Hashify.TagKeyInjective | scripts/paste.py:73 | Two tags with the same key are the same tag. |
| Hashify.TagHashesValue | scripts/paste.py:67-73 | A matched tag's key ends holding the short hash of its first match, so a repeated tag reassigns the same value. |
| Hashify.TagHashesValues | scripts/paste.py:67-73 | The same, for every matched tag. |
| Hashify.TagHashesFrom | scripts/paste.py:67-73 | The tag loop adds only short hashes of inventory records. |
| Hashify.ModelHashFrom | scripts/paste.py:75-77 | The result is group 1 of the leftmost `Model hash: ` followed by ten hex digits, and is None exactly when there is no such match. |
| Hashify.ModelEntry | scripts/paste.py:75-79 | The `model` value exists exactly when a model hash is found and some checkpoint's hash starts with it, case-sensitively. It is then the short hash of the first such checkpoint. |
| Hashify.ModelHashShape | scripts/paste.py:37 | A found model hash is ten hexadecimal digits written after `Model hash: `. |
| Hashify.ModelStage | scripts/paste.py:75-79 | The model step sets only `model`, and only when a checkpoint matches. |
| Hashify.HashesFromInventory | scripts/paste.py:56-81 | Every value in the map is the first ten characters of some inventory record's hash. |
| Hashify.HashesVae | scripts/paste.py:58-61 | `vae` is in the map exactly when `VaeEntry` finds a match, and it holds that value. |
| Hashify.HashesModel | scripts/paste.py:75-79 | `model` is in the map exactly when `ModelEntry` finds a match, and it holds that value. |
| Hashify.HashesTagValues | scripts/paste.py:67-73 | Every matched tag of the prompt has its key, holding the short hash of its first match. |
| Hashify.HashesTagKeys | scripts/paste.py:67-73 | A network key is in the map only for a tag of the prompt that a record of its type matches. |
| Hashify.HashesEmbedKeys | scripts/paste.py:63-65 | An `embed:` key is in the map exactly for an embedding that a prompt mentions. |
| Hashify.HashesEmbedValues | scripts/paste.py:63-65 | A mentioned embedding's key holds its short hash, with the last embedding of a name winning. |
| Hashify.EmbedLoop | scripts/paste.py:63-65 | The embedding loop computes the embedding map. |
| Hashify.TagLoop | scripts/paste.py:67-73 | The tag loop computes the tag map. |
| Hashify.CivitaiHashes | scripts/paste.py:34-81 | With hashifying off, the map is `{}`. Otherwise it is the hash map of the current inventory and the split infotext. The inventory and `no_hashing` are unchanged. |
| Hashify.CollectHashes | scripts/paste.py:42-81 | The VAE, embedding, tag and model steps, in that order, compute the hash map. |
| Hashify.InsertInfotext | scripts/paste.py:10-16 | A non-string infotext passes through untouched, and so does any infotext when hashifying is off. A string with an empty hash map is unchanged. Otherwise the result is the merged string, or the merge's exception. |
| Text.LowerStr | scripts/script.py:29 | Lower-casing maps each character, and keeps the length. |
| Text.UpperStr | scripts/script.py:46 | Upper-casing maps each character, and keeps the length. |
| Text.LowerOfUpper | scripts/script.py:46 | Upper-casing a hash loses nothing that lower-casing keeps. |
| Text.LStrip | scripts/paste.py:42 | Only leading whitespace is removed, and all of it. |
| Text.RStrip | scripts/paste.py:42 | Only trailing whitespace is removed, and all of it. |
| Text.StrippedStrip | scripts/paste.py:44 | What `strip()` returns is stripped. |
| Text.StripStripped | scripts/paste.py:44 | `strip()` leaves a stripped string alone. |
| Text.Find | scripts/paste.py:42 | The result is the first occurrence of the character, and is None exactly when it has none. |
| Text.BeforeFirst | scripts/paste.py:71 | `split('-')[0]` is the prefix before the first `-`. |
| Text.Prefix | scripts/paste.py:61 | `hash[:10]` is the prefix of length min(10, length). |
| Text.RemoveAllAbsent | civitai/lib.py:117 | `replace` of an absent pattern changes nothing. |
| Text.Basename | civitai/lib.py:119 | The base name is the final component, with no `/`. |
| Text.SplitExt | civitai/lib.py:126 | The stem and extension concatenate back to the path, and the extension is empty or a dot suffix of the last component. |
| Text.WithSuffixIsStemPlus | scripts/script.py:53 | For a path with an extension, `with_suffix` and `splitext` agree. |
| Text.SortStrings | civitai/lib.py:161 | `sorted()` returns an ascending permutation. |

## Left out

- HTTP traffic, file writes, the preview download's streaming, cancelling and clean-up, logging,
  threads and the lock, and the host's settings UI and hook registration. These are I/O or
  concurrency. The model returns the writes and the downloads a job would perform.
- Hashing, globbing, directory and file tests, `abspath`, `os.makedirs` and the host's
  `get_filename` of the loaded VAE. These are host calls and are oracles or arguments. The VAE
  file is given by the name `get_filename` returns.
- The Kaggle path's image encryption (`civitai/lib.py:281-287`): it calls a foreign library.
- `get_models`, `get_creators`, `get_tags` and `get_model_version*`: one-line wrappers of `req`.
- JSON beyond flat string maps, and `datetime.fromisoformat`. The encoder and decoder are an
  abstract codec, and `createdAt` is an abstract integer timestamp.
- The regular expressions are modelled by hand-written scanners for the patterns used. No regex
  engine is modelled.
- Character classes: `str.lower`/`str.upper` are modelled on ASCII letters only. Paths are POSIX
  paths with `/` only.
- The persistence of the disk cache between runs: the cache is an object whose entries are given.
- `Resources.Scaled`: uses integer floor division where `resizer` uses float division and
  `int()`. It does not model the PIL resize and PNG encoding.
- `Resources.AutomaticNameRelative`: states the naming only for a folder that does not occur again
  in the relative part. Repeated occurrences are removed as `str.replace` does, but no lemma
  describes them.
- `Infotext.MergeTwice`: proved only for an infotext without the `Hashes:` marker, and for an
  encoder that writes the map as a flat one-line object it can read back with no backslash in it.
  For a text that already holds fragments, `Infotext.MergeRewrites` describes a single merge. For
  an encoding with a `\u` escape, `Infotext.MergeTwiceRaises` shows the second merge raises.
- `Infotext.ParseTemplate`: reads `\g<name>` as the whole match only when the name is ASCII
  zeros. Python's `int()` also reads signs, blanks, underscores and non-ASCII digits there. The
  error is a position, not the text of `re.error`.
- `Sync.VersionInfo`: models the file loop with the loop variable clash corrected, not as written
  (`Sync.InfoAsWritten`, related by `Sync.AsWrittenAgrees`).
- `Sync.PlanInfo`: writes what the corrected loop writes. Where the rebinding is seen, the code
  stops with `KeyError` after the writes made so far.
- `Sync.LoadInfo`: returns the corrected loop's writes. Where a version has a requested file after
  one that wrote a sidecar, the code raises `KeyError` there.
- `Sync.VersionWritesMeans`: describes the corrected loop's writes for a version.
- `Sync.InfoWritesMeans`: describes the corrected loop's writes for the catalog's answer.
- The key order of the written `Hashes:` object. Hash maps are unordered `map`s. The encoder gets
  only the map, so the order `json.dumps` writes keys in is not modelled. In the code, that order
  is the existing keys, then the VAE, the embeddings, the tags in prompt order and the model.
- `Hashify.TagHashesKeys`: states that keys are kept and that added keys come from matched tags.
  The converse direction is `Hashify.TagHashesValue`.
- `Hashify.SplitInfotext`: its own contract states only that the sections are stripped. What each
  section is, is stated by `Hashify.SplitOneLine`, `Hashify.SplitPrompt`, `Hashify.SplitNegative`
  and `Hashify.SplitNegativeLast` for the stripped text.
- The `r is None` guards (`scripts/script.py:24`, `scripts/script.py:69`) are not modelled as a
  separate case. The catalog's records are values, and the sort at `civitai/lib.py:188` would
  already fail on a None.

## Findings

| source | as written | input that shows it | evidently intended | confidence | as-written member | corrected member |
|---|---|---|---|---|---|---|
| scripts/script.py:52 | `for r in v:` rebinds the name of the outer loop's version record to a resource record. The next matching file of the same version then reads `r['modelId']` (line 44) from that resource record. | One catalog version with two files whose SHA256s are the hashes of two different resources that lack info files. The first sidecar is written, then KeyError `modelId` ends `load_info`. | Both sidecars are written, each with the version's record. A different loop variable name keeps `r` bound. | not executed | Sync.RebindingAborts | Sync.BothSidecarsWritten |

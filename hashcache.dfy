/** `get_all_by_hash_with_cache` of civitai/lib.py: look the uncached hashes up in the catalog in
    batches of at most 100, sort what comes back newest first, and remember as "not found" (None)
    every requested hash that no returned file carries. Found records are never stored. */
module HashCache {
  import opened Wrappers
  import opened Seqs
  import opened Text
  import opened Catalog

  const BatchSize: nat := 100

  // ---------------------------------------------------------------------------------------------
  // Which hashes are requested, and in which batches

  function Uncached(cache: map<string, Option<Version>>): string -> bool {
    h => h !in cache
  }

  /** `[h for h in file_hashes if h not in cache]`: duplicates are kept. */
  function Missing(hashes: seq<string>, cache: map<string, Option<Version>>): seq<string> {
    Filter(hashes, Uncached(cache))
  }

  /** The missing list holds exactly the requested hashes that are not cached ... */
  lemma MissingIsUncached(hashes: seq<string>, cache: map<string, Option<Version>>)
    ensures forall h :: h in Missing(hashes, cache) <==> h in hashes && h !in cache
  {
    FilterMembers(hashes, Uncached(cache));
  }

  /** ... each as often as it was requested. */
  lemma {:induction false} MissingCounts(hashes: seq<string>, cache: map<string, Option<Version>>)
    ensures forall h :: h !in cache ==> multiset(Missing(hashes, cache))[h] == multiset(hashes)[h]
  {
    if hashes != [] {
      MissingCounts(hashes[1..], cache);
      assert hashes == [hashes[0]] + hashes[1..];
    }
  }

  /** The same uncached hash asked twice is sent twice. */
  lemma MissingKeepsDuplicates(h: string, cache: map<string, Option<Version>>)
    requires h !in cache
    ensures Missing([h, h], cache) == [h, h]
  {
    assert [h][1..] == [];
    assert Filter([h], Uncached(cache)) == [h];
    assert [h, h][1..] == [h];
  }

  /** `missing[i:i + 100]` for i = 0, 100, 200, ... */
  function Batches(s: seq<string>): (bs: seq<seq<string>>)
    ensures forall i :: 0 <= i < |bs| ==> 0 < |bs[i]| <= BatchSize
    decreases |s|
  {
    if s == [] then []
    else
      var n := if |s| < BatchSize then |s| else BatchSize;
      [s[..n]] + Batches(s[n..])
  }

  function Flatten(bs: seq<seq<string>>): seq<string> {
    if bs == [] then [] else bs[0] + Flatten(bs[1..])
  }

  function Min(a: int, b: int): int {
    if a < b then a else b
  }

  /** There are ceil(n / 100) batches. */
  lemma {:induction false} BatchesCount(s: seq<string>)
    ensures |Batches(s)| == (|s| + BatchSize - 1) / BatchSize
    decreases |s|
  {
    if s != [] {
      var n := if |s| < BatchSize then |s| else BatchSize;
      BatchesCount(s[n..]);
    }
  }

  /** Together the batches are the missing list, in order. */
  lemma {:induction false} BatchesFlatten(s: seq<string>)
    ensures Flatten(Batches(s)) == s
    decreases |s|
  {
    if s != [] {
      var n := if |s| < BatchSize then |s| else BatchSize;
      BatchesFlatten(s[n..]);
      assert s == s[..n] + s[n..];
    }
  }

  lemma SliceOfSuffix(s: seq<string>, n: nat, a: nat, b: nat)
    requires n + b <= |s| && a <= b
    ensures s[n..][a..b] == s[n + a..n + b]
  {
  }

  /** Batch i is the slice of 100 starting at 100 * i, the last one shorter. */
  lemma {:induction false} BatchesAreSlices(s: seq<string>)
    ensures forall i :: 0 <= i < |Batches(s)| ==>
              BatchSize * i < |s| && Batches(s)[i] == s[BatchSize * i .. Min(BatchSize * i + BatchSize, |s|)]
    decreases |s|
  {
    if s != [] {
      var n := if |s| < BatchSize then |s| else BatchSize;
      var rest := s[n..];
      BatchesAreSlices(rest);
      var bs := Batches(s);
      assert bs == [s[..n]] + Batches(rest);
      forall i | 0 <= i < |bs|
        ensures BatchSize * i < |s| && bs[i] == s[BatchSize * i .. Min(BatchSize * i + BatchSize, |s|)]
      {
        if i > 0 {
          var a := BatchSize * (i - 1);
          var b := Min(a + BatchSize, |rest|);
          assert bs[i] == Batches(rest)[i - 1] == rest[a..b];
          assert n == BatchSize && BatchSize * i == n + a && Min(BatchSize * i + BatchSize, |s|) == n + b;
          SliceOfSuffix(s, n, a, b);
        }
      }
    }
  }

  lemma InBatch(m: seq<string>, i: nat, j: nat)
    requires i < |Batches(m)| && j < |Batches(m)[i]|
    ensures Batches(m)[i][j] in m
  {
    BatchesAreSlices(m);
    var lo := BatchSize * i;
    assert Batches(m)[i] == m[lo..Min(lo + BatchSize, |m|)];
    assert Batches(m)[i][j] == m[lo + j];
  }

  /** No batch carries a cached hash, and each carries only requested ones. */
  lemma NeverRequestsCached(hashes: seq<string>, cache: map<string, Option<Version>>)
    ensures forall b, h :: b in Batches(Missing(hashes, cache)) && h in b ==> h in hashes && h !in cache
  {
    var m := Missing(hashes, cache);
    MissingIsUncached(hashes, cache);
    forall b, h | b in Batches(m) && h in b
      ensures h in m
    {
      var i :| 0 <= i < |Batches(m)| && Batches(m)[i] == b;
      var j :| 0 <= j < |b| && b[j] == h;
      InBatch(m, i, j);
    }
  }

  // ---------------------------------------------------------------------------------------------
  // Fetching the batches

  /** `new_results.extend(...)` after earlier batches: an exception discards everything. */
  function Then(acc: seq<Version>, r: Result<seq<Version>, Error>): Result<seq<Version>, Error> {
    if r.Failure? then r else Success(acc + r.value)
  }

  /** All batches requested in order; the first failing request raises and no later one is sent. */
  function FetchBatches(api: Api, bs: seq<seq<string>>): Result<seq<Version>, Error>
    decreases |bs|
  {
    if bs == [] then Success([])
    else match GetAllByHash(api, bs[0])
      case Failure(e) => Failure(e)
      case Success(v) => Then(v, FetchBatches(api, bs[1..]))
  }

  lemma ThenNothing(r: Result<seq<Version>, Error>)
    ensures Then([], r) == r
  {
    if r.Success? {
      assert [] + r.value == r.value;
    }
  }

  lemma ThenTwice(a: seq<Version>, b: seq<Version>, r: Result<seq<Version>, Error>)
    ensures Then(a, Then(b, r)) == Then(a + b, r)
  {
    if r.Success? {
      assert a + (b + r.value) == (a + b) + r.value;
    }
  }

  /** The batches of `s[i..]` are the one at i followed by those of the rest. */
  lemma BatchesFrom(s: seq<string>, i: nat, j: nat)
    requires i < |s| && j == Min(i + BatchSize, |s|)
    ensures Batches(s[i..]) == [s[i..j]] + Batches(s[j..])
  {
    assert s[i..][..j - i] == s[i..j];
    assert s[i..][j - i..] == s[j..];
  }

  /** The batch loop: one request per batch, results concatenated in batch order. */
  method FetchMissing(api: Api, missing: seq<string>) returns (r: Result<seq<Version>, Error>)
    ensures r == FetchBatches(api, Batches(missing))
  {
    var acc: seq<Version> := [];
    var i: nat := 0;
    assert missing[0..] == missing;
    ThenNothing(FetchBatches(api, Batches(missing)));
    while i < |missing|
      invariant i <= |missing|
      invariant FetchBatches(api, Batches(missing)) == Then(acc, FetchBatches(api, Batches(missing[i..])))
    {
      var j := Min(i + BatchSize, |missing|);
      var batch := missing[i..j];
      BatchesFrom(missing, i, j);
      var got := GetAllByHash(api, batch);
      if got.Failure? {
        return Failure(got.error);
      }
      ThenTwice(acc, got.value, FetchBatches(api, Batches(missing[j..])));
      acc := acc + got.value;
      i := j;
    }
    assert missing[i..] == [];
    assert acc + [] == acc;
    return Success(acc);
  }

  // ---------------------------------------------------------------------------------------------
  // Newest first: Python's `sorted(..., key=createdAt, reverse=True)`, which is stable

  predicate NewestFirst(vs: seq<Version>) {
    forall i, j :: 0 <= i < j < |vs| ==> vs[i].createdAt >= vs[j].createdAt
  }

  function AtTime(c: int): Version -> bool {
    (v: Version) => v.createdAt == c
  }

  /** Insert v before the first element that is not newer than it. */
  function InsertNewest(v: Version, s: seq<Version>): (r: seq<Version>)
    ensures multiset(r) == multiset(s) + multiset{v}
  {
    if s == [] || v.createdAt >= s[0].createdAt then [v] + s
    else
      assert s == [s[0]] + s[1..];
      [s[0]] + InsertNewest(v, s[1..])
  }

  function SortNewest(s: seq<Version>): (r: seq<Version>)
    ensures multiset(r) == multiset(s)
  {
    if s == [] then []
    else
      assert s == [s[0]] + s[1..];
      InsertNewest(s[0], SortNewest(s[1..]))
  }

  lemma ConsOrdered(x: Version, t: seq<Version>)
    requires NewestFirst(t) && forall y :: y in t ==> y.createdAt <= x.createdAt
    ensures NewestFirst([x] + t)
  {
    var r := [x] + t;
    forall i, j | 0 <= i < j < |r|
      ensures r[i].createdAt >= r[j].createdAt
    {
      assert r[j] == t[j - 1];
      if i > 0 {
        assert r[i] == t[i - 1];
      }
    }
  }

  /** Everything in an insertion into the tail is no newer than the head. */
  lemma HeadNewest(v: Version, s: seq<Version>, t: seq<Version>)
    requires NewestFirst(s) && s != [] && v.createdAt < s[0].createdAt
    requires multiset(t) == multiset(s[1..]) + multiset{v}
    ensures forall y :: y in t ==> y.createdAt <= s[0].createdAt
  {
    forall y | y in t
      ensures y.createdAt <= s[0].createdAt
    {
      assert y in multiset(t);
      if y != v {
        assert y in multiset(s[1..]);
        var k :| 0 <= k < |s[1..]| && s[1..][k] == y;
        assert s[k + 1] == y;
      }
    }
  }

  lemma {:induction false} InsertNewestOrdered(v: Version, s: seq<Version>)
    requires NewestFirst(s)
    ensures NewestFirst(InsertNewest(v, s))
  {
    if s == [] || v.createdAt >= s[0].createdAt {
      ConsOrdered(v, s);
    } else {
      var t := InsertNewest(v, s[1..]);
      assert NewestFirst(s[1..]) by {
        assert forall i :: 0 <= i < |s[1..]| ==> s[1..][i] == s[i + 1];
      }
      InsertNewestOrdered(v, s[1..]);
      HeadNewest(v, s, t);
      ConsOrdered(s[0], t);
    }
  }

  /** The combined results come out newest first. */
  lemma {:induction false} SortNewestOrdered(s: seq<Version>)
    ensures NewestFirst(SortNewest(s))
  {
    if s != [] {
      SortNewestOrdered(s[1..]);
      InsertNewestOrdered(s[0], SortNewest(s[1..]));
    }
  }

  lemma FilterCons(x: Version, t: seq<Version>, p: Version -> bool)
    ensures Filter([x] + t, p) == (if p(x) then [x] else []) + Filter(t, p)
  {
    assert ([x] + t)[1..] == t;
  }

  /** Two neighbours that cannot both pass may trade places without changing the filter. */
  lemma FilterSwap(x: Version, y: Version, t: seq<Version>, p: Version -> bool)
    requires !(p(x) && p(y))
    ensures Filter([x] + ([y] + t), p) == Filter([y] + ([x] + t), p)
  {
    FilterCons(x, [y] + t, p);
    FilterCons(y, t, p);
    FilterCons(y, [x] + t, p);
    FilterCons(x, t, p);
  }

  lemma {:induction false} InsertNewestStable(v: Version, s: seq<Version>, c: int)
    ensures Filter(InsertNewest(v, s), AtTime(c)) == Filter([v] + s, AtTime(c))
  {
    if s != [] && v.createdAt < s[0].createdAt {
      var p := AtTime(c);
      var t := s[1..];
      InsertNewestStable(v, t, c);
      FilterCons(s[0], InsertNewest(v, t), p);
      FilterCons(s[0], [v] + t, p);
      FilterSwap(s[0], v, t, p);
      assert s == [s[0]] + t;
    }
  }

  /** Equally old records keep the order in which the batches returned them. */
  lemma {:induction false} SortNewestStable(s: seq<Version>, c: int)
    ensures Filter(SortNewest(s), AtTime(c)) == Filter(s, AtTime(c))
  {
    if s != [] {
      SortNewestStable(s[1..], c);
      InsertNewestStable(s[0], SortNewest(s[1..]), c);
      FilterCons(s[0], SortNewest(s[1..]), AtTime(c));
      FilterCons(s[0], s[1..], AtTime(c));
      assert s == [s[0]] + s[1..];
    }
  }

  // ---------------------------------------------------------------------------------------------
  // The hashes the returned files carry

  /** `file['hashes']['SHA256'].lower()`, raising KeyError on a missing key. */
  function FileHash(f: FileInfo): Result<string, Error> {
    if f.hashes.None? then Failure(MissingKey("hashes"))
    else if "SHA256" !in f.hashes.value then Failure(MissingKey("SHA256"))
    else Success(LowerStr(f.hashes.value["SHA256"]))
  }

  /** `found.add(...)` after earlier files: an exception discards the set. */
  function Add(found: set<string>, r: Result<set<string>, Error>): Result<set<string>, Error> {
    if r.Failure? then r else Success(found + r.value)
  }

  lemma AddNothing(r: Result<set<string>, Error>)
    ensures Add({}, r) == r
  {
    if r.Success? {
      assert {} + r.value == r.value;
    }
  }

  lemma AddTwice(a: set<string>, b: set<string>, r: Result<set<string>, Error>)
    ensures Add(a, Add(b, r)) == Add(a + b, r)
  {
    if r.Success? {
      assert a + (b + r.value) == (a + b) + r.value;
    }
  }

  function FilesFound(fs: seq<FileInfo>): Result<set<string>, Error> {
    if fs == [] then Success({})
    else match FileHash(fs[0])
      case Failure(e) => Failure(e)
      case Success(h) => Add({h}, FilesFound(fs[1..]))
  }

  /** Every file of every record, in iteration order. */
  function AllFiles(vs: seq<Version>): seq<FileInfo> {
    if vs == [] then [] else vs[0].files + AllFiles(vs[1..])
  }

  function FoundHashes(vs: seq<Version>): Result<set<string>, Error> {
    FilesFound(AllFiles(vs))
  }

  /** Some returned record has a file whose lowercased SHA256 is h. */
  predicate Listed(vs: seq<Version>, h: string) {
    exists v, f :: v in vs && f in v.files && FileHash(f) == Success(h)
  }

  lemma {:induction false} FilesFoundMeans(fs: seq<FileInfo>)
    ensures FilesFound(fs).Success? <==> forall f :: f in fs ==> FileHash(f).Success?
    ensures FilesFound(fs).Success? ==>
              forall h :: h in FilesFound(fs).value <==> exists f :: f in fs && FileHash(f) == Success(h)
  {
    if fs != [] {
      FilesFoundMeans(fs[1..]);
      assert fs == [fs[0]] + fs[1..];
    }
  }

  lemma {:induction false} AllFilesMeans(vs: seq<Version>)
    ensures forall f :: f in AllFiles(vs) <==> exists v :: v in vs && f in v.files
  {
    if vs != [] {
      AllFilesMeans(vs[1..]);
      assert vs == [vs[0]] + vs[1..];
    }
  }

  /** The found set is exactly the lowercased SHA256 of every returned file; it is computed only
      when every file has a `hashes` map with a SHA256 entry, and raises KeyError otherwise. */
  lemma FoundHashesMeans(vs: seq<Version>)
    ensures FoundHashes(vs).Success? <==> forall v, f :: v in vs && f in v.files ==> FileHash(f).Success?
    ensures FoundHashes(vs).Success? ==> forall h :: h in FoundHashes(vs).value <==> Listed(vs, h)
  {
    FilesFoundMeans(AllFiles(vs));
    AllFilesMeans(vs);
  }

  /** The nested loop over records and their files. */
  method CollectFound(vs: seq<Version>) returns (r: Result<set<string>, Error>)
    ensures r == FoundHashes(vs)
  {
    var found: set<string> := {};
    var i: nat := 0;
    assert vs[0..] == vs;
    AddNothing(FoundHashes(vs));
    while i < |vs|
      invariant i <= |vs|
      invariant FoundHashes(vs) == Add(found, FilesFound(AllFiles(vs[i..])))
    {
      var files := vs[i].files;
      ghost var rest := AllFiles(vs[i + 1..]);
      assert vs[i..][1..] == vs[i + 1..];
      assert files[0..] + rest == AllFiles(vs[i..]);
      var k: nat := 0;
      while k < |files|
        invariant k <= |files|
        invariant FoundHashes(vs) == Add(found, FilesFound(files[k..] + rest))
      {
        assert (files[k..] + rest)[0] == files[k];
        assert (files[k..] + rest)[1..] == files[k + 1..] + rest;
        var h := FileHash(files[k]);
        if h.Failure? {
          return Failure(h.error);
        }
        AddTwice(found, {h.value}, FilesFound(files[k + 1..] + rest));
        found := found + {h.value};
        k := k + 1;
      }
      assert files[k..] + rest == rest;
      i := i + 1;
    }
    assert AllFiles(vs[i..]) == [];
    assert found + {} == found;
    return Success(found);
  }

  // ---------------------------------------------------------------------------------------------
  // The cache writes and the whole lookup

  /** `cache[h] = None` for every h in `set(missing) - found` not yet in the cache. */
  function CacheAfter(cache: map<string, Option<Version>>, missing: seq<string>, found: set<string>)
    : (c: map<string, Option<Version>>)
    ensures forall k :: k in cache ==> k in c && c[k] == cache[k]
    ensures forall k :: k in c <==> k in cache || (k in missing && k !in found)
    ensures forall k :: k in c && k !in cache ==> c[k] == None
  {
    cache + map k | k in missing && k !in found && k !in cache :: None
  }

  datatype Outcome = Outcome(results: seq<Version>, cache: map<string, Option<Version>>)

  /** What one call returns and what the cache holds afterwards; on an exception the cache is
      left as it was. */
  function Lookup(api: Api, hashes: seq<string>, cache: map<string, Option<Version>>): Result<Outcome, Error> {
    var m := Missing(hashes, cache);
    match FetchBatches(api, Batches(m))
    case Failure(e) => Failure(e)
    case Success(vs) =>
      var sorted := SortNewest(vs);
      match FoundHashes(sorted)
      case Failure(e) => Failure(e)
      case Success(found) => Success(Outcome(sorted, CacheAfter(cache, m, found)))
  }

  /** The results are the fetched records, newest first, equally old ones in fetch order. */
  lemma LookupOrdered(api: Api, hashes: seq<string>, cache: map<string, Option<Version>>)
    requires Lookup(api, hashes, cache).Success?
    ensures var out := Lookup(api, hashes, cache).value;
      var fetched := FetchBatches(api, Batches(Missing(hashes, cache)));
      && fetched.Success?
      && NewestFirst(out.results)
      && multiset(out.results) == multiset(fetched.value)
      && forall c :: Filter(out.results, AtTime(c)) == Filter(fetched.value, AtTime(c))
  {
    var fetched := FetchBatches(api, Batches(Missing(hashes, cache)));
    SortNewestOrdered(fetched.value);
    forall c
      ensures Filter(SortNewest(fetched.value), AtTime(c)) == Filter(fetched.value, AtTime(c))
    {
      SortNewestStable(fetched.value, c);
    }
  }

  /** Existing entries are never overwritten; the only new entries are None, one for each
      requested uncached hash that no returned file carries. */
  lemma LookupCaches(api: Api, hashes: seq<string>, cache: map<string, Option<Version>>)
    requires Lookup(api, hashes, cache).Success?
    ensures var out := Lookup(api, hashes, cache).value;
      && (forall k :: k in cache ==> k in out.cache && out.cache[k] == cache[k])
      && (forall h :: h in hashes && h !in cache && !Listed(out.results, h) ==>
                        h in out.cache && out.cache[h] == None)
      && (forall k :: k in out.cache && k !in cache ==>
                        out.cache[k] == None && k in hashes && !Listed(out.results, k))
  {
    var out := Lookup(api, hashes, cache).value;
    MissingIsUncached(hashes, cache);
    FoundHashesMeans(out.results);
  }

  /** A found record is not remembered: asking again for a hash that was found sends it again. */
  lemma LookupForgetsFound(api: Api, hashes: seq<string>, cache: map<string, Option<Version>>, h: string)
    requires Lookup(api, hashes, cache).Success?
    requires h in hashes && h !in cache && Listed(Lookup(api, hashes, cache).value.results, h)
    ensures h in Missing(hashes, Lookup(api, hashes, cache).value.cache)
  {
    var out := Lookup(api, hashes, cache).value;
    MissingIsUncached(hashes, cache);
    MissingIsUncached(hashes, out.cache);
    FoundHashesMeans(out.results);
  }

  /** The persistent `civil_ai_api_sha256` cache. */
  class ApiCache {
    var entries: map<string, Option<Version>>

    constructor(entries: map<string, Option<Version>>)
      ensures this.entries == entries
    {
      this.entries := entries;
    }

    /** The write loop over `set(missing) - found`. */
    method CacheNotFound(missing: seq<string>, found: set<string>)
      modifies this
      ensures entries == CacheAfter(old(entries), missing, found)
    {
      var todo := (set h | h in missing) - found;
      ghost var all := todo;
      ghost var before := entries;
      while todo != {}
        invariant todo <= all
        invariant entries == before + map k | k in all - todo && k !in before :: None
        decreases todo
      {
        var h :| h in todo;
        if h !in entries {
          entries := entries[h := None];
        }
        todo := todo - {h};
      }
      assert all - todo == all;
    }

    method GetAllByHashWithCache(api: Api, fileHashes: seq<string>) returns (r: Result<seq<Version>, Error>)
      modifies this
      ensures var out := Lookup(api, fileHashes, old(entries));
        && (out.Failure? ==> r == Failure(out.error) && entries == old(entries))
        && (out.Success? ==> r == Success(out.value.results) && entries == out.value.cache)
    {
      var missing := Missing(fileHashes, entries);
      var fetched := FetchMissing(api, missing);
      if fetched.Failure? {
        return Failure(fetched.error);
      }
      var newResults := SortNewest(fetched.value);
      var found := CollectFound(newResults);
      if found.Failure? {
        return Failure(found.error);
      }
      CacheNotFound(missing, found.value);
      return Success(newResults);
    }
  }
}

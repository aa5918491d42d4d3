/** Retention of the diarization cache: when the cache directory holds more than
    twenty `.diar` files, the oldest are deleted so that the twenty most recently
    modified remain. */
module Cache {
  import opened Sorting

  /** A directory entry and its modification time. */
  datatype CacheFile = CacheFile(name: string, modified: real)

  /** The number of diarization files kept. */
  const Retained: nat := 20

  /** `f.endswith('.diar')` */
  predicate IsDiarization(f: CacheFile)
  {
    |f.name| >= 5 && f.name[|f.name| - 5..] == ".diar"
  }

  function ModifiedTime(f: CacheFile): real
  {
    f.modified
  }

  /** The `.diar` entries of the listing, in listing order. */
  function DiarizationFiles(listing: seq<CacheFile>): (r: seq<CacheFile>)
    ensures forall f :: f in r <==> f in listing && IsDiarization(f)
    ensures multiset(r) <= multiset(listing)
  {
    if listing == [] then []
    else
      var rest := DiarizationFiles(listing[1..]);
      assert listing == [listing[0]] + listing[1..];
      if IsDiarization(listing[0]) then [listing[0]] + rest else rest
  }

  /** The diarization files, oldest first (ties in listing order). */
  function Ordered(listing: seq<CacheFile>): seq<CacheFile>
  {
    SortBy(DiarizationFiles(listing), ModifiedTime)
  }

  /** How many files are deleted: all but twenty, or none. */
  function Excess(listing: seq<CacheFile>): (n: nat)
    ensures n <= |Ordered(listing)|
  {
    var count := |DiarizationFiles(listing)|;
    if count > Retained then count - Retained else 0
  }

  /** The files deleted: the oldest, oldest first. */
  function Pruned(listing: seq<CacheFile>): seq<CacheFile>
  {
    Ordered(listing)[..Excess(listing)]
  }

  /** The diarization files that remain. */
  function Kept(listing: seq<CacheFile>): seq<CacheFile>
  {
    Ordered(listing)[Excess(listing)..]
  }

  /** The deletion loop over `cache_files[:-20]`, returning the files deleted in
      order. */
  method PruneCache(listing: seq<CacheFile>) returns (removed: seq<CacheFile>)
    ensures removed == Pruned(listing)
  {
    var cacheFiles := DiarizationFiles(listing);
    removed := [];
    if |cacheFiles| > Retained {
      cacheFiles := SortBy(cacheFiles, ModifiedTime);
      var oldFiles := cacheFiles[..|cacheFiles| - Retained];
      var i := 0;
      while i < |oldFiles|
        invariant 0 <= i <= |oldFiles|
        invariant removed == oldFiles[..i]
      {
        removed := removed + [oldFiles[i]];
        i := i + 1;
      }
      assert oldFiles[..i] == oldFiles;
    }
  }

  /** Twenty diarization files remain, or all of them when there are fewer, and
      together with the deleted ones they are the diarization files, each once. */
  lemma PruneCounts(listing: seq<CacheFile>)
    ensures var n := |DiarizationFiles(listing)|;
      |Kept(listing)| == (if n > Retained then Retained else n)
    ensures multiset(Kept(listing)) + multiset(Pruned(listing)) == multiset(DiarizationFiles(listing))
  {
    var sorted := Ordered(listing);
    assert sorted == Pruned(listing) + Kept(listing);
  }

  /** Only diarization files are deleted. */
  lemma PruneOnlyDiarization(listing: seq<CacheFile>)
    ensures forall f :: f in Pruned(listing) ==> f in listing && IsDiarization(f)
  {
    var sorted := Ordered(listing);
    forall f | f in Pruned(listing)
      ensures f in listing && IsDiarization(f)
    {
      assert f in multiset(sorted);
    }
  }

  /** No deleted file is newer than a file that remains. */
  lemma PruneKeepsNewest(listing: seq<CacheFile>)
    ensures forall f, g :: f in Pruned(listing) && g in Kept(listing) ==> f.modified <= g.modified
  {
    var sorted := Ordered(listing);
    var cut := Excess(listing);
    forall f, g | f in Pruned(listing) && g in Kept(listing)
      ensures f.modified <= g.modified
    {
      var i :| 0 <= i < cut && sorted[i] == f;
      var k :| cut <= k < |sorted| && sorted[k] == g;
      assert ModifiedTime(sorted[i]) <= ModifiedTime(sorted[k]);
    }
  }
}

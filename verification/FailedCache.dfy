/**
 * The bounded cache of failed event ids. The cache may hold any part of the ids
 * on disk up to its limit; a miss is answered by scanning the failed journal.
 */
module FailedCache {
  import opened Basics
  import opened Codec
  import opened Framing
  import opened JournalFiles
  import opened Recovery

  const FAILED_ID_CACHE_LIMIT: nat := 100_000
  const BLOCK_BYTES: nat := 64 * 1024

  function Min(a: nat, b: nat): nat { if a <= b then a else b }

  /** The cache holds min(limit, distinct) of the recorded ids, and the counter is the distinct number. */
  ghost predicate CacheExact(ids: seq<Bytes>, cache: set<Bytes>, uniqueCount: nat, limit: nat) {
    && cache <= Elements(ids)
    && uniqueCount == |Elements(ids)|
    && |cache| == Min(limit, uniqueCount)
  }

  function IdsAt(entries: seq<IdAt>): (ids: seq<Bytes>)
    ensures |ids| == |entries|
    ensures forall i :: 0 <= i < |entries| ==> ids[i] == entries[i].id
  {
    seq(|entries|, i requires 0 <= i < |entries| => entries[i].id)
  }

  // ---------- What a scan yields ----------

  lemma IdsAtCons(entry: IdAt, entries: seq<IdAt>)
    ensures IdsAt([entry] + entries) == [entry.id] + IdsAt(entries)
    ensures IdsAt([]) == []
  {
  }

  /** A sound scan yields the decoded ids, and decoding succeeds exactly when the scan is sound. */
  lemma {:induction false} ScanDecodes(lines: seq<Bytes>, offset: nat)
    ensures DecodeFailedAll(lines).Some? <==> ScanLines(lines, offset).1
    ensures ScanLines(lines, offset).1 ==> DecodeFailedAll(lines) == Some(IdsAt(ScanLines(lines, offset).0))
  {
    hide DecodeFailed;
    if lines != [] && DecodeFailed(lines[0]).Some? {
      var next := offset + |lines[0]| + 1;
      ScanDecodes(lines[1..], next);
      IdsAtCons(IdAt(DecodeFailed(lines[0]).value, offset), ScanLines(lines[1..], next).0);
    }
  }

  /** Everything yielded before entry i is the sound scan of the lines before it, which end at its offset. */
  lemma {:induction false} ScanBefore(lines: seq<Bytes>, offset: nat, i: nat)
    requires i <= |ScanLines(lines, offset).0|
    ensures i <= |lines|
    ensures ScanLines(lines[..i], offset) == (ScanLines(lines, offset).0[..i], true)
    ensures i < |ScanLines(lines, offset).0| ==>
              i < |lines| && ScanLines(lines, offset).0[i].offset == offset + |Frame(lines[..i])|
  {
    hide DecodeFailed;
    if i > 0 {
      var (line, rest) := (lines[0], lines[1..]);
      var next := offset + |line| + 1;
      ScanBefore(rest, next, i - 1);
      assert lines[..i] == [line] + rest[..i - 1];
      ScanLinesCons(line, rest[..i - 1], offset);
      FrameCons(line, rest[..i - 1]);
      var found := ScanLines(rest, next).0;
      assert ([IdAt(DecodeFailed(line).value, offset)] + found)[..i] ==
             [IdAt(DecodeFailed(line).value, offset)] + found[..i - 1];
    }
  }

  /** Scanning up to the offset of a yielded entry gives exactly the entries before it. */
  lemma ScanPrefixOf(file: Bytes, i: nat)
    requires i < |ScanOf(file).0|
    ensures ScanOf(Bounded(file, Some(ScanOf(file).0[i].offset))) == (ScanOf(file).0[..i], Complete)
  {
    hide *;
    var lines := Lines(file);
    SplitIsFrame(file);
    ScanOfIds(file);
    ScanBefore(lines, 0, i);
    PrefixFrame(lines, i);
    var offset := |Frame(lines[..i])|;
    FrameOfPrefix(file, lines, i);
    BoundedIsPrefix(file, Some(offset));
    ScanOfExact(lines[..i]);
  }

  lemma PrefixFrame(lines: seq<Bytes>, i: nat)
    requires i <= |lines| && AllNewlineFree(lines)
    ensures AllNewlineFree(lines[..i])
  {
  }

  lemma FrameOfPrefix(file: Bytes, lines: seq<Bytes>, i: nat)
    requires i <= |lines| && Lines(file) == lines
    ensures |Frame(lines[..i])| <= |file| && file[..|Frame(lines[..i])|] == Frame(lines[..i])
  {
    hide Frame, SplitLines;
    SplitIsFrame(file);
    assert lines == lines[..i] + lines[i..];
    FrameAppend(lines[..i], lines[i..]);
  }

  lemma ScanOfExact(lines: seq<Bytes>)
    requires AllNewlineFree(lines) && ScanLines(lines, 0).1
    ensures ScanOf(Frame(lines)) == (ScanLines(lines, 0).0, Complete)
  {
    hide ScanLines;
    SplitExact(lines);
  }

  lemma ScanOfIds(file: Bytes)
    ensures ScanOf(file).0 == ScanLines(Lines(file), 0).0
  {
    hide ScanLines;
  }

  // ---------- The cache as more ids arrive ----------

  lemma CacheGrows(ids: seq<Bytes>, cache: set<Bytes>, uniqueCount: nat, limit: nat, id: Bytes)
    requires CacheExact(ids, cache, uniqueCount, limit) && id !in ids
    ensures CacheExact(ids + [id], if |cache| < limit then cache + {id} else cache, uniqueCount + 1, limit)
  {
    assert Elements(ids + [id]) == Elements(ids) + {id};
  }

  lemma CacheKeeps(ids: seq<Bytes>, cache: set<Bytes>, uniqueCount: nat, limit: nat, id: Bytes)
    requires CacheExact(ids, cache, uniqueCount, limit) && id in ids
    ensures CacheExact(ids + [id], cache, uniqueCount, limit)
  {
    assert Elements(ids + [id]) == Elements(ids);
  }

  lemma CacheWithin(ids: seq<Bytes>, cache: set<Bytes>, uniqueCount: nat, limit: nat)
    requires CacheExact(ids, cache, uniqueCount, limit)
    ensures forall id :: id in cache ==> id in ids
  {
  }

  lemma CacheEmpty(limit: nat)
    ensures CacheExact([], {}, 0, limit)
  {
    assert Elements<Bytes>([]) == {};
  }

  /** When the cache is not smaller than the counter it holds every id. */
  lemma CacheComplete(ids: seq<Bytes>, cache: set<Bytes>, uniqueCount: nat, limit: nat)
    requires CacheExact(ids, cache, uniqueCount, limit) && uniqueCount <= |cache|
    ensures cache == Elements(ids)
  {
    SubsetCardinality(cache, Elements(ids));
  }

  // ---------- Methods ----------

  /**
   * cacheFailedId: nothing but the id is added, the limit holds, and a cache that was exact
   * for some recorded ids is exact for them and the new one.
   */
  method CacheFailedId(cache: set<Bytes>, limit: nat, id: Bytes, ghost ids: seq<Bytes>, ghost uniqueCount: nat)
    returns (grown: set<Bytes>)
    ensures cache <= grown <= cache + {id}
    ensures id in grown <==> id in cache || |cache| < limit
    ensures |cache| <= limit ==> |grown| <= limit
    ensures CacheExact(ids, cache, uniqueCount, limit) && id !in ids ==>
              CacheExact(ids + [id], grown, uniqueCount + 1, limit)
  {
    hide CacheExact;
    grown := cache;
    if |cache| < limit {
      grown := cache + {id};
    }
    if CacheExact(ids, cache, uniqueCount, limit) && id !in ids {
      CacheGrows(ids, cache, uniqueCount, limit, id);
    }
  }

  /**
   * hasFailedId: the answer is membership in the ids on disk (up to the bound),
   * for every cache limit and whatever part of the ids the cache happens to hold.
   */
  method HasFailedId(file: Bytes, cache: set<Bytes>, uniqueCount: nat, id: Bytes, end: Option<nat>,
                     ghost ids: seq<Bytes>, ghost limit: nat)
    returns (found: bool)
    requires CacheExact(ids, cache, uniqueCount, limit)
    requires ScanOf(Bounded(file, end)).1 == Complete && IdsAt(ScanOf(Bounded(file, end)).0) == ids
    ensures found <==> id in ids
  {
    hide ScanOf, Bounded;
    CacheWithin(ids, cache, uniqueCount, limit);
    if id in cache {
      return true;
    }
    if uniqueCount <= |cache| {
      CacheComplete(ids, cache, uniqueCount, limit);
      return false;
    }
    var entries, finish := ScanFailedJournal(file, end, BLOCK_BYTES);
    var i := 0;
    while i < |entries|
      invariant 0 <= i <= |entries|
      invariant id !in IdsAt(entries)[..i]
    {
      if entries[i].id == id {
        assert IdsAt(entries)[i] == id;
        return true;
      }
      assert IdsAt(entries)[..i + 1] == IdsAt(entries)[..i] + [entries[i].id];
      i := i + 1;
    }
    assert IdsAt(entries)[..i] == IdsAt(entries);
    return false;
  }

  /**
   * loadFailedEventIds: every scanned id is looked up among the records before it, so
   * repeated ids of an old journal are counted once and the cache never exceeds its limit.
   */
  method LoadFailedEventIds(file: Bytes, limit: nat)
    returns (ok: bool, cache: set<Bytes>, uniqueCount: nat)
    ensures ok <==> ScanOf(file).1 == Complete
    ensures ok ==> CacheExact(IdsAt(ScanOf(file).0), cache, uniqueCount, limit)
  {
    hide *;
    BlockPositive();
    cache := {};
    uniqueCount := 0;
    var entries, finish := ScanFailedJournal(file, None, BLOCK_BYTES);
    Unbounded(file);
    CacheEmpty(limit);
    assert IdsAt(entries)[..0] == [];
    var i := 0;
    while i < |entries|
      invariant 0 <= i <= |entries|
      invariant CacheExact(IdsAt(entries)[..i], cache, uniqueCount, limit)
    {
      var entry := entries[i];
      ghost var seen := IdsAt(entries)[..i];
      ScanPrefixOf(file, i);
      assert IdsAt(entries[..i]) == seen;
      var known := HasFailedId(file, cache, uniqueCount, entry.id, Some(entry.offset), seen, limit);
      assert IdsAt(entries)[..i + 1] == seen + [entry.id];
      if !known {
        cache := CacheFailedId(cache, limit, entry.id, seen, uniqueCount);
        uniqueCount := uniqueCount + 1;
      } else {
        CacheKeeps(seen, cache, uniqueCount, limit, entry.id);
      }
      i := i + 1;
    }
    assert IdsAt(entries)[..i] == IdsAt(entries);
    ok := finish == Complete;
  }

  lemma BlockPositive()
    ensures BLOCK_BYTES > 0
  {
  }

  lemma Unbounded(file: Bytes)
    ensures Bounded(file, None) == file
  {
  }
}

/** What an upload leaves in a store: the version index is covered by the blocks that
    were there and the blocks that were added (cmd/main.c). And how a caching store
    retargets content (lib/cacheblockstore). */
module Syncing {
  import opened Prelude
  import opened LookupTables
  import opened Indexes
  import opened ContentAlgebra
  import opened MissingContent
  import opened MergeContent
  import opened CreateContent
  import opened Packing
  import opened Storages
  import HashDiff

  // ----- Validation -----

  ghost function ChunkSizesOf(v: VersionIndex, a: nat): (r: seq<nat>)
    requires VersionShape(v) && a < |v.assetSizes|
    ensures |r| == v.assetChunkCounts[a] && forall c :: 0 <= c < |r| ==> r[c] == SizeOf(v, a, c)
  {
    seq(v.assetChunkCounts[a], c requires 0 <= c < v.assetChunkCounts[a] => SizeOf(v, a, c))
  }

  /** A file whose chunks do not add up to its size. */
  ghost predicate SizeMismatch(v: VersionIndex, a: nat) {
    VersionShape(v) && a < |v.assetSizes| && !IsDirPath(v.names[a]) && Sum(ChunkSizesOf(v, a)) != v.assetSizes[a]
  }

  method ChunkedSize(v: VersionIndex, a: nat) returns (size: nat)
    requires VersionShape(v) && a < |v.assetSizes|
    ensures size == Sum(ChunkSizesOf(v, a))
  {
    hide Sum;
    size := 0;
    ghost var sizes := ChunkSizesOf(v, a);
    NothingSummed();
    assert sizes[..0] == [];
    for i := 0 to v.assetChunkCounts[a]
      invariant size == Sum(sizes[..i])
    {
      var chunkIndex := v.assetChunkIndexes[v.assetChunkIndexStarts[a] + i];
      SumTakeNext(sizes, i);
      assert HasChunk(v, a, i) && sizes[i] == v.chunkSizes[chunkIndex];
      size := size + v.chunkSizes[chunkIndex];
    }
    assert sizes[..|sizes|] == sizes;
  }

  lemma NothingSummed()
    ensures Sum([]) == 0
  {
  }

  method CountMissing(ix: ContentIndex, v: VersionIndex) returns (missing: nat)
    requires ContentOk(ix)
    ensures missing > 0 <==> exists h :: h in v.chunkHashes && h !in ix.chunkHashes
  {
    hide LookupTable.Valid, FirstMatch;
    var lookup := PutAll(ix.chunkHashes, seq(|ix.chunkHashes|, i => i));
    missing := 0;
    for i := 0 to |v.chunkHashes|
      invariant lookup.Valid() && lookup.Keys() == ix.chunkHashes
      invariant missing > 0 <==> exists h :: h in v.chunkHashes[..i] && h !in ix.chunkHashes
    {
      assert v.chunkHashes[..i + 1] == v.chunkHashes[..i] + [v.chunkHashes[i]];
      FirstMatchNone(ix.chunkHashes, v.chunkHashes[i]);
      var found := lookup.Get(v.chunkHashes[i]);
      if found.None? {
        missing := missing + 1;
      }
    }
    assert v.chunkHashes[..|v.chunkHashes|] == v.chunkHashes;
  }

  /** A size mismatch is reported before missing chunks. */
  method ValidateContent(ix: ContentIndex, v: VersionIndex) returns (err: Option<Errno>)
    requires ContentOk(ix) && VersionShape(v)
    ensures err == Some(EINVAL) <==> exists a :: SizeMismatch(v, a)
    ensures err == Some(ENOENT) <==>
            (forall a :: !SizeMismatch(v, a)) && exists h :: h in v.chunkHashes && h !in ix.chunkHashes
    ensures err == None <==> (forall a :: !SizeMismatch(v, a)) && forall h :: h in v.chunkHashes ==> h in ix.chunkHashes
  {
    hide VersionShape, ContentOk;
    var missing := CountMissing(ix, v);
    var mismatches := CountMismatches(v);
    err := None;
    if mismatches > 0 {
      err := Some(EINVAL);
    }
    if missing > 0 {
      err := if err.Some? then err else Some(ENOENT);
    }
  }

  method CountMismatches(v: VersionIndex) returns (mismatches: nat)
    requires VersionShape(v)
    ensures mismatches > 0 <==> exists a :: SizeMismatch(v, a)
  {
    mismatches := 0;
    for a := 0 to |v.assetSizes|
      invariant mismatches > 0 <==> exists b: nat :: b < a && SizeMismatch(v, b)
    {
      var size := ChunkedSize(v, a);
      assert SizeMismatch(v, a) <==> size != v.assetSizes[a] && !IsDirPath(v.names[a]);
      if size != v.assetSizes[a] && !IsDirPath(v.names[a]) {
        mismatches := mismatches + 1;
      }
    }
  }

  // ----- Uploading -----

  /** What an upload works out: the blocks to reuse, the blocks to write, and the index
      of both. */
  datatype Upload = Upload(existing: ContentIndex, missing: ContentIndex, merged: ContentIndex)

  /** The reused and the written chunks are disjoint and cover the version exactly; every
      merged pair comes from one of them. */
  ghost predicate Covers(u: Upload, store: ContentIndex, v: VersionIndex)
    requires ContentOk(store)
  {
    && ContentOk(u.existing) && ContentOk(u.missing) && ContentOk(u.merged)
    && Elems(u.existing.chunkHashes) == Elems(store.chunkHashes) * Elems(v.chunkHashes)
    && (forall p :: p in Pairs(u.existing) ==> p in Pairs(store))
    && Elems(u.missing.chunkHashes) == Elems(v.chunkHashes) - Elems(store.chunkHashes)
    && u.missing.chunkHashes == HashDiff.NotIn(v.chunkHashes, store.chunkHashes)
    && Elems(u.merged.chunkHashes) == Elems(v.chunkHashes)
    && Distinct(u.missing.chunkHashes) && DistinctHashes(Pairs(u.merged))
    && (forall p :: p in Pairs(u.merged) <==> p in Pairs(u.existing) || p in Pairs(u.missing))
  }

  /** Validates a version against what an upload merged for it. No chunk is missing, so only a
      file whose chunks do not add up is reported; the index of files has none. */
  method ValidateUpload(u: Upload, ghost store: ContentIndex, v: VersionIndex, ghost bytes: nat -> seq<byte>)
    returns (err: Option<Errno>)
    requires VersionShape(v) && ContentOk(store) && Covers(u, store, v)
    ensures err == Some(EINVAL) <==> exists a :: SizeMismatch(v, a)
    ensures err == None <==> forall a :: !SizeMismatch(v, a)
    ensures VersionDescribes(v, bytes) ==> err == None
  {
    hide Covers, VersionShape, SizeMismatch, VersionDescribes;
    AllMerged(u, store, v);
    err := ValidateContent(u.merged, v);
    if VersionDescribes(v, bytes) {
      DescribedAddsUp(v, bytes);
    }
  }

  /** No chunk of the version is missing from what an upload merged. */
  lemma AllMerged(u: Upload, store: ContentIndex, v: VersionIndex)
    requires ContentOk(store) && Covers(u, store, v)
    ensures ContentOk(u.merged) && forall h :: h in v.chunkHashes ==> h in u.merged.chunkHashes
  {
    forall h | h in v.chunkHashes
      ensures h in u.merged.chunkHashes
    {
      assert h in Elems(u.merged.chunkHashes);
    }
  }

  /** The chunks of a described file add up to its size. */
  lemma DescribedAddsUp(v: VersionIndex, bytes: nat -> seq<byte>)
    requires VersionDescribes(v, bytes)
    ensures forall a :: !SizeMismatch(v, a)
  {
    hide Flatten, Sum, Offset;
    forall a: nat | a < |v.assetSizes|
      ensures Sum(ChunkSizesOf(v, a)) == v.assetSizes[a]
    {
      var sizes, pieces := ChunkSizesOf(v, a), Pieces(v, bytes, a);
      SumIsOffset(pieces, sizes, |sizes|);
      OffsetEnds(pieces);
      assert sizes[..|sizes|] == sizes;
    }
  }

  lemma {:induction false} WithoutNothing(ps: seq<Pair>, known: set<nat>)
    requires HashSet(ps) !! known
    ensures Without(ps, known) == ps
  {
    if ps != [] {
      var last := |ps| - 1;
      assert ps == ps[..last] + [ps[last]];
      HashSetSnoc(ps[..last], ps[last]);
      WithoutNothing(ps[..last], known);
    }
  }

  /** The reused chunks, as hashes. */
  lemma ReusedChunks(store: ContentIndex, requested: set<nat>, existing: ContentIndex)
    requires ContentOk(store) && ContentOk(existing) && Pairs(existing) == KeepFirst(Pairs(store), requested)
    ensures Elems(existing.chunkHashes) == Elems(store.chunkHashes) * requested
    ensures DistinctHashes(Pairs(existing)) && forall p :: p in Pairs(existing) ==> p in Pairs(store)
    ensures |existing.chunkHashes| <= |store.chunkHashes|
  {
    KeepFirstFacts(Pairs(store), requested);
    HashSetOfIndex(store);
    HashSetOfIndex(existing);
  }

  /** The blocks of an index that lists only used blocks, once each, are at most as many
      as its chunks. */
  lemma BlocksOfChunks(ix: ContentIndex)
    requires ContentOk(ix) && Distinct(ix.blockHashes) && Elems(ix.blockHashes) == BlockSet(Pairs(ix))
    ensures |ix.blockHashes| <= |ix.chunkHashes|
  {
    HashDiff.DistinctCount(ix.blockHashes);
    BlockSetFits(Pairs(ix));
  }

  lemma {:induction false} BlockSetFits(ps: seq<Pair>)
    ensures |BlockSet(ps)| <= |ps|
  {
    if ps != [] {
      var last := |ps| - 1;
      assert ps == ps[..last] + [ps[last]];
      HashSetSnoc(ps[..last], ps[last]);
      BlockSetFits(ps[..last]);
    }
  }

  lemma DistinctFromHashes(ix: ContentIndex)
    requires ContentOk(ix) && Distinct(ix.chunkHashes)
    ensures DistinctHashes(Pairs(ix))
  {
  }

  lemma DistinctTogether(a: seq<Pair>, b: seq<Pair>)
    requires DistinctHashes(a) && DistinctHashes(b) && HashSet(a) !! HashSet(b)
    ensures DistinctHashes(a + b)
  {
    forall i, j | 0 <= i < |a| && 0 <= j < |b|
      ensures a[i].hash != b[j].hash
    {
      assert a[i] in a && b[j] in b;
      assert a[i].hash in HashSet(a) && b[j].hash in HashSet(b);
    }
  }

  /** What the store lacks of a version is what the reused chunks lack of it. */
  lemma ExistingKnows(store: ContentIndex, v: VersionIndex, existing: ContentIndex)
    requires Elems(existing.chunkHashes) == Elems(store.chunkHashes) * Elems(v.chunkHashes)
    ensures HashDiff.NotIn(v.chunkHashes, existing.chunkHashes) == HashDiff.NotIn(v.chunkHashes, store.chunkHashes)
  {
    hide HashDiff.NotIn;
    forall h | h in v.chunkHashes
      ensures h in existing.chunkHashes <==> h in store.chunkHashes
    {
      assert h in Elems(v.chunkHashes);
      assert h in existing.chunkHashes <==> h in Elems(existing.chunkHashes);
      assert h in store.chunkHashes <==> h in Elems(store.chunkHashes);
    }
    HashDiff.NotInSame(v.chunkHashes, existing.chunkHashes, store.chunkHashes);
  }

  lemma UploadCovers(store: ContentIndex, v: VersionIndex, u: Upload)
    requires ContentOk(store) && ContentOk(u.existing) && ContentOk(u.missing) && ContentOk(u.merged)
    requires Distinct(v.chunkHashes)
    requires Pairs(u.existing) == KeepFirst(Pairs(store), Elems(v.chunkHashes))
    requires u.missing.chunkHashes == HashDiff.NotIn(v.chunkHashes, u.existing.chunkHashes)
    requires Pairs(u.merged) == Pairs(u.missing) + Without(Pairs(u.existing), Elems(u.missing.chunkHashes))
    ensures Covers(u, store, v)
  {
    hide KeepFirst, Without, Pairs, HashDiff.NotIn, HashSet;
    ReusedChunks(store, Elems(v.chunkHashes), u.existing);
    HashSetOfIndex(u.existing);
    HashSetOfIndex(u.missing);
    HashSetOfIndex(u.merged);
    WithoutNothing(Pairs(u.existing), Elems(u.missing.chunkHashes));
    HashSetConcat(Pairs(u.missing), Pairs(u.existing));
    HashDiff.NotInDistinct(v.chunkHashes, u.existing.chunkHashes);
    ExistingKnows(store, v, u.existing);
    DistinctFromHashes(u.missing);
    DistinctTogether(Pairs(u.missing), Pairs(u.existing));
  }

  /** Retargets the store to the version, creates the missing content, and merges. */
  method Upsync(store: ContentIndex, v: VersionIndex, hashIdentifier: nat, lim: Limits, hashOf: seq<nat> -> nat,
                workerCount: nat)
    returns (r: Result<Upload>)
    requires ContentOk(store) && VersionShape(v) && Distinct(v.chunkHashes)
    requires NoWrap(v.chunkSizes, lim) && NoWrap(v.chunkSizes, Limits(store.maxBlockSize, store.maxChunksPerBlock))
    requires |store.chunkHashes| + |v.chunkHashes| < 0xffff_0000_0000
    ensures r.Failure? ==> r.errno == EINVAL
    ensures r.Success? <==>
            && lim.Ok() && Limits(store.maxBlockSize, store.maxChunksPerBlock).Ok()
            && (store.blockHashes == [] || v.chunkHashes == [] || store.hashIdentifier == hashIdentifier)
    ensures r.Success? ==>
              && Covers(r.value, store, v) && (v.chunkHashes != [] ==> r.value.merged.hashIdentifier == hashIdentifier)
              && exists lists :: BlockByBlock(r.value.missing, lists) && NamedBy(r.value.missing, lists, hashOf)
    ensures r.Success? ==>
              && r.value.missing.maxBlockSize == store.maxBlockSize
              && r.value.missing.maxChunksPerBlock == store.maxChunksPerBlock
              && IsPacked(r.value.missing, v, Limits(store.maxBlockSize, store.maxChunksPerBlock), hashIdentifier,
                          hashOf)
  {
    hide IsPacked, BlockByBlock, NamedBy, FlattenedFrom, MakeBlocks, NoneEmpty, NoWrap, VersionShape, KeepFirst,
         Without, HashDiff.NotIn, Covers, MergedBlocks, UniqueChunks, FirstOccurrences, BlockSet, AllOfChunk, Elems,
         Distinct, Pack;
    var created := CreateContentIndex(hashIdentifier, v, lim, hashOf);
    if created.Failure? {
      return Failure(EINVAL);
    }
    var requested := created.value;
    FirstOccurrencesOfDistinct(v.chunkHashes);
    assert requested.chunkHashes == v.chunkHashes;
    BlocksIffChunks(requested);
    var retargeted := RetargetContent(store, requested);
    if retargeted.Failure? {
      return Failure(EINVAL);
    }
    var existing := retargeted.value;
    ReusedChunks(store, Elems(requested.chunkHashes), existing);
    BlocksOfChunks(existing);
    var missing := CreateMissingContent(hashIdentifier, existing, v,
                                        Limits(existing.maxBlockSize, existing.maxChunksPerBlock), hashOf);
    if missing.Failure? {
      return Failure(EINVAL);
    }
    MissingBlockByBlock(missing.value, existing, v, hashIdentifier, hashOf);
    var merged := MergeContentIndex(existing, missing.value, workerCount);
    IdentifiersAgree(store, requested, existing, missing.value, hashIdentifier);
    var u := Upload(existing, missing.value, merged.value);
    UploadCovers(store, v, u);
    r := Success(u);
  }

  lemma MissingBlockByBlock(missing: ContentIndex, existing: ContentIndex, v: VersionIndex, hashIdentifier: nat,
                            hashOf: seq<nat> -> nat)
    requires VersionShape(v) && Distinct(v.chunkHashes)
               && Limits(existing.maxBlockSize, existing.maxChunksPerBlock).Ok()
    requires var lim := Limits(existing.maxBlockSize, existing.maxChunksPerBlock);
             var added := HashDiff.NotIn(v.chunkHashes, existing.chunkHashes);
             var cs := UniqueChunks(added, AllOfChunk(v.chunkHashes, v.chunkSizes, added),
                                    AllOfChunk(v.chunkHashes, v.chunkTags, added));
             NoneEmpty(Pack(cs, lim)) && FlattenedFrom(missing, MakeBlocks(Pack(cs, lim), hashIdentifier, hashOf))
    ensures exists lists :: BlockByBlock(missing, lists) && NamedBy(missing, lists, hashOf)
  {
    hide HashDiff.NotIn, Flatten, OwnerLists, Pack, UniqueChunks;
    var lim := Limits(existing.maxBlockSize, existing.maxChunksPerBlock);
    var added := HashDiff.NotIn(v.chunkHashes, existing.chunkHashes);
    var cs := UniqueChunks(added, AllOfChunk(v.chunkHashes, v.chunkSizes, added),
                           AllOfChunk(v.chunkHashes, v.chunkTags, added));
    var lists := HashLists(MakeBlocks(Pack(cs, lim), hashIdentifier, hashOf));
    assert BlockByBlock(missing, lists) && NamedBy(missing, lists, hashOf);
  }

  lemma BlocksIffChunks(ix: ContentIndex)
    requires ContentOk(ix) && |ix.blockHashes| <= |ix.chunkHashes|
    ensures ix.blockHashes == [] <==> ix.chunkHashes == []
  {
    if ix.chunkHashes != [] {
      assert ix.chunkBlockIndexes[0] < |ix.blockHashes|;
    }
  }

  /** What is reused and what is created carry the same hash identifier. */
  lemma IdentifiersAgree(store: ContentIndex, requested: ContentIndex, existing: ContentIndex, missing: ContentIndex,
                         hashIdentifier: nat)
    requires Compatible(store, requested) && requested.hashIdentifier == missing.hashIdentifier == hashIdentifier
    requires existing.hashIdentifier == (if store.blockHashes != [] then store else requested).hashIdentifier
    requires ContentOk(existing) && ContentOk(requested) && |existing.blockHashes| <= |existing.chunkHashes|
    requires Elems(existing.chunkHashes) == Elems(store.chunkHashes) * Elems(requested.chunkHashes)
    ensures Compatible(existing, missing)
    ensures requested.chunkHashes != [] ==>
              (if existing.blockHashes != [] then existing else missing).hashIdentifier == hashIdentifier
  {
    if requested.chunkHashes != [] {
      assert requested.chunkBlockIndexes[0] < |requested.blockHashes|;
    }
    if existing.blockHashes != [] {
      assert existing.chunkHashes[0] in Elems(existing.chunkHashes);
      assert requested.chunkHashes != [];
      assert requested.chunkBlockIndexes[0] < |requested.blockHashes|;
    }
  }

  // ----- Retargeting through a cache -----

  /** What a caching store finds of the requested chunks: exactly those that one of its
      two stores has, each with a block of that store. */
  ghost predicate FoundInEither(found: ContentIndex, local: ContentIndex, remote: ContentIndex, requested: ContentIndex)
    requires ContentOk(local) && ContentOk(remote)
  {
    && ContentOk(found)
    && Elems(found.chunkHashes) == Elems(requested.chunkHashes) * (Elems(local.chunkHashes) + Elems(remote.chunkHashes))
    && forall p :: p in Pairs(found) ==> p in Pairs(local) || p in Pairs(remote)
  }

  /** The missing blocks are those of requested chunks that are not cached. */
  lemma MissingIsTheRest(local: ContentIndex, requested: ContentIndex, cached: ContentIndex, missing: ContentIndex)
    requires ContentOk(local) && ContentOk(requested) && ContentOk(cached) && ContentOk(missing)
    requires Elems(cached.chunkHashes) == Elems(local.chunkHashes) * Elems(requested.chunkHashes)
    requires Pairs(missing) == OfBlocks(Pairs(requested), MissingBlocks(cached, requested))
    requires Elems(missing.blockHashes) == MissingBlocks(cached, requested)
    ensures Elems(requested.chunkHashes) - Elems(local.chunkHashes) <= Elems(missing.chunkHashes)
              <= Elems(requested.chunkHashes)
    ensures missing.blockHashes == [] <==> Elems(requested.chunkHashes) <= Elems(local.chunkHashes)
  {
    hide OfBlocks, Without, Pairs, BlockSet, HashSet, KeepFirst;
    var ps, known := Pairs(requested), Elems(cached.chunkHashes);
    MissingHashes(ps, known, Pairs(missing));
    NothingMissing(ps, known);
    HashSetOfIndex(requested);
    HashSetOfIndex(missing);
    if missing.blockHashes != [] {
      assert missing.blockHashes[0] in Elems(missing.blockHashes);
    }
  }

  lemma MissingHashes(ps: seq<Pair>, known: set<nat>, out: seq<Pair>)
    requires out == OfBlocks(ps, BlockSet(Without(ps, known)))
    ensures HashSet(ps) - known <= HashSet(out) <= HashSet(ps)
  {
    hide OfBlocks, Without, BlockSet;
    MissingContentCovers(ps, known, out);
  }

  lemma NothingMissing(ps: seq<Pair>, known: set<nat>)
    ensures BlockSet(Without(ps, known)) == {} <==> HashSet(ps) <= known
  {
    hide Without;
    WithoutFacts(ps, known);
    if p :| p in Without(ps, known) {
      assert p.block in BlockSet(Without(ps, known)) && p.hash in HashSet(ps);
    }
  }

  lemma EitherCombined(local: ContentIndex, remote: ContentIndex, requested: ContentIndex, cached: ContentIndex,
                       missing: ContentIndex, fetched: ContentIndex, found: ContentIndex)
    requires ContentOk(local) && ContentOk(remote) && ContentOk(requested) && ContentOk(cached) && ContentOk(fetched)
               && ContentOk(found)
    requires ContentOk(missing)
    requires Pairs(cached) == KeepFirst(Pairs(local), Elems(requested.chunkHashes))
    requires Pairs(fetched) == KeepFirst(Pairs(remote), Elems(missing.chunkHashes))
    requires Elems(requested.chunkHashes) - Elems(local.chunkHashes) <= Elems(missing.chunkHashes)
              <= Elems(requested.chunkHashes)
    requires Pairs(found) == Pairs(cached) + Pairs(fetched)
    ensures FoundInEither(found, local, remote, requested)
  {
    hide KeepFirst, Pairs, HashSet;
    ReusedChunks(local, Elems(requested.chunkHashes), cached);
    ReusedChunks(remote, Elems(missing.chunkHashes), fetched);
    HashSetConcat(Pairs(cached), Pairs(fetched));
    HashSetOfIndex(cached);
    HashSetOfIndex(fetched);
    HashSetOfIndex(found);
  }

  /** Retargets to the local store, asks the remote store for the blocks that are
      missing, and adds both answers. */
  method CacheRetarget(local: ContentIndex, remote: ContentIndex, requested: ContentIndex)
    returns (r: Result<ContentIndex>)
    requires ContentOk(local) && ContentOk(remote) && ContentOk(requested)
    requires |local.chunkHashes| + |remote.chunkHashes| < NONE
    ensures r.Failure? ==> r.errno == EINVAL
    ensures r.Failure? <==>
            || !Compatible(local, requested)
            || (!(Elems(requested.chunkHashes) <= Elems(local.chunkHashes))
                && remote.blockHashes != [] && remote.hashIdentifier != requested.hashIdentifier)
    ensures r.Success? ==> FoundInEither(r.value, local, remote, requested)
  {
    hide OfBlocks, KeepFirst, Pairs, BlockSet, MissingBlocks, Elems, FoundInEither, Distinct, ContentOk;
    var cached := RetargetContent(local, requested);
    if cached.Failure? {
      return cached;
    }
    ReusedChunks(local, Elems(requested.chunkHashes), cached.value);
    BlocksOfChunks(cached.value);
    NoBlocksWithoutChunks(local, requested, cached.value);
    var missing := GetMissingContent(requested.hashIdentifier, cached.value, requested);
    if missing.Failure? {
      return missing;
    }
    MissingIsTheRest(local, requested, cached.value, missing.value);
    if missing.value.blockHashes == [] {
      AllCached(local, remote, requested, cached.value);
      return cached;
    }
    var fetched := RetargetContent(remote, missing.value);
    if fetched.Failure? {
      return fetched;
    }
    ReusedChunks(remote, Elems(missing.value.chunkHashes), fetched.value);
    BlocksOfChunks(fetched.value);
    NoBlocksWithoutChunks(remote, missing.value, fetched.value);
    r := AddContentIndex(cached.value, fetched.value);
    if r.Success? {
      EitherCombined(local, remote, requested, cached.value, missing.value, fetched.value, r.value);
    }
  }

  /** Blocks are retargeted only from stores that have blocks, for requests that have blocks. */
  lemma NoBlocksWithoutChunks(store: ContentIndex, requested: ContentIndex, existing: ContentIndex)
    requires ContentOk(store) && ContentOk(requested) && ContentOk(existing)
               && |existing.blockHashes| <= |existing.chunkHashes|
    requires Elems(existing.chunkHashes) == Elems(store.chunkHashes) * Elems(requested.chunkHashes)
    ensures existing.blockHashes != [] ==> store.blockHashes != [] && requested.blockHashes != []
  {
    if existing.blockHashes != [] {
      assert existing.chunkHashes[0] in Elems(existing.chunkHashes);
      var i :| 0 <= i < |store.chunkHashes| && store.chunkHashes[i] == existing.chunkHashes[0];
      var j :| 0 <= j < |requested.chunkHashes| && requested.chunkHashes[j] == existing.chunkHashes[0];
      assert store.chunkBlockIndexes[i] < |store.blockHashes|
          && requested.chunkBlockIndexes[j] < |requested.blockHashes|;
    }
  }

  lemma AllCached(local: ContentIndex, remote: ContentIndex, requested: ContentIndex, cached: ContentIndex)
    requires ContentOk(local) && ContentOk(remote) && ContentOk(requested) && ContentOk(cached)
    requires Elems(cached.chunkHashes) == Elems(local.chunkHashes) * Elems(requested.chunkHashes)
    requires Elems(requested.chunkHashes) <= Elems(local.chunkHashes)
    requires forall p :: p in Pairs(cached) ==> p in Pairs(local)
    ensures FoundInEither(cached, local, remote, requested)
  {
  }
}

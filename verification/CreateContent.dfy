/** Creating content indexes from chunks, and what a store still misses of a version
    (src/longtail.c). */
module CreateContent {
  import opened Prelude
  import opened LookupTables
  import opened Indexes
  import opened Packing
  import HashDiff

  /** The index is the flattened list of these blocks. */
  ghost predicate FlattenedFrom(ix: ContentIndex, blocks: seq<BlockIndex>) {
    && ix.blockHashes == BlockHashes(blocks)
    && ix.chunkHashes == Flatten(HashLists(blocks))
    && ix.chunkBlockIndexes == Flatten(OwnerLists(HashLists(blocks)))
  }

  lemma {:induction false} FlattenedHashes(pack: seq<seq<Chunk>>, lists: seq<seq<nat>>)
    requires |lists| == |pack| && forall b :: 0 <= b < |pack| ==> lists[b] == ChunkHashes(pack[b])
    ensures Flatten(lists) == ChunkHashes(Flatten(pack))
  {
    if pack != [] {
      FlattenedHashes(pack[1..], lists[1..]);
      assert ChunkHashes(pack[0] + Flatten(pack[1..])) == ChunkHashes(pack[0]) + ChunkHashes(Flatten(pack[1..]));
    }
  }

  lemma {:induction false} FlattenedNotShorter<T>(lists: seq<seq<T>>)
    requires NoneEmpty(lists)
    ensures |lists| <= |Flatten(lists)|
  {
    if lists != [] {
      FlattenedNotShorter(lists[1..]);
    }
  }

  lemma FlattenedOwner(lists: seq<seq<nat>>, i: nat)
    requires i < |Flatten<nat>(OwnerLists<nat>(lists))|
    ensures Flatten<nat>(OwnerLists<nat>(lists))[i] < |lists|
  {
    hide Flatten, Offset;
    var os: seq<seq<nat>> := OwnerLists(lists);
    var b := PieceAt(os, i);
    PieceSlice(os, b);
    assert Flatten(os)[i] == os[b][i - Offset(os, b)];
  }

  /** Flattening the packed blocks gives every hash once, in first-occurrence order, in
      a well-formed index. */
  lemma PackedIndex(hashes: seq<nat>, sizes: seq<nat>, tags: seq<nat>, lim: Limits, hashIdentifier: nat,
                    hashOf: seq<nat> -> nat, ix: ContentIndex)
    requires |hashes| == |sizes| == |tags| < NONE && lim.Ok()
    requires NoneEmpty(Pack(UniqueChunks(hashes, sizes, tags), lim))
    requires FlattenedFrom(ix, MakeBlocks(Pack(UniqueChunks(hashes, sizes, tags), lim), hashIdentifier, hashOf))
    ensures ContentOk(ix) && ix.chunkHashes == At(hashes, FirstOccurrences(hashes))
    ensures |ix.blockHashes| <= |ix.chunkHashes|
  {
    hide Flatten, Pack, FirstOccurrences, OwnerLists;
    var pack := Pack(UniqueChunks(hashes, sizes, tags), lim);
    var lists := HashLists(MakeBlocks(pack, hashIdentifier, hashOf));
    PackPartitions(UniqueChunks(hashes, sizes, tags), lim);
    FlattenedHashes(pack, lists);
    FlattenedNotShorter(pack);
    SameOffsets(lists, OwnerLists(lists), |lists|);
    OffsetEnds(lists);
    OffsetEnds(OwnerLists(lists));
    forall i | 0 <= i < |ix.chunkBlockIndexes|
      ensures ix.chunkBlockIndexes[i] < |ix.blockHashes|
    {
      FlattenedOwner(lists, i);
    }
  }

  /** The blocks of the index take chunks of the version, with their sizes and tags, as long as
      they fit. */
  ghost predicate IsPacked(ix: ContentIndex, v: VersionIndex, lim: Limits, hashIdentifier: nat,
                           hashOf: seq<nat> -> nat)
    requires VersionShape(v)
  {
    exists blocks ::
      && IsGreedy(blocks, lim) && FlattenedFrom(ix, MakeBlocks(blocks, hashIdentifier, hashOf))
      && forall c :: c in Flatten(blocks) ==> IsListed(c, v.chunkHashes, v.chunkSizes, v.chunkTags)
  }

  lemma PackIsPacked(ix: ContentIndex, v: VersionIndex, cs: seq<Chunk>, lim: Limits, hashIdentifier: nat,
                     hashOf: seq<nat> -> nat)
    requires VersionShape(v) && lim.Ok() && NoneEmpty(Pack(cs, lim))
    requires FlattenedFrom(ix, MakeBlocks(Pack(cs, lim), hashIdentifier, hashOf))
    requires forall c :: c in cs ==> IsListed(c, v.chunkHashes, v.chunkSizes, v.chunkTags)
    ensures IsPacked(ix, v, lim, hashIdentifier, hashOf)
  {
    hide FlattenedFrom, IsListed, Pack;
    PackIff(cs, Pack(cs, lim), lim);
  }

  /** Packs the chunks and flattens the blocks. */
  method CreateContentIndexRaw(hashIdentifier: nat, hashes: seq<nat>, sizes: seq<nat>, tags: seq<nat>, lim: Limits,
                               hashOf: seq<nat> -> nat) returns (r: Result<ContentIndex>)
    requires |hashes| == |sizes| == |tags| < NONE && NoWrap(sizes, lim)
    ensures r == Failure(EINVAL) <==> hashes != [] && !lim.Ok()
    ensures r.Failure? ==> r.errno == EINVAL
    ensures r.Success? ==>
              && ContentOk(r.value) && r.value.hashIdentifier == hashIdentifier
              && r.value.maxBlockSize == lim.maxBlockSize && r.value.maxChunksPerBlock == lim.maxChunksPerBlock
              && r.value.chunkHashes == At(hashes, FirstOccurrences(hashes))
              && |r.value.blockHashes| <= |r.value.chunkHashes|
    ensures r.Success? && lim.Ok() ==>
              && NoneEmpty(Pack(UniqueChunks(hashes, sizes, tags), lim))
              && FlattenedFrom(r.value,
                               MakeBlocks(Pack(UniqueChunks(hashes, sizes, tags), lim), hashIdentifier, hashOf))
  {
    hide Flatten, UniqueChunks, MakeBlocks, NoneEmpty, NoWrap;
    if hashes != [] && !lim.Ok() {
      return Failure(EINVAL);
    }
    if hashes == [] {
      var ix := ContentIndex(hashIdentifier, lim.maxBlockSize, lim.maxChunksPerBlock, [], [], []);
      NoChunks(sizes, tags, lim, hashIdentifier, hashOf, ix);
      return Success(ix);
    }
    var blocks := PackBlocks(hashes, sizes, tags, lim, hashIdentifier, hashOf);
    MadeAlike(blocks, Pack(UniqueChunks(hashes, sizes, tags), lim), hashIdentifier, hashOf);
    r := CreateContentIndexFromBlocks(lim, blocks);
    PackedIndex(hashes, sizes, tags, lim, hashIdentifier, hashOf, r.value);
    SomePacked(hashes, blocks, r.value);
  }

  /** Blocks that one hash function made agree on it. */
  lemma MadeAlike(blocks: seq<BlockIndex>, pack: seq<seq<Chunk>>, hashIdentifier: nat, hashOf: seq<nat> -> nat)
    requires NoneEmpty(pack) && blocks == MakeBlocks(pack, hashIdentifier, hashOf)
    ensures SameIdentifiers(blocks) && forall b :: 0 <= b < |blocks| ==> blocks[b].hashIdentifier == hashIdentifier
  {
  }

  lemma SomePacked(hashes: seq<nat>, blocks: seq<BlockIndex>, ix: ContentIndex)
    requires hashes != [] && FlattenedFrom(ix, blocks) && ix.chunkHashes == At(hashes, FirstOccurrences(hashes))
    ensures blocks != []
  {
    hide FirstOccurrences;
    FirstOccurrencesUnique(hashes);
    assert hashes[0] in Elems(hashes) && hashes[0] in Elems(ix.chunkHashes);
  }

  lemma NoChunks(sizes: seq<nat>, tags: seq<nat>, lim: Limits, hashIdentifier: nat, hashOf: seq<nat> -> nat,
                 ix: ContentIndex)
    requires sizes == tags == [] && ix.blockHashes == ix.chunkHashes == ix.chunkBlockIndexes == []
    ensures At<nat>([], FirstOccurrences([])) == [] && UniqueChunks([], sizes, tags) == []
    ensures NoneEmpty(Pack([], lim)) && FlattenedFrom(ix, MakeBlocks(Pack([], lim), hashIdentifier, hashOf))
  {
  }

  /** The content index of all chunks of a version. */
  method CreateContentIndex(hashIdentifier: nat, v: VersionIndex, lim: Limits, hashOf: seq<nat> -> nat)
    returns (r: Result<ContentIndex>)
    requires VersionShape(v) && NoWrap(v.chunkSizes, lim)
    ensures r == Failure(EINVAL) <==> !lim.Ok()
    ensures r.Failure? ==> r.errno == EINVAL
    ensures r.Success? ==>
              && ContentOk(r.value) && r.value.hashIdentifier == hashIdentifier
              && r.value.maxBlockSize == lim.maxBlockSize && r.value.maxChunksPerBlock == lim.maxChunksPerBlock
              && r.value.chunkHashes == At(v.chunkHashes, FirstOccurrences(v.chunkHashes))
              && |r.value.blockHashes| <= |r.value.chunkHashes|
              && NoneEmpty(Pack(UniqueChunks(v.chunkHashes, v.chunkSizes, v.chunkTags), lim))
              && FlattenedFrom(r.value,
                               MakeBlocks(Pack(UniqueChunks(v.chunkHashes, v.chunkSizes, v.chunkTags), lim),
                                          hashIdentifier, hashOf))
              && IsPacked(r.value, v, lim, hashIdentifier, hashOf)
  {
    hide FlattenedFrom, MakeBlocks, NoneEmpty, NoWrap, ContentOk, VersionShape, IsListed, IsPacked, UniqueChunks, Pack,
         FirstOccurrences;
    if !lim.Ok() {
      return Failure(EINVAL);
    }
    VersionArrays(v);
    r := CreateContentIndexRaw(hashIdentifier, v.chunkHashes, v.chunkSizes, v.chunkTags, lim, hashOf);
    UniqueAreListed(v.chunkHashes, v.chunkSizes, v.chunkTags);
    PackIsPacked(r.value, v, UniqueChunks(v.chunkHashes, v.chunkSizes, v.chunkTags), lim, hashIdentifier, hashOf);
  }

  lemma VersionArrays(v: VersionIndex)
    requires VersionShape(v)
    ensures |v.chunkHashes| == |v.chunkSizes| == |v.chunkTags| < NONE
  {
  }

  /** The value a version keeps beside a chunk hash: that of its first entry. */
  function OfChunk(hashes: seq<nat>, values: seq<nat>, h: nat): nat
    requires |hashes| == |values| && h in hashes
  {
    FirstMatchNone(hashes, h);
    values[FirstMatch(hashes, h)]
  }

  function AllOfChunk(hashes: seq<nat>, values: seq<nat>, hs: seq<nat>): (r: seq<nat>)
    requires |hashes| == |values| && forall h :: h in hs ==> h in hashes
    ensures |r| == |hs| && forall k :: 0 <= k < |r| ==> r[k] == OfChunk(hashes, values, hs[k])
  {
    seq(|hs|, k requires 0 <= k < |hs| => OfChunk(hashes, values, hs[k]))
  }

  /** Looks up sizes and tags of the added chunks. */
  method CollectChunkInfo(v: VersionIndex, added: seq<nat>) returns (sizes: seq<nat>, tags: seq<nat>)
    requires VersionShape(v) && forall h :: h in added ==> h in v.chunkHashes
    ensures sizes == AllOfChunk(v.chunkHashes, v.chunkSizes, added)
    ensures tags == AllOfChunk(v.chunkHashes, v.chunkTags, added)
  {
    hide LookupTable.Valid, FirstMatch;
    var lookup := PutAll(v.chunkHashes, seq(|v.chunkHashes|, i => i));
    sizes, tags := [], [];
    for j := 0 to |added|
      invariant lookup.Valid() && lookup.Keys() == v.chunkHashes && lookup.Values() == seq(|v.chunkHashes|, i => i)
      invariant sizes == AllOfChunk(v.chunkHashes, v.chunkSizes, added)[..j]
      invariant tags == AllOfChunk(v.chunkHashes, v.chunkTags, added)[..j]
    {
      FirstMatchNone(v.chunkHashes, added[j]);
      var index := lookup.Get(added[j]);
      sizes, tags := sizes + [v.chunkSizes[index.value]], tags + [v.chunkTags[index.value]];
    }
  }

  /** The content index of the chunks of a version that an index does not hold. */
  method CreateMissingContent(hashIdentifier: nat, content: ContentIndex, v: VersionIndex, lim: Limits,
                              hashOf: seq<nat> -> nat)
    returns (r: Result<ContentIndex>)
    requires ContentOk(content) && VersionShape(v) && Distinct(v.chunkHashes) && NoWrap(v.chunkSizes, lim)
    ensures r == Failure(EINVAL) <==> !lim.Ok()
    ensures r.Failure? ==> r.errno == EINVAL
    ensures r.Success? ==>
              && ContentOk(r.value) && r.value.hashIdentifier == hashIdentifier
              && r.value.maxBlockSize == lim.maxBlockSize && r.value.maxChunksPerBlock == lim.maxChunksPerBlock
              && r.value.chunkHashes == HashDiff.NotIn(v.chunkHashes, content.chunkHashes)
              && |r.value.blockHashes| <= |r.value.chunkHashes|
    ensures r.Success? ==>
              var added := HashDiff.NotIn(v.chunkHashes, content.chunkHashes);
              var cs := UniqueChunks(added, AllOfChunk(v.chunkHashes, v.chunkSizes, added),
                                     AllOfChunk(v.chunkHashes, v.chunkTags, added));
              NoneEmpty(Pack(cs, lim)) && FlattenedFrom(r.value, MakeBlocks(Pack(cs, lim), hashIdentifier, hashOf))
    ensures r.Success? ==> IsPacked(r.value, v, lim, hashIdentifier, hashOf)
  {
    hide HashDiff.NotIn, FlattenedFrom, UniqueChunks, MakeBlocks, NoneEmpty, ContentOk, FirstOccurrences, Distinct,
         NoWrap, IsListed, IsPacked, Pack;
    if !lim.Ok() {
      return Failure(EINVAL);
    }
    var added := AddedHashes(content, v);
    FirstOccurrencesOfDistinct(added);
    var sizes, tags := CollectChunkInfo(v, added);
    SizesStayBelow(v, added, sizes, lim);
    r := CreateContentIndexRaw(hashIdentifier, added, sizes, tags, lim, hashOf);
    AddedAreListed(v, added);
    PackIsPacked(r.value, v, UniqueChunks(added, sizes, tags), lim, hashIdentifier, hashOf);
  }

  /** What is looked up for the added chunks is what the version keeps for them. */
  lemma AddedAreListed(v: VersionIndex, added: seq<nat>)
    requires VersionShape(v) && forall h :: h in added ==> h in v.chunkHashes
    ensures var cs := UniqueChunks(added, AllOfChunk(v.chunkHashes, v.chunkSizes, added),
                                   AllOfChunk(v.chunkHashes, v.chunkTags, added));
            forall c :: c in cs ==> IsListed(c, v.chunkHashes, v.chunkSizes, v.chunkTags)
  {
    hide UniqueChunks, VersionShape;
    VersionArrays(v);
    var sizes, tags := AllOfChunk(v.chunkHashes, v.chunkSizes, added), AllOfChunk(v.chunkHashes, v.chunkTags, added);
    UniqueAreListed(added, sizes, tags);
    forall c | c in UniqueChunks(added, sizes, tags)
      ensures IsListed(c, v.chunkHashes, v.chunkSizes, v.chunkTags)
    {
      var k :| 0 <= k < |added| && IsListedAt(c, added, sizes, tags, k);
      FirstMatchNone(v.chunkHashes, added[k]);
      assert IsListedAt(c, v.chunkHashes, v.chunkSizes, v.chunkTags, FirstMatch(v.chunkHashes, added[k]));
    }
  }

  method AddedHashes(content: ContentIndex, v: VersionIndex) returns (added: seq<nat>)
    requires VersionShape(v) && Distinct(v.chunkHashes)
    ensures added == HashDiff.NotIn(v.chunkHashes, content.chunkHashes) && Distinct(added)
  {
    hide HashDiff.NotIn, Elems;
    var addedHashes := new nat[|v.chunkHashes|];
    HashDiff.DifferenceOfDistinct(v.chunkHashes, content.chunkHashes);
    HashDiff.NotInDistinct(v.chunkHashes, content.chunkHashes);
    var addedCount, _ := HashDiff.DiffHashes(content.chunkHashes, v.chunkHashes, addedHashes, null);
    added := addedHashes[..addedCount];
  }

  lemma SizesStayBelow(v: VersionIndex, added: seq<nat>, sizes: seq<nat>, lim: Limits)
    requires VersionShape(v) && NoWrap(v.chunkSizes, lim) && forall h :: h in added ==> h in v.chunkHashes
    requires sizes == AllOfChunk(v.chunkHashes, v.chunkSizes, added)
    ensures NoWrap(sizes, lim) && |added| == |sizes|
  {
    forall k | 0 <= k < |sizes|
      ensures sizes[k] < 0x8000_0000
    {
      FirstMatchNone(v.chunkHashes, added[k]);
      assert sizes[k] == v.chunkSizes[FirstMatch(v.chunkHashes, added[k])];
    }
  }

  // ----- The content of a difference -----

  /** The chunk indexes of the first n chunks of an asset. */
  ghost function RefsOf(v: VersionIndex, a: nat, n: nat): (refs: seq<nat>)
    requires VersionShape(v) && a < |v.names| && n <= v.assetChunkCounts[a]
    ensures |refs| == n && forall c :: 0 <= c < n ==> HasChunk(v, a, c) && refs[c] == ChunkOf(v, a, c)
  {
    seq(n, c requires 0 <= c < n => ChunkOf(v, a, c))
  }

  /** The chunk indexes of the assets of a list, asset by asset. */
  ghost function AllRefs(v: VersionIndex, list: seq<nat>): (refs: seq<nat>)
    requires VersionShape(v) && forall k :: 0 <= k < |list| ==> list[k] < |v.names|
    ensures forall k :: 0 <= k < |refs| ==> refs[k] < |v.chunkHashes|
  {
    if list == [] then []
    else
      var last := |list| - 1;
      AllRefs(v, list[..last]) + RefsOf(v, list[last], v.assetChunkCounts[list[last]])
  }

  lemma AllRefsSnoc(v: VersionIndex, list: seq<nat>, a: nat)
    requires VersionShape(v) && (forall k :: 0 <= k < |list| ==> list[k] < |v.names|) && a < |v.names|
    ensures AllRefs(v, list + [a]) == AllRefs(v, list) + RefsOf(v, a, v.assetChunkCounts[a])
  {
    assert (list + [a])[..|list|] == list;
  }

  /** A chunk of an asset of the list is referred to. */
  lemma {:induction false} ChunkReferred(v: VersionIndex, list: seq<nat>, n: nat, c: nat)
    requires VersionShape(v) && (forall k :: 0 <= k < |list| ==> list[k] < |v.names|) && n < |list|
    requires c < v.assetChunkCounts[list[n]]
    ensures HashOf(v, list[n], c) in Elems(At(v.chunkHashes, AllRefs(v, list)))
  {
    hide Elems;
    var last := |list| - 1;
    var before := AllRefs(v, list[..last]);
    assert HasChunk(v, list[n], c);
    var hashes := At(v.chunkHashes, AllRefs(v, list));
    if n < last {
      ChunkReferred(v, list[..last], n, c);
      assert At(v.chunkHashes, before) == hashes[..|before|];
      InPrefix(hashes, |before|, HashOf(v, list[n], c));
    } else {
      assert hashes[|before| + c] == HashOf(v, list[n], c);
      ElementIn(hashes, |before| + c);
    }
  }

  /** The hash is that of a chunk of an asset of the list. */
  ghost predicate InAssets(v: VersionIndex, list: seq<nat>, h: nat)
    requires VersionShape(v) && forall k :: 0 <= k < |list| ==> list[k] < |v.names|
  {
    exists n: nat, c: nat :: n < |list| && HasChunk(v, list[n], c) && HashOf(v, list[n], c) == h
  }

  /** Nothing else is referred to. */
  lemma {:induction false} ReferredIsChunk(v: VersionIndex, list: seq<nat>, k: nat)
    requires VersionShape(v) && (forall n :: 0 <= n < |list| ==> list[n] < |v.names|) && k < |AllRefs(v, list)|
    ensures InAssets(v, list, v.chunkHashes[AllRefs(v, list)[k]])
  {
    hide VersionShape;
    var last := |list| - 1;
    var before, h := AllRefs(v, list[..last]), v.chunkHashes[AllRefs(v, list)[k]];
    if k < |before| {
      ReferredIsChunk(v, list[..last], k);
      var n: nat, c: nat :| n < last && HasChunk(v, list[..last][n], c) && HashOf(v, list[..last][n], c) == h;
      assert list[..last][n] == list[n];
    } else {
      assert HasChunk(v, list[last], k - |before|) && HashOf(v, list[last], k - |before|) == h;
    }
  }

  /** The referred chunks are those of the assets. */
  lemma ReferredIff(v: VersionIndex, list: seq<nat>, h: nat)
    requires VersionShape(v) && forall k :: 0 <= k < |list| ==> list[k] < |v.names|
    ensures h in ChunkHashes(ReferredChunks(v, AllRefs(v, list))) <==> InAssets(v, list, h)
  {
    hide ReferredChunks, AllRefs, VersionShape;
    var refs := AllRefs(v, list);
    var hashes := At(v.chunkHashes, refs);
    KnownIff(hashes, ChunkHashes(ReferredChunks(v, refs)), h);
    if h in hashes {
      var k :| 0 <= k < |hashes| && hashes[k] == h;
      ReferredIsChunk(v, list, k);
    }
    if n: nat, c: nat :| n < |list| && HasChunk(v, list[n], c) && HashOf(v, list[n], c) == h {
      ChunkReferred(v, list, n, c);
      assert h in Elems(hashes);
    }
  }

  lemma ElementIn(s: seq<nat>, k: nat)
    requires k < |s|
    ensures s[k] in Elems(s)
  {
  }

  lemma InPrefix(s: seq<nat>, n: nat, x: nat)
    requires n <= |s| && x in Elems(s[..n])
    ensures x in Elems(s)
  {
  }

  /** The chunks that a difference refers to, each at its first reference. */
  ghost function ReferredChunks(v: VersionIndex, refs: seq<nat>): (cs: seq<Chunk>)
    requires VersionShape(v) && forall k :: 0 <= k < |refs| ==> refs[k] < |v.chunkHashes|
    ensures Distinct(ChunkHashes(cs)) && Elems(ChunkHashes(cs)) == Elems(At(v.chunkHashes, refs))
  {
    FirstOccurrencesUnique(At(v.chunkHashes, refs));
    UniqueChunks(At(v.chunkHashes, refs), At(v.chunkSizes, refs), At(v.chunkTags, refs))
  }

  lemma ReferredNext(v: VersionIndex, refs: seq<nat>, i: nat)
    requires VersionShape(v) && (forall k :: 0 <= k < |refs| ==> refs[k] < |v.chunkHashes|) && i < |v.chunkHashes|
    ensures ReferredChunks(v, refs + [i]) ==
            ReferredChunks(v, refs) +
            if v.chunkHashes[i] in ChunkHashes(ReferredChunks(v, refs)) then []
            else [Chunk(v.chunkHashes[i], v.chunkSizes[i], v.chunkTags[i])]
  {
    hide FirstOccurrences;
    var hashes, now := At(v.chunkHashes, refs), At(v.chunkHashes, refs + [i]);
    assert now[..|refs|] == hashes && now[..|refs| + 1] == now;
    NextOccurrence(now, |refs|);
    KnownIff(hashes, ChunkHashes(ReferredChunks(v, refs)), v.chunkHashes[i]);
  }

  lemma KnownIff(hashes: seq<nat>, unique: seq<nat>, h: nat)
    requires Elems(unique) == Elems(hashes)
    ensures h in hashes <==> h in unique
  {
    assert h in hashes <==> h in Elems(hashes);
    assert h in unique <==> h in Elems(unique);
  }

  /** The three arrays list these chunks, and the table knows their hashes. */
  ghost predicate Collected(v: VersionIndex, refs: seq<nat>, table: LookupTable, hashes: seq<nat>, sizes: seq<nat>,
                            tags: seq<nat>)
    reads table, table.Repr
    requires VersionShape(v) && forall k :: 0 <= k < |refs| ==> refs[k] < |v.chunkHashes|
  {
    && table.Valid() && table.keys.Length == |v.chunkHashes| && table.Keys() == hashes
    && |hashes| == |sizes| == |tags| == |ReferredChunks(v, refs)|
    && forall k :: 0 <= k < |hashes| ==> Chunk(hashes[k], sizes[k], tags[k]) == ReferredChunks(v, refs)[k]
  }

  /** There is room for a hash that is not known yet. */
  lemma RoomForMore(v: VersionIndex, refs: seq<nat>, i: nat)
    requires VersionShape(v) && (forall k :: 0 <= k < |refs| ==> refs[k] < |v.chunkHashes|) && i < |v.chunkHashes|
    ensures var known := ChunkHashes(ReferredChunks(v, refs));
            v.chunkHashes[i] in known || |known| < |v.chunkHashes|
  {
    hide ReferredChunks, VersionShape;
    var known, h := ChunkHashes(ReferredChunks(v, refs)), v.chunkHashes[i];
    HashDiff.DistinctCount(known);
    ElemsFit(v.chunkHashes);
    if h !in known {
      assert h in Elems(v.chunkHashes) && h !in Elems(known);
      assert Elems(known) <= Elems(v.chunkHashes) - {h};
      FewerElems(Elems(known), Elems(v.chunkHashes) - {h});
    }
  }

  /** Adds the chunk at an index, unless its hash is known. */
  method CollectChunk(v: VersionIndex, i: nat, table: LookupTable, hashes: seq<nat>, sizes: seq<nat>, tags: seq<nat>,
                      ghost refs: seq<nat>) returns (hashes': seq<nat>, sizes': seq<nat>, tags': seq<nat>)
    requires VersionShape(v) && (forall k :: 0 <= k < |refs| ==> refs[k] < |v.chunkHashes|) && i < |v.chunkHashes|
    requires Collected(v, refs, table, hashes, sizes, tags)
    modifies table.Repr
    ensures Collected(v, refs + [i], table, hashes', sizes', tags')
  {
    hide LookupTable.Valid, ReferredChunks, FirstMatch, LookupTable.FirstWins;
    hashes', sizes', tags' := hashes, sizes, tags;
    ghost var known := ChunkHashes(ReferredChunks(v, refs));
    assert known == hashes;
    RoomForMore(v, refs, i);
    ReferredNext(v, refs, i);
    var existing := table.PutUnique(v.chunkHashes[i], |hashes|);
    if existing == None {
      hashes', sizes', tags' := hashes + [v.chunkHashes[i]], sizes + [v.chunkSizes[i]], tags + [v.chunkTags[i]];
    }
  }

  /** Adds the chunks of these assets. */
  method CollectAssets(v: VersionIndex, list: seq<nat>, table: LookupTable, hashes: seq<nat>, sizes: seq<nat>,
                       tags: seq<nat>, ghost before: seq<nat>)
    returns (hashes': seq<nat>, sizes': seq<nat>, tags': seq<nat>)
    requires VersionShape(v) && (forall k :: 0 <= k < |before| ==> before[k] < |v.names|)
    requires (forall k :: 0 <= k < |list| ==> list[k] < |v.names|)
    requires Collected(v, AllRefs(v, before), table, hashes, sizes, tags)
    modifies table.Repr
    ensures Collected(v, AllRefs(v, before + list), table, hashes', sizes', tags')
  {
    hide AllRefs, Collected, VersionShape, ReferredChunks;
    hashes', sizes', tags' := hashes, sizes, tags;
    assert before + list[..0] == before;
    for k := 0 to |list|
      invariant Collected(v, AllRefs(v, before + list[..k]), table, hashes', sizes', tags')
    {
      var a := list[k];
      ghost var refs := AllRefs(v, before + list[..k]);
      AllRefsSnoc(v, before + list[..k], a);
      assert before + list[..k + 1] == before + list[..k] + [a];
      assert refs + RefsOf(v, a, 0) == refs;
      ShapeOfAsset(v, a);
      for c := 0 to v.assetChunkCounts[a]
          invariant Collected(v, refs + RefsOf(v, a, c), table, hashes', sizes', tags')
      {
        assert HasChunk(v, a, c);
        assert refs + RefsOf(v, a, c + 1) == refs + RefsOf(v, a, c) + [ChunkOf(v, a, c)];
        hashes', sizes', tags' := CollectChunk(v, ChunkOf(v, a, c), table, hashes', sizes', tags',
                                               refs + RefsOf(v, a, c));
      }
    }
    assert list[..|list|] == list;
  }

  lemma ShapeOfAsset(v: VersionIndex, a: nat)
    requires VersionShape(v) && a < |v.names|
    ensures |v.assetChunkCounts| == |v.names|
  {
  }

  /** The content index of the chunks of the assets that a difference adds or modifies. */
  method CreateContentIndexFromDiff(hashIdentifier: nat, v: VersionIndex, added: seq<nat>, modified: seq<nat>,
                                    lim: Limits, hashOf: seq<nat> -> nat) returns (r: Result<ContentIndex>)
    requires VersionShape(v) && NoWrap(v.chunkSizes, lim)
    requires forall k :: 0 <= k < |added + modified| ==> (added + modified)[k] < |v.names|
    ensures r == Failure(EINVAL) <==> v.chunkHashes != [] && !lim.Ok()
    ensures r.Failure? ==> r.errno == EINVAL
    ensures r.Success? ==>
              && ContentOk(r.value) && r.value.hashIdentifier == hashIdentifier
              && r.value.maxBlockSize == lim.maxBlockSize && r.value.maxChunksPerBlock == lim.maxChunksPerBlock
              && r.value.chunkHashes == ChunkHashes(ReferredChunks(v, AllRefs(v, added + modified)))
              && |r.value.blockHashes| <= |r.value.chunkHashes|
    ensures r.Success? && lim.Ok() ==>
              var cs := ReferredChunks(v, AllRefs(v, added + modified));
              NoneEmpty(Pack(cs, lim)) && FlattenedFrom(r.value, MakeBlocks(Pack(cs, lim), hashIdentifier, hashOf))
    ensures r.Success? ==>
              && Distinct(r.value.chunkHashes)
              && forall h :: h in r.value.chunkHashes <==> InAssets(v, added + modified, h)
    ensures r.Success? && lim.Ok() && Distinct(v.chunkHashes) ==> IsPacked(r.value, v, lim, hashIdentifier, hashOf)
  {
    hide AllRefs, Collected, VersionShape, FlattenedFrom, MakeBlocks, NoneEmpty, NoWrap, ContentOk, ReferredChunks,
         FirstOccurrences, UniqueChunks, Pack, IsListed, IsPacked, Distinct, At, InAssets;
    if v.chunkHashes != [] && !lim.Ok() {
      return Failure(EINVAL);
    }
    ghost var all := added + modified;
    assert forall k :: 0 <= k < |added| ==> added[k] == all[k];
    assert forall k :: 0 <= k < |modified| ==> modified[k] == all[|added| + k];
    VersionArrays(v);
    var table := new LookupTable(|v.chunkHashes|);
    NothingCollected(v, table);
    var hashes, sizes, tags := CollectAssets(v, added, table, [], [], [], []);
    assert [] + added == added;
    hashes, sizes, tags := CollectAssets(v, modified, table, hashes, sizes, tags, added);
    CollectedChunks(v, AllRefs(v, all), table, hashes, sizes, tags, lim);
    r := CreateContentIndexRaw(hashIdentifier, hashes, sizes, tags, lim, hashOf);
    AllReferred(v, all);
    if r.Success? && lim.Ok() {
      ReferredIsPacked(r.value, v, AllRefs(v, all), lim, hashIdentifier, hashOf);
    }
  }

  lemma AllReferred(v: VersionIndex, list: seq<nat>)
    requires VersionShape(v) && forall k :: 0 <= k < |list| ==> list[k] < |v.names|
    ensures var hashes := ChunkHashes(ReferredChunks(v, AllRefs(v, list)));
            Distinct(hashes) && forall h :: h in hashes <==> InAssets(v, list, h)
  {
    hide VersionShape, ReferredChunks, AllRefs, Distinct, InAssets;
    forall h
      ensures h in ChunkHashes(ReferredChunks(v, AllRefs(v, list))) <==> InAssets(v, list, h)
    {
      ReferredIff(v, list, h);
    }
  }

  lemma ReferredIsPacked(ix: ContentIndex, v: VersionIndex, refs: seq<nat>, lim: Limits, hashIdentifier: nat,
                         hashOf: seq<nat> -> nat)
    requires VersionShape(v) && (forall k :: 0 <= k < |refs| ==> refs[k] < |v.chunkHashes|) && lim.Ok()
    requires NoneEmpty(Pack(ReferredChunks(v, refs), lim))
    requires FlattenedFrom(ix, MakeBlocks(Pack(ReferredChunks(v, refs), lim), hashIdentifier, hashOf))
    ensures Distinct(v.chunkHashes) ==> IsPacked(ix, v, lim, hashIdentifier, hashOf)
  {
    hide VersionShape, ReferredChunks, FlattenedFrom, MakeBlocks, NoneEmpty, Pack, IsPacked, IsListed, Distinct;
    if Distinct(v.chunkHashes) {
      ReferredAreListed(v, refs);
      PackIsPacked(ix, v, ReferredChunks(v, refs), lim, hashIdentifier, hashOf);
    }
  }

  /** Referred chunks have the sizes and tags of the version. */
  lemma ReferredAreListed(v: VersionIndex, refs: seq<nat>)
    requires VersionShape(v) && (forall k :: 0 <= k < |refs| ==> refs[k] < |v.chunkHashes|) && Distinct(v.chunkHashes)
    ensures forall c :: c in ReferredChunks(v, refs) ==> IsListed(c, v.chunkHashes, v.chunkSizes, v.chunkTags)
  {
    hide UniqueChunks, FirstOccurrences;
    var hashes, sizes, tags := At(v.chunkHashes, refs), At(v.chunkSizes, refs), At(v.chunkTags, refs);
    UniqueAreListed(hashes, sizes, tags);
    forall c | c in ReferredChunks(v, refs)
      ensures IsListed(c, v.chunkHashes, v.chunkSizes, v.chunkTags)
    {
      var k :| 0 <= k < |hashes| && IsListedAt(c, hashes, sizes, tags, k);
      assert IsListedAt(c, v.chunkHashes, v.chunkSizes, v.chunkTags, refs[k]);
    }
  }

  lemma NothingCollected(v: VersionIndex, table: LookupTable)
    requires VersionShape(v) && table.Valid() && table.count == 0 && table.keys.Length == |v.chunkHashes|
    ensures Collected(v, AllRefs(v, []), table, [], [], [])
  {
  }

  /** What was collected are the chunks that are referred to, each once. */
  lemma CollectedChunks(v: VersionIndex, refs: seq<nat>, table: LookupTable, hashes: seq<nat>, sizes: seq<nat>,
                        tags: seq<nat>, lim: Limits)
    requires VersionShape(v) && (forall k :: 0 <= k < |refs| ==> refs[k] < |v.chunkHashes|)
    requires NoWrap(v.chunkSizes, lim) && Collected(v, refs, table, hashes, sizes, tags)
    ensures |hashes| == |sizes| == |tags| <= |v.chunkHashes| && NoWrap(sizes, lim)
    ensures hashes == ChunkHashes(ReferredChunks(v, refs)) && At(hashes, FirstOccurrences(hashes)) == hashes
    ensures UniqueChunks(hashes, sizes, tags) == ReferredChunks(v, refs)
  {
    hide LookupTable.Valid, FirstOccurrences;
    assert hashes == ChunkHashes(ReferredChunks(v, refs));
    HashDiff.DistinctCount(hashes);
    DistinctPositions(hashes);
    FirstOccurrencesOfDistinct(hashes);
  }
}

/** Which blocks of a content index hold chunks that a reference lacks
    (src/longtail.c). The answer lists whole blocks. */
module MissingContent {
  import opened Prelude
  import opened LookupTables
  import opened Indexes
  import opened ContentAlgebra

  /** The blocks that hold a chunk the reference lacks. */
  ghost function MissingBlocks(reference: ContentIndex, content: ContentIndex): set<nat>
    requires ContentOk(content)
  {
    BlockSet(Without(Pairs(content), Elems(reference.chunkHashes)))
  }

  lemma WithoutNext(ix: ContentIndex, i: nat, known: set<nat>)
    requires ContentOk(ix) && i < |ix.chunkHashes|
    ensures var ps := Pairs(ix);
            Without(ps[..i + 1], known) ==
            if ix.chunkHashes[i] in known then Without(ps[..i], known) else Without(ps[..i], known) + [ps[i]]
  {
    assert Pairs(ix)[..i + 1][..i] == Pairs(ix)[..i];
  }

  lemma OfBlocksNext(ix: ContentIndex, i: nat, blocks: set<nat>)
    requires ContentOk(ix) && i < |ix.chunkHashes|
    ensures var ps := Pairs(ix);
            OfBlocks(ps[..i + 1], blocks) ==
            if ps[i].block in blocks then OfBlocks(ps[..i], blocks) + [ps[i]] else OfBlocks(ps[..i], blocks)
  {
    assert Pairs(ix)[..i + 1][..i] == Pairs(ix)[..i];
  }

  lemma NoPairs(ps: seq<Pair>, s: set<nat>)
    ensures Without(ps[..0], s) == [] && OfBlocks(ps[..0], s) == []
  {
  }

  /** The table numbers the listed blocks, and the block indexes recorded so far name
      them in this order. */
  ghost predicate Recorded(content: ContentIndex, missing: seq<nat>, slots: LookupTable)
    reads slots, slots.Repr
    ensures Recorded(content, missing, slots) ==>
              slots.Valid() && slots.count == |missing| && Slots(slots, slots.Keys())
  {
    && slots.Valid() && Slots(slots, slots.Keys()) && |missing| == slots.count
    && forall k :: 0 <= k < |missing| ==>
         missing[k] < |content.blockHashes| && content.blockHashes[missing[k]] == slots.Keys()[k]
  }

  /** Lists every block that holds a chunk the reference lacks, in the order of the
      first such chunk. */
  method FindMissingBlocks(reference: ContentIndex, content: ContentIndex, missing: array<nat>)
    returns (slots: LookupTable, count: nat)
    requires ContentOk(reference) && ContentOk(content) && missing.Length == |content.blockHashes|
    modifies missing
    ensures count <= missing.Length && Recorded(content, missing[..count], slots)
    ensures BlockList(slots.Keys(), content.blockHashes, Without(Pairs(content), Elems(reference.chunkHashes)))
  {
    hide Without, Lookup, Elems, BlockList, Slots, LookupTable.Valid, Recorded, FirstMatch, OfBlocks;
    ghost var absent, ps := Elems(reference.chunkHashes), Pairs(content);
    var known := PutAll(reference.chunkHashes, reference.chunkBlockIndexes);
    slots := new LookupTable(|content.chunkHashes|);
    count := 0;
    NoPairs(ps, absent);
    NoBlocks(content, missing[..0], slots);
    for c := 0 to |content.chunkHashes|
      invariant known.Valid() && known.Keys() == reference.chunkHashes && known.Repr !! slots.Repr
      invariant fresh(slots.Repr) && slots.keys.Length == |content.chunkHashes| && missing !in slots.Repr
      invariant slots.count <= c && count <= missing.Length && Recorded(content, missing[..count], slots)
      invariant BlockList(slots.Keys(), content.blockHashes, Without(ps[..c], absent))
    {
      count := CheckChunk(reference, known, content, c, missing, count, slots);
    }
    assert ps[..|ps|] == ps;
  }

  /** Records the block of chunk c if the reference lacks the chunk. */
  method CheckChunk(reference: ContentIndex, known: LookupTable, content: ContentIndex, c: nat, missing: array<nat>,
                    count: nat, slots: LookupTable) returns (count': nat)
    requires known.Valid() && known.Keys() == reference.chunkHashes
    requires ContentOk(content) && c < |content.chunkHashes| && missing.Length == |content.blockHashes|
    requires count <= missing.Length && Recorded(content, missing[..count], slots) && missing !in slots.Repr
    requires slots.count < slots.keys.Length
    requires BlockList(slots.Keys(), content.blockHashes, Without(Pairs(content)[..c], Elems(reference.chunkHashes)))
    modifies missing, slots.Repr
    ensures count' <= missing.Length && Recorded(content, missing[..count'], slots)
    ensures slots.count <= old(slots.count) + 1
    ensures BlockList(slots.Keys(), content.blockHashes, Without(Pairs(content)[..c + 1], Elems(reference.chunkHashes)))
  {
    hide Without, Lookup, FirstMatch, Elems, BlockList, Slots, LookupTable.Valid, Recorded;
    WithoutNext(content, c, Elems(reference.chunkHashes));
    InElems(reference.chunkHashes, content.chunkHashes[c]);
    LookupPresent(known.Keys(), known.Values(), content.chunkHashes[c]);
    var found := known.Get(content.chunkHashes[c]);
    count' := count;
    if found.None? {
      count' := MarkBlock(content, c, missing, count, slots,
                          Without(Pairs(content)[..c], Elems(reference.chunkHashes)));
    }
  }

  method MarkBlock(content: ContentIndex, c: nat, missing: array<nat>, count: nat, slots: LookupTable,
                   ghost ps: seq<Pair>)
    returns (count': nat)
    requires ContentOk(content) && c < |content.chunkHashes| && missing.Length == |content.blockHashes|
    requires count <= missing.Length && Recorded(content, missing[..count], slots) && missing !in slots.Repr
    requires slots.count < slots.keys.Length && BlockList(slots.Keys(), content.blockHashes, ps)
    modifies missing, slots.Repr
    ensures count' <= missing.Length && Recorded(content, missing[..count'], slots)
    ensures slots.count <= old(slots.count) + 1
    ensures BlockList(slots.Keys(), content.blockHashes, ps + [Pairs(content)[c]])
  {
    hide Lookup, BlockList, LookupTable.Valid;
    ghost var before := missing[..count];
    var blockIndex := content.chunkBlockIndexes[c];
    var blockHash := content.blockHashes[blockIndex];
    PairAt(content, c);
    BlockListNext(slots.Keys(), content.blockHashes, ps, Pairs(content)[c]);
    var existing := slots.PutUnique(blockHash, count);
    if existing.Some? {
      return count;
    }
    missing[count] := blockIndex;
    count' := count + 1;
    assert missing[..count'] == before + [blockIndex];
  }

  lemma NoBlocks(content: ContentIndex, missing: seq<nat>, slots: LookupTable)
    requires slots.Valid() && slots.Keys() == [] && slots.count == 0 && missing == []
    ensures Recorded(content, missing, slots) && BlockList(slots.Keys(), content.blockHashes, [])
  {
  }

  /** Lists the positions of all chunks whose block is in the table. */
  method FindChunks(content: ContentIndex, slots: LookupTable) returns (positions: seq<nat>)
    requires ContentOk(content) && slots.Valid() && Slots(slots, slots.Keys())
    ensures |positions| <= |content.chunkHashes|
    ensures forall k :: 0 <= k < |positions| ==> positions[k] < |content.chunkHashes|
    ensures At(Pairs(content), positions) == OfBlocks(Pairs(content), Elems(slots.Keys()))
  {
    hide OfBlocks, Elems, Lookup, Slots, LookupTable.Valid;
    ghost var ps, blocks := Pairs(content), Elems(slots.Keys());
    var found := new nat[|content.chunkHashes|];
    var count := 0;
    NoPairs(ps, blocks);
    for c := 0 to |content.chunkHashes|
      invariant slots.Valid() && Slots(slots, slots.Keys()) && blocks == Elems(slots.Keys())
      invariant count <= c && forall k :: 0 <= k < count ==> found[..count][k] < |ps|
      invariant At(ps, found[..count]) == OfBlocks(ps[..c], blocks)
    {
      OfBlocksNext(content, c, blocks);
      var blockHash := content.blockHashes[content.chunkBlockIndexes[c]];
      InElems(slots.Keys(), blockHash);
      SlotFound(slots, slots.Keys(), blockHash);
      var slot := slots.Get(blockHash);
      if slot.Some? {
        ghost var before := found[..count];
        found[count] := c;
        count := count + 1;
        assert found[..count] == before + [c];
        assert At(ps, found[..count]) == At(ps, before) + [ps[c]];
      }
    }
    assert ps[..|ps|] == ps;
    positions := found[..count];
  }

  /** The blocks that hold a chunk the reference lacks, with all their chunks. */
  method GetMissingContent(hashIdentifier: nat, reference: ContentIndex, content: ContentIndex)
    returns (r: Result<ContentIndex>)
    requires ContentOk(reference) && ContentOk(content)
    ensures r == Failure(EINVAL) <==>
            reference.blockHashes != [] && content.blockHashes != [] && reference.hashIdentifier != hashIdentifier
    ensures r.Failure? ==> r.errno == EINVAL
    ensures r.Success? ==>
              && ContentOk(r.value)
              && Pairs(r.value) == OfBlocks(Pairs(content), MissingBlocks(reference, content))
              && Distinct(r.value.blockHashes) && Elems(r.value.blockHashes) == MissingBlocks(reference, content)
              && r.value.hashIdentifier == hashIdentifier
              && r.value.maxBlockSize == reference.maxBlockSize
              && r.value.maxChunksPerBlock == reference.maxChunksPerBlock
  {
    hide OfBlocks, Elems, Recorded, Without, BlockSet;
    if reference.blockHashes != [] && content.blockHashes != [] && reference.hashIdentifier != hashIdentifier {
      return Failure(EINVAL);
    }
    var missing := new nat[|content.blockHashes|];
    var slots, count := FindMissingBlocks(reference, content, missing);
    var positions := FindChunks(content, slots);
    var blockHashes, chunkHashes, owners := CopyOut(content, missing[..count], positions, slots);
    var ix := ContentIndex(hashIdentifier, reference.maxBlockSize, reference.maxChunksPerBlock, blockHashes,
                           chunkHashes, owners);
    BlocksFit(blockHashes, content.blockHashes);
    assert Pairs(ix) == At(Pairs(content), positions);
    r := Success(ix);
  }

  lemma BlocksFit(blocks: seq<nat>, source: seq<nat>)
    requires Distinct(blocks) && forall b :: b in blocks ==> b in source
    ensures |blocks| <= |source|
  {
    DistinctFits(blocks, Elems(source));
    ElemsFit(source);
  }

  /** The arrays of the result; every chunk gets the new index of its block. */
  method CopyOut(content: ContentIndex, missing: seq<nat>, positions: seq<nat>, slots: LookupTable)
    returns (blockHashes: seq<nat>, chunkHashes: seq<nat>, owners: seq<nat>)
    requires ContentOk(content) && Recorded(content, missing, slots)
    requires forall k :: 0 <= k < |positions| ==> positions[k] < |content.chunkHashes|
    requires At(Pairs(content), positions) == OfBlocks(Pairs(content), Elems(slots.Keys()))
    ensures blockHashes == slots.Keys() && |owners| == |chunkHashes| == |positions|
    ensures forall k :: 0 <= k < |owners| ==> chunkHashes[k] == content.chunkHashes[positions[k]]
    ensures forall k :: 0 <= k < |owners| ==>
              owners[k] < |blockHashes|
                  && blockHashes[owners[k]] == content.blockHashes[content.chunkBlockIndexes[positions[k]]]
  {
    hide OfBlocks, Lookup, LookupTable.Valid;
    blockHashes, chunkHashes, owners := [], [], [];
    for b := 0 to |missing|
      invariant blockHashes == slots.Keys()[..b]
    {
      blockHashes := blockHashes + [content.blockHashes[missing[b]]];
    }
    assert blockHashes == slots.Keys();
    OfBlocksFacts(Pairs(content), Elems(slots.Keys()));
    for c := 0 to |positions|
      invariant |owners| == |chunkHashes| == c
      invariant forall k :: 0 <= k < c ==> chunkHashes[k] == content.chunkHashes[positions[k]]
      invariant forall k :: 0 <= k < c ==>
                  owners[k] < |blockHashes|
                      && blockHashes[owners[k]] == content.blockHashes[content.chunkBlockIndexes[positions[k]]]
    {
      var blockHash := content.blockHashes[content.chunkBlockIndexes[positions[c]]];
      ListedBlock(content, positions, slots.Keys(), c);
      SlotFound(slots, slots.Keys(), blockHash);
      var slot := slots.Get(blockHash);
      chunkHashes, owners := chunkHashes + [content.chunkHashes[positions[c]]], owners + [slot.value];
    }
  }

  lemma ListedBlock(content: ContentIndex, positions: seq<nat>, blocks: seq<nat>, c: nat)
    requires ContentOk(content) && forall k :: 0 <= k < |positions| ==> positions[k] < |content.chunkHashes|
    requires At(Pairs(content), positions) == OfBlocks(Pairs(content), Elems(blocks)) && c < |positions|
    ensures content.blockHashes[content.chunkBlockIndexes[positions[c]]] in blocks
  {
    OfBlocksFacts(Pairs(content), Elems(blocks));
    assert At(Pairs(content), positions)[c] in OfBlocks(Pairs(content), Elems(blocks));
  }

  /** Whole blocks, each with a missing chunk, and no missing chunk is left out. */
  lemma MissingContentCovers(ps: seq<Pair>, known: set<nat>, out: seq<Pair>)
    requires out == OfBlocks(ps, BlockSet(Without(ps, known)))
    ensures forall p :: p in ps && p.hash !in known ==> p in out
    ensures forall p, q :: p in out && q in ps && q.block == p.block ==> q in out
    ensures forall p :: p in out ==> p in ps && exists q :: q in out && q.block == p.block && q.hash !in known
  {
    hide OfBlocks, Without, BlockSet;
    var lacking := Without(ps, known);
    WithoutFacts(ps, known);
    OfBlocksFacts(ps, BlockSet(lacking));
    forall p | p in lacking
      ensures p in out
    {
      InBlockSet(lacking, p);
    }
    forall p | p in out
      ensures exists q :: q in out && q.block == p.block && q.hash !in known
    {
      var q := BlockWitness(lacking, p.block);
      assert q in out;
    }
  }

  lemma InBlockSet(ps: seq<Pair>, p: Pair)
    requires p in ps
    ensures p.block in BlockSet(ps)
  {
  }

  lemma BlockWitness(ps: seq<Pair>, b: nat) returns (p: Pair)
    requires b in BlockSet(ps)
    ensures p in ps && p.block == b
  {
    p :| p in ps && p.block == b;
  }
}

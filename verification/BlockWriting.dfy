/** The body of a partial write (src/longtail.c): the chunks of an asset are found in the
    stored blocks by hash and written to the file one after the other. */
module BlockWriting {
  import opened Prelude
  import opened LookupTables
  import opened Indexes
  import opened Storages

  /** Entry i of the table says where a chunk lies: in block owners[i], at offsets[i]. */
  ghost predicate Locates(hash: nat, owner: nat, offset: nat, size: nat, blocks: seq<StoredBlock>,
                          bytes: nat -> seq<byte>) {
    && owner < |blocks| && offset + size <= |blocks[owner].data|
    && blocks[owner].data[offset..offset + size] == bytes(hash)
  }

  datatype Location = Location(owner: nat, offset: nat, size: nat)

  /** The table numbers the chunks of the blocks; their locations are right. */
  ghost predicate Located(table: LookupTable, at: seq<Location>, blocks: seq<StoredBlock>, bytes: nat -> seq<byte>)
    reads table, table.Repr
    ensures Located(table, at, blocks, bytes) ==> table.Valid() && table.count == |at|
  {
    && table.Valid() && table.count == |at|
    && forall i :: 0 <= i < |at| ==>
         table.Values()[i] == i && Locates(table.Keys()[i], at[i].owner, at[i].offset, at[i].size, blocks, bytes)
  }

  /** The hashes of the first n blocks. */
  ghost predicate InBlocks(h: nat, blocks: seq<StoredBlock>, n: nat)
    requires n <= |blocks|
  {
    exists b :: 0 <= b < n && h in blocks[b].chunkHashes
  }

  function ChunkTotal(blocks: seq<StoredBlock>): nat {
    if blocks == [] then 0 else ChunkTotal(blocks[..|blocks| - 1]) + |blocks[|blocks| - 1].chunkHashes|
  }

  method CountBlockChunks(blocks: seq<StoredBlock>) returns (count: nat)
    ensures count == ChunkTotal(blocks)
  {
    count := 0;
    for b := 0 to |blocks|
      invariant count == ChunkTotal(blocks[..b])
    {
      assert blocks[..b + 1][..b] == blocks[..b];
      count := count + |blocks[b].chunkHashes|;
    }
    assert blocks[..|blocks|] == blocks;
  }

  lemma ChunkAt(block: StoredBlock, bytes: nat -> seq<byte>, blocks: seq<StoredBlock>, b: nat, c: nat)
    requires BlockDescribes(block, bytes) && b < |blocks| && blocks[b] == block && c < |block.chunkHashes|
    ensures Offset(BlockPieces(block, bytes), c + 1) == Offset(BlockPieces(block, bytes), c) + block.chunkSizes[c]
    ensures Locates(block.chunkHashes[c], b, Offset(BlockPieces(block, bytes), c), block.chunkSizes[c], blocks, bytes)
  {
    hide Flatten, Offset;
    PieceSlice(BlockPieces(block, bytes), c);
  }

  /** The data of chunk c of a block: it lies behind that of the chunks before. */
  function ChunkData(block: StoredBlock, c: nat): seq<byte> {
    if c < |block.chunkSizes| && Sum(block.chunkSizes[..c]) + block.chunkSizes[c] <= |block.data|
    then block.data[Sum(block.chunkSizes[..c])..Sum(block.chunkSizes[..c]) + block.chunkSizes[c]]
    else []
  }

  lemma {:induction false} ChunkDataIs(block: StoredBlock, c: nat, bytes: nat -> seq<byte>)
    requires BlockDescribes(block, bytes) && c < |block.chunkHashes|
    ensures c < |block.chunkSizes| && ChunkData(block, c) == bytes(block.chunkHashes[c])
              && |ChunkData(block, c)| == block.chunkSizes[c]
  {
    hide Flatten, Offset, Sum;
    SumIsOffset(BlockPieces(block, bytes), block.chunkSizes, c);
    PieceSlice(BlockPieces(block, bytes), c);
  }

  /** Puts the chunks of block b behind those of the blocks before it. */
  method IndexOneBlock(table: LookupTable, at: seq<Location>, blocks: seq<StoredBlock>, b: nat,
                       ghost bytes: nat -> seq<byte>)
    returns (at': seq<Location>)
    requires b < |blocks| && BlockDescribes(blocks[b], bytes) && Located(table, at, blocks, bytes)
    requires table.count + |blocks[b].chunkHashes| <= table.keys.Length
    modifies table.Repr
    ensures Located(table, at', blocks, bytes) && table.count == old(table.count) + |blocks[b].chunkHashes|
    ensures table.Keys() == old(table.Keys()) + blocks[b].chunkHashes
  {
    hide LookupTable.Valid, Offset, BlockDescribes, Lookup, FirstMatch, LookupTable.FirstWins, Locates;
    var block := blocks[b];
    DescribedSizes(block, bytes);
    at' := at;
    var chunkOffset := 0;
    for c := 0 to |block.chunkHashes|
      invariant table.count == |at'| == old(table.count) + c && Located(table, at', blocks, bytes)
      invariant table.Keys() == old(table.Keys()) + block.chunkHashes[..c]
      invariant chunkOffset == Offset(BlockPieces(block, bytes), c)
    {
      ChunkAt(block, bytes, blocks, b, c);
      table.Put(block.chunkHashes[c], |at'|);
      at' := at' + [Location(b, chunkOffset, block.chunkSizes[c])];
      chunkOffset := chunkOffset + block.chunkSizes[c];
      assert block.chunkHashes[..c + 1] == block.chunkHashes[..c] + [block.chunkHashes[c]];
    }
    assert block.chunkHashes[..|block.chunkHashes|] == block.chunkHashes;
  }

  lemma DescribedSizes(block: StoredBlock, bytes: nat -> seq<byte>)
    requires BlockDescribes(block, bytes)
    ensures |block.chunkHashes| == |block.chunkSizes| && Offset(BlockPieces(block, bytes), 0) == 0
  {
    OffsetEnds(BlockPieces(block, bytes));
  }

  /** A table of all chunks of the blocks. */
  method IndexBlocks(blocks: seq<StoredBlock>, ghost bytes: nat -> seq<byte>)
    returns (table: LookupTable, at: seq<Location>)
    requires (forall b :: 0 <= b < |blocks| ==> BlockDescribes(blocks[b], bytes)) && ChunkTotal(blocks) < NONE
    ensures Located(table, at, blocks, bytes) && fresh(table.Repr)
    ensures forall h :: h in table.Keys() <==> InBlocks(h, blocks, |blocks|)
  {
    hide LookupTable.Valid, BlockDescribes, Located;
    var count := CountBlockChunks(blocks);
    table := new LookupTable(count);
    at := [];
    NothingLocated(table, blocks, bytes);
    assert blocks[..0] == [];
    for b := 0 to |blocks|
      invariant fresh(table.Repr) && table.keys.Length == count && Located(table, at, blocks, bytes)
      invariant table.count == ChunkTotal(blocks[..b])
      invariant forall h :: h in table.Keys() <==> InBlocks(h, blocks, b)
    {
      TotalNext(blocks, b);
      at := IndexOneBlock(table, at, blocks, b, bytes);
    }
    assert blocks[..|blocks|] == blocks;
  }

  lemma NothingLocated(table: LookupTable, blocks: seq<StoredBlock>, bytes: nat -> seq<byte>)
    requires table.Valid() && table.count == 0
    ensures Located(table, [], blocks, bytes)
  {
  }

  lemma {:induction false} TotalMonotone(blocks: seq<StoredBlock>, b: nat)
    requires b <= |blocks|
    ensures ChunkTotal(blocks[..b]) <= ChunkTotal(blocks)
    decreases |blocks| - b
  {
    if b < |blocks| {
      TotalMonotone(blocks, b + 1);
      assert blocks[..b + 1][..b] == blocks[..b];
    } else {
      assert blocks[..b] == blocks;
    }
  }

  lemma TotalNext(blocks: seq<StoredBlock>, b: nat)
    requires b < |blocks|
    ensures ChunkTotal(blocks[..b + 1]) == ChunkTotal(blocks[..b]) + |blocks[b].chunkHashes| <= ChunkTotal(blocks)
  {
    assert blocks[..b + 1][..b] == blocks[..b];
    TotalMonotone(blocks, b + 1);
  }

  /** Where the chunks of an asset lie in its file: the sum of the sizes before. */
  method WriteOffset(v: VersionIndex, a: nat, from: nat, ghost bytes: nat -> seq<byte>) returns (offset: nat)
    requires VersionDescribes(v, bytes) && a < |v.assetSizes| && from <= v.assetChunkCounts[a]
    ensures offset == Offset(Pieces(v, bytes, a), from)
  {
    hide Offset;
    offset := 0;
    OffsetEnds(Pieces(v, bytes, a));
    for c := 0 to from
      invariant offset == Offset(Pieces(v, bytes, a), c)
    {
      OffsetNext(Pieces(v, bytes, a), c);
      assert HasChunk(v, a, c);
      offset := offset + v.chunkSizes[v.assetChunkIndexes[v.assetChunkIndexStarts[a] + c]];
    }
  }

  /** The chunks before the first one that is in none of the blocks are written. */
  ghost predicate StoppedAt(before: map<string, Entry>, after: map<string, Entry>, v: VersionIndex, a: nat, from: nat,
                            count: nat, blocks: seq<StoredBlock>, path: string, bytes: nat -> seq<byte>)
    requires VersionShape(v) && a < |v.assetSizes| && from + count <= v.assetChunkCounts[a]
    requires path in before && before[path].File? && Offset(Pieces(v, bytes, a), from) <= |before[path].content|
  {
    exists c: nat ::
      && from <= c < from + count && !InBlocks(HashOf(v, a, c), blocks, |blocks|)
      && (forall i :: from <= i < c ==> InBlocks(HashOf(v, a, i), blocks, |blocks|))
      && after == AfterWrite(before, path, Offset(Pieces(v, bytes, a), from), Flatten(Pieces(v, bytes, a)[from..c]))
  }

  /** Writes `count` chunks of the asset to its open file, from chunk `from` on; fails at
      the first chunk that none of the blocks holds. What is written is the concatenation
      of the chunks, or of those before that one, at the sum of the sizes of those before. */
  method WriteChunks(v: VersionIndex, a: nat, from: nat, count: nat, blocks: seq<StoredBlock>, store: Storage,
                     path: string, ghost bytes: nat -> seq<byte>) returns (err: Option<Errno>)
    requires VersionDescribes(v, bytes) && a < |v.assetSizes| && from + count <= v.assetChunkCounts[a]
    requires path in store.tree && store.tree[path].File?
    requires Offset(Pieces(v, bytes, a), from) <= |store.tree[path].content|
    requires (forall b :: 0 <= b < |blocks| ==> BlockDescribes(blocks[b], bytes)) && ChunkTotal(blocks) < NONE
    modifies store`tree
    ensures err == None <==> forall c :: from <= c < from + count ==> InBlocks(HashOf(v, a, c), blocks, |blocks|)
    ensures err == None ==>
              var pieces := Pieces(v, bytes, a);
              store.tree == AfterWrite(old(store.tree), path, Offset(pieces, from), Flatten(pieces[from..from + count]))
    ensures err.Some? ==> err == Some(EINVAL) && StoppedAt(old(store.tree), store.tree, v, a, from, count, blocks, path,
                                                           bytes)
  {
    hide Offset, Flatten, VersionDescribes, BlockDescribes, LookupTable.Valid, Located, VersionShape, AfterWrite;
    ghost var pieces, before := Pieces(v, bytes, a), store.tree;
    ghost var at0 := Offset(pieces, from);
    var table, at := IndexBlocks(blocks, bytes);
    var offset := WriteOffset(v, a, from, bytes);
    NoChunks(pieces, from);
    AfterNoWrite(before, path, at0);
    for c := from to from + count
      invariant Located(table, at, blocks, bytes)
      invariant offset == at0 + |Flatten(pieces[from..c])|
                  && store.tree == AfterWrite(before, path, at0, Flatten(pieces[from..c]))
      invariant forall i :: from <= i < c ==> InBlocks(HashOf(v, a, i), blocks, |blocks|)
      invariant forall h :: h in table.Keys() <==> InBlocks(h, blocks, |blocks|)
    {
      var hash := ChunkHashOf(v, a, c, bytes);
      var location := Locate(table, at, blocks, hash, bytes);
      WrittenSoFar(before, path, at0, Flatten(pieces[from..c]));
      if location.None? {
        assert !InBlocks(HashOf(v, a, c), blocks, |blocks|);
        assert StoppedAt(before, store.tree, v, a, from, count, blocks, path, bytes);
        return Some(EINVAL);
      }
      var l := location.value;
      var data := blocks[l.owner].data[l.offset..l.offset + l.size];
      err := store.Write(path, offset, data);
      OneMoreChunk(pieces, from, c);
      AfterTwoWrites(before, path, at0, Flatten(pieces[from..c]), data);
      offset := offset + l.size;
    }
    err := None;
  }

  lemma NoChunks(pieces: seq<seq<byte>>, from: nat)
    requires from <= |pieces|
    ensures Flatten(pieces[from..from]) == []
  {
  }

  lemma OneMoreChunk(pieces: seq<seq<byte>>, from: nat, c: nat)
    requires from <= c < |pieces|
    ensures Flatten(pieces[from..c + 1]) == Flatten(pieces[from..c]) + pieces[c]
  {
    FlattenSnoc(pieces[from..c], pieces[c]);
    assert pieces[from..c + 1] == pieces[from..c] + [pieces[c]];
  }

  lemma WrittenSoFar(tree: map<string, Entry>, path: string, at: nat, data: seq<byte>)
    requires path in tree && tree[path].File? && at <= |tree[path].content|
    ensures var after := AfterWrite(tree, path, at, data);
            && path in after && after[path].File? && at + |data| <= |after[path].content|
            && after == tree[path := after[path]]
  {
  }

  method ChunkHashOf(v: VersionIndex, a: nat, c: nat, ghost bytes: nat -> seq<byte>) returns (hash: nat)
    requires VersionDescribes(v, bytes) && a < |v.assetSizes| && c < v.assetChunkCounts[a]
    ensures hash == HashOf(v, a, c)
  {
    hash := v.chunkHashes[v.assetChunkIndexes[v.assetChunkIndexStarts[a] + c]];
  }

  /** The location the table gives for a hash. */
  method Locate(table: LookupTable, at: seq<Location>, blocks: seq<StoredBlock>, hash: nat,
                ghost bytes: nat -> seq<byte>)
    returns (l: Option<Location>)
    requires Located(table, at, blocks, bytes)
    ensures l.Some? <==> hash in table.Keys()
    ensures l.Some? ==> Locates(hash, l.value.owner, l.value.offset, l.value.size, blocks, bytes)
  {
    hide LookupTable.Valid, FirstMatch;
    FirstMatchNone(table.Keys(), hash);
    var index := table.Get(hash);
    l := if index.None? then None else Some(at[index.value]);
  }
}

/** Writing the blocks of an upload (src/longtail.c): every chunk is read from a file of
    the source tree that contains it, and blocks are put into the store. What was uploaded
    is what readers of the store get. */
module ContentWriting {
  import opened Prelude
  import opened LookupTables
  import opened Indexes
  import opened Packing
  import Storages

  /** The files of the source tree. */
  type Files = map<string, seq<byte>>

  // ----- Where chunks are found -----

  /** The first place of a chunk: the file of an asset, the offset in it, and its tag. */
  datatype Part = Part(path: string, offset: nat, tag: nat)

  ghost predicate PartAt(part: Part, h: nat, v: VersionIndex, bytes: nat -> seq<byte>, a: nat, c: nat) {
    && HasChunk(v, a, c) && HashOf(v, a, c) == h
    && part.path == v.names[a] && part.offset == Offset(Pieces(v, bytes, a), c)
         && part.tag == v.chunkTags[ChunkOf(v, a, c)]
  }

  ghost predicate IsPart(part: Part, h: nat, v: VersionIndex, bytes: nat -> seq<byte>) {
    exists a, c :: PartAt(part, h, v, bytes, a, c)
  }

  /** The table numbers the chunks, and the parts say where they lie. */
  ghost predicate Knows(table: LookupTable, parts: seq<Part>, v: VersionIndex, bytes: nat -> seq<byte>)
    reads table, table.Repr
    ensures Knows(table, parts, v, bytes) ==> table.Valid() && table.count == |parts|
  {
    && table.Valid() && table.count == |parts|
    && forall i :: 0 <= i < |parts| ==> table.Values()[i] == i && IsPart(parts[i], table.Keys()[i], v, bytes)
  }

  ghost predicate InAsset(v: VersionIndex, h: nat, a: nat, n: nat) {
    exists c: nat :: c < n && HasChunk(v, a, c) && HashOf(v, a, c) == h
  }

  /** One of the first n assets has the chunk. */
  ghost predicate InAssets(v: VersionIndex, h: nat, n: nat) {
    exists a: nat :: a < n && a < |v.assetChunkCounts| && InAsset(v, h, a, v.assetChunkCounts[a])
  }

  /** Adds the chunk unless it was found before. */
  method AddPart(table: LookupTable, parts: seq<Part>, part: Part, h: nat, ghost v: VersionIndex, ghost a: nat,
                 ghost c: nat, ghost bytes: nat -> seq<byte>)
    returns (parts': seq<Part>)
    requires Knows(table, parts, v, bytes) && table.count < table.keys.Length && PartAt(part, h, v, bytes, a, c)
    modifies table.Repr
    ensures Knows(table, parts', v, bytes) && table.count <= old(table.count) + 1
    ensures forall k :: k in table.Keys() <==> k in old(table.Keys()) || k == h
  {
    hide LookupTable.Valid, FirstMatch, LookupTable.FirstWins, PartAt;
    parts' := parts;
    var existing := table.PutUnique(h, |parts|);
    if existing.None? {
      parts' := parts + [part];
    }
  }

  lemma InAssetNext(v: VersionIndex, a: nat, c: nat)
    requires HasChunk(v, a, c)
    ensures forall h :: InAsset(v, h, a, c + 1) <==> InAsset(v, h, a, c) || h == HashOf(v, a, c)
  {
    forall h
      ensures InAsset(v, h, a, c + 1) <==> InAsset(v, h, a, c) || h == HashOf(v, a, c)
    {
      if InAsset(v, h, a, c + 1) {
        var d: nat :| d < c + 1 && HasChunk(v, a, d) && HashOf(v, a, d) == h;
        assert d < c || d == c;
      }
      if InAsset(v, h, a, c) {
        var d: nat :| d < c && HasChunk(v, a, d) && HashOf(v, a, d) == h;
      }
      assert h == HashOf(v, a, c) ==> c < c + 1 && HasChunk(v, a, c);
    }
  }

  lemma InAssetNone(v: VersionIndex, a: nat)
    ensures forall h :: !InAsset(v, h, a, 0)
  {
  }

  /** The chunks of one asset, unless they were found before. */
  method AddAssetParts(table: LookupTable, parts: seq<Part>, v: VersionIndex, a: nat, ghost bytes: nat -> seq<byte>)
    returns (parts': seq<Part>)
    requires VersionDescribes(v, bytes) && a < |v.assetSizes| && Knows(table, parts, v, bytes)
    requires table.count + v.assetChunkCounts[a] <= table.keys.Length
    modifies table.Repr
    ensures Knows(table, parts', v, bytes) && table.count <= old(table.count) + v.assetChunkCounts[a]
    ensures forall h :: h in table.Keys() <==> h in old(table.Keys()) || InAsset(v, h, a, v.assetChunkCounts[a])
  {
    hide LookupTable.Valid, Offset, Flatten, VersionDescribes, Knows, InAsset;
    parts' := parts;
    InAssetNone(v, a);
    var offset := 0;
    OffsetEnds(Pieces(v, bytes, a));
    for c := 0 to v.assetChunkCounts[a]
      invariant Knows(table, parts', v, bytes) && table.count <= old(table.count) + c
      invariant offset == Offset(Pieces(v, bytes, a), c)
      invariant forall h :: h in table.Keys() <==> h in old(table.Keys()) || InAsset(v, h, a, c)
    {
      assert HasChunk(v, a, c);
      ChunkSize(v, a, c, bytes);
      InAssetNext(v, a, c);
      parts' := AddPart(table, parts', Part(v.names[a], offset, v.chunkTags[ChunkOf(v, a, c)]), HashOf(v, a, c), v, a,
                        c, bytes);
      offset := offset + SizeOf(v, a, c);
    }
  }

  lemma ChunkSize(v: VersionIndex, a: nat, c: nat, bytes: nat -> seq<byte>)
    requires VersionDescribes(v, bytes) && HasChunk(v, a, c)
    ensures SizeOf(v, a, c) == |bytes(HashOf(v, a, c))|
    ensures Offset(Pieces(v, bytes, a), c + 1) == Offset(Pieces(v, bytes, a), c) + SizeOf(v, a, c)
  {
    hide Offset;
    OffsetNext(Pieces(v, bytes, a), c);
  }

  method CreateAssetPartLookup(v: VersionIndex, ghost bytes: nat -> seq<byte>)
    returns (table: LookupTable, parts: seq<Part>)
    requires VersionDescribes(v, bytes)
    ensures Knows(table, parts, v, bytes) && fresh(table.Repr)
    ensures forall h :: h in table.Keys() <==> InAssets(v, h, |v.assetSizes|)
  {
    hide LookupTable.Valid, Lookup, InAsset, PartAt;
    table := new LookupTable(|v.assetChunkIndexes|);
    parts := [];
    for a := 0 to |v.assetSizes|
      invariant Knows(table, parts, v, bytes) && fresh(table.Repr) && table.keys.Length == |v.assetChunkIndexes|
      invariant forall b :: a <= b < |v.assetSizes| ==> table.count <= v.assetChunkIndexStarts[b]
      invariant forall h :: h in table.Keys() <==> InAssets(v, h, a)
    {
      parts := AddAssetParts(table, parts, v, a, bytes);
    }
  }

  ghost predicate AreSizes(sizes: seq<nat>, hashes: seq<nat>, bytes: nat -> seq<byte>) {
    |sizes| == |hashes| && forall k :: 0 <= k < |hashes| ==> sizes[k] == |bytes(hashes[k])|
  }

  /** The sizes of the chunks of a content index; it may only list chunks of the version. */
  method CollectSizes(ix: ContentIndex, v: VersionIndex, ghost bytes: nat -> seq<byte>)
    returns (err: Option<Errno>, sizes: seq<nat>)
    requires VersionDescribes(v, bytes)
    ensures err == if forall h :: h in ix.chunkHashes ==> h in v.chunkHashes then None else Some(EINVAL)
    ensures err == None ==> AreSizes(sizes, ix.chunkHashes, bytes)
  {
    hide LookupTable.Valid, FirstMatch;
    var lookup := PutAll(v.chunkHashes, seq(|v.chunkHashes|, i => i));
    sizes := [];
    for k := 0 to |ix.chunkHashes|
      invariant lookup.Valid() && lookup.Keys() == v.chunkHashes && lookup.Values() == seq(|v.chunkHashes|, i => i)
      invariant |sizes| == k && forall i :: 0 <= i < k ==>
                  ix.chunkHashes[i] in v.chunkHashes && sizes[i] == |bytes(ix.chunkHashes[i])|
    {
      FirstMatchNone(v.chunkHashes, ix.chunkHashes[k]);
      var index := lookup.Get(ix.chunkHashes[k]);
      if index.None? {
        return Some(EINVAL), [];
      }
      sizes := sizes + [v.chunkSizes[index.value]];
    }
    err := None;
  }

  // ----- One block -----

  /** The tree has the files of the version. */
  ghost predicate TreeHolds(tree: Files, v: VersionIndex, bytes: nat -> seq<byte>) {
    && VersionShape(v)
    && forall a :: 0 <= a < |v.assetSizes| && v.assetChunkCounts[a] > 0 ==>
         !Storages.IsDirPath(v.names[a]) && v.names[a] in tree && tree[v.names[a]] == AssetBytes(v, bytes, a)
  }

  /** A part of a file of the version is the chunk. */
  lemma PartBytes(part: Part, h: nat, v: VersionIndex, bytes: nat -> seq<byte>, tree: Files)
    requires IsPart(part, h, v, bytes) && TreeHolds(tree, v, bytes)
    ensures !Storages.IsDirPath(part.path) && part.path in tree && part.offset + |bytes(h)| <= |tree[part.path]|
    ensures tree[part.path][part.offset..part.offset + |bytes(h)|] == bytes(h)
  {
    hide Flatten, Offset;
    var a: nat, c: nat :| PartAt(part, h, v, bytes, a, c);
    PieceSlice(Pieces(v, bytes, a), c);
  }

  /** The chunks one after the other. */
  ghost function Contents(hashes: seq<nat>, bytes: nat -> seq<byte>): (ps: seq<seq<byte>>)
    ensures |ps| == |hashes| && forall k :: 0 <= k < |ps| ==> ps[k] == bytes(hashes[k])
  {
    seq(|hashes|, k requires 0 <= k < |hashes| => bytes(hashes[k]))
  }

  method TotalSize(hashes: seq<nat>, sizes: seq<nat>, ghost bytes: nat -> seq<byte>) returns (total: nat)
    requires AreSizes(sizes, hashes, bytes)
    ensures total == |Flatten(Contents(hashes, bytes))|
  {
    hide Flatten, Offset;
    total := 0;
    OffsetEnds(Contents(hashes, bytes));
    for k := 0 to |hashes|
      invariant total == Offset(Contents(hashes, bytes), k)
    {
      OffsetNext(Contents(hashes, bytes), k);
      total := total + sizes[k];
    }
  }

  method FindPart(table: LookupTable, parts: seq<Part>, h: nat, ghost v: VersionIndex, ghost bytes: nat -> seq<byte>)
    returns (part: Option<Part>)
    requires Knows(table, parts, v, bytes)
    ensures part.Some? <==> h in table.Keys()
    ensures part.Some? ==> IsPart(part.value, h, v, bytes)
  {
    hide LookupTable.Valid, FirstMatch, IsPart;
    FirstMatchNone(table.Keys(), h);
    var index := table.Get(h);
    part := if index.None? then None else Some(parts[index.value]);
  }

  /** The bytes of a part, if its file can be opened and is long enough. */
  function ReadPart(tree: Files, part: Part, size: nat): Result<seq<byte>> {
    if Storages.IsDirPath(part.path) then Failure(EINVAL)
    else if part.path !in tree then Failure(ENOENT)
    else if |tree[part.path]| < part.offset + size then Failure(EBADF)
    else Success(tree[part.path][part.offset..part.offset + size])
  }

  /** The file that is open, if any. */
  datatype Handle = Closed | Open(path: string, content: seq<byte>)

  ghost predicate IsOpen(tree: Files, file: Handle) {
    file.Open? ==> !Storages.IsDirPath(file.path) && file.path in tree && file.content == tree[file.path]
  }

  /** Reads a part; a file that is open already is used again. */
  method ReadChunk(tree: Files, part: Part, size: nat, file: Handle) returns (r: Result<seq<byte>>, file': Handle)
    requires IsOpen(tree, file)
    ensures IsOpen(tree, file') && r == ReadPart(tree, part, size)
  {
    file' := file;
    if !(file.Open? && file.path == part.path) {
      if Storages.IsDirPath(part.path) {
        return Failure(EINVAL), Closed;
      }
      if part.path !in tree {
        return Failure(ENOENT), Closed;
      }
      file' := Open(part.path, tree[part.path]);
    }
    if |file'.content| < part.offset + size {
      return Failure(EBADF), Closed;
    }
    r := Success(file'.content[part.offset..part.offset + size]);
  }

  ghost predicate AllIn(hs: seq<nat>, keys: seq<nat>) {
    forall h :: h in hs ==> h in keys
  }

  /** A chunk of an asset with this hash has the tag. */
  ghost predicate IsTag(v: VersionIndex, h: nat, tag: nat) {
    exists a, c :: HasChunk(v, a, c) && HashOf(v, a, c) == h && v.chunkTags[ChunkOf(v, a, c)] == tag
  }

  lemma PartTag(part: Part, h: nat, v: VersionIndex, bytes: nat -> seq<byte>)
    requires IsPart(part, h, v, bytes)
    ensures IsTag(v, h, part.tag)
  {
  }

  /** Finds and reads one chunk. */
  method ReadKnown(tree: Files, h: nat, size: nat, table: LookupTable, parts: seq<Part>, file: Handle,
                   ghost v: VersionIndex, ghost bytes: nat -> seq<byte>)
    returns (r: Result<seq<byte>>, tag: nat, file': Handle)
    requires Knows(table, parts, v, bytes) && IsOpen(tree, file) && size == |bytes(h)|
    ensures IsOpen(tree, file')
    ensures TreeHolds(tree, v, bytes) && h in table.Keys() ==> r == Success(bytes(h))
    ensures r.Success? ==> h in table.Keys() && |r.value| == size && IsTag(v, h, tag)
    ensures r.Failure? ==> r.errno in {EINVAL, ENOENT, EBADF}
  {
    hide Knows, TreeHolds, IsPart, IsOpen, ReadPart, LookupTable.Keys, IsTag;
    var part := FindPart(table, parts, h, v, bytes);
    if part.None? {
      return Failure(EINVAL), 0, file;
    }
    PartTag(part.value, h, v, bytes);
    tag := part.value.tag;
    r, file' := ReadChunk(tree, part.value, size, file);
    PartRead(tree, part.value, h, size, v, bytes);
  }

  /** Reads the chunks of a block from the files they were found in; the block gets the tag of
      its first chunk. */
  method WriteContentBlock(tree: Files, hashIdentifier: nat, hashes: seq<nat>, sizes: seq<nat>, table: LookupTable,
                           parts: seq<Part>, ghost v: VersionIndex, ghost bytes: nat -> seq<byte>)
    returns (r: Result<StoredBlock>)
    requires Knows(table, parts, v, bytes) && AreSizes(sizes, hashes, bytes) && |hashes| <= MAX_COUNT
    ensures TreeHolds(tree, v, bytes) && AllIn(hashes, table.Keys()) ==> r.Success?
    ensures TreeHolds(tree, v, bytes) && r.Success? ==> r.value.chunkHashes == hashes && BlockDescribes(r.value, bytes)
    ensures r.Success? ==>
              r.value.hashIdentifier == hashIdentifier && (hashes != [] ==> IsTag(v, hashes[0], r.value.tag))
    ensures r.Failure? ==> r.errno in {EINVAL, ENOENT, EBADF}
  {
    hide Knows, Flatten, Offset, TreeHolds, IsOpen, BlockDescribes, LookupTable.Keys, IsTag;
    ghost var good, pieces := TreeHolds(tree, v, bytes), Contents(hashes, bytes);
    var total := TotalSize(hashes, sizes, bytes);
    var buffer := new byte[total](_ => 0);
    var at, file, blockTag := 0, Closed, 0;
    OffsetEnds(pieces);
    StartOfBlock(pieces, buffer[..0], tree);
    for k := 0 to |hashes|
      invariant at == Offset(pieces, k) <= total && IsOpen(tree, file) && Knows(table, parts, v, bytes) && fresh(buffer)
      invariant good ==> buffer[..at] == Flatten(pieces[..k])
      invariant k > 0 ==> IsTag(v, hashes[0], blockTag)
    {
      var chunk, tag;
      chunk, tag, file := ReadKnown(tree, hashes[k], sizes[k], table, parts, file, v, bytes);
      if chunk.Failure? {
        return Failure(chunk.errno);
      }
      if k == 0 {
        // a chunk with another tag is only logged
        blockTag := tag;
      }
      PieceSlice(pieces, k);
      NextOfBlock(pieces, k);
      AppendInto(buffer, at, chunk.value);
      at := at + sizes[k];
    }
    MadeBlock(hashIdentifier, blockTag, hashes, sizes, buffer[..at], bytes);
    r := Success(StoredBlock(hashIdentifier, blockTag, hashes, sizes, buffer[..at]));
  }

  method AppendInto(buffer: array<byte>, at: nat, data: seq<byte>)
    requires at + |data| <= buffer.Length
    modifies buffer
    ensures buffer[..at + |data|] == old(buffer[..at]) + data
  {
    CopyInto(buffer, at, data);
  }

  lemma MadeBlock(hashIdentifier: nat, tag: nat, hashes: seq<nat>, sizes: seq<nat>, data: seq<byte>,
                  bytes: nat -> seq<byte>)
    requires AreSizes(sizes, hashes, bytes) && |hashes| <= MAX_COUNT
    ensures data == Flatten(Contents(hashes, bytes)[..|hashes|]) ==>
              BlockDescribes(StoredBlock(hashIdentifier, tag, hashes, sizes, data), bytes)
  {
    hide Flatten;
    assert Contents(hashes, bytes)[..|hashes|] == Contents(hashes, bytes);
    assert BlockPieces(StoredBlock(hashIdentifier, tag, hashes, sizes, data), bytes) == Contents(hashes, bytes);
  }

  lemma PartRead(tree: Files, part: Part, h: nat, size: nat, v: VersionIndex, bytes: nat -> seq<byte>)
    requires IsPart(part, h, v, bytes) && size == |bytes(h)|
    ensures TreeHolds(tree, v, bytes) ==> ReadPart(tree, part, size) == Success(bytes(h))
    ensures ReadPart(tree, part, size).Success? ==> |ReadPart(tree, part, size).value| == size
    ensures ReadPart(tree, part, size).Failure? ==> ReadPart(tree, part, size).errno in {EINVAL, ENOENT, EBADF}
  {
    hide IsPart, TreeHolds;
    if TreeHolds(tree, v, bytes) {
      PartBytes(part, h, v, bytes, tree);
    }
  }

  lemma StartOfBlock(pieces: seq<seq<byte>>, data: seq<byte>, tree: Files)
    ensures data[..0] == Flatten(pieces[..0]) && IsOpen(tree, Closed)
  {
  }

  lemma NextOfBlock(pieces: seq<seq<byte>>, k: nat)
    requires k < |pieces|
    ensures Flatten(pieces[..k + 1]) == Flatten(pieces[..k]) + pieces[k]
  {
    FlattenSnoc(pieces[..k], pieces[k]);
    assert pieces[..k + 1] == pieces[..k] + [pieces[k]];
  }

  // ----- All blocks -----

  /** Every chunk of the version is a chunk of an asset. */
  ghost predicate UsesAllChunks(v: VersionIndex) {
    forall h :: h in v.chunkHashes ==> InAssets(v, h, |v.assetSizes|)
  }

  /** The block is in the store with its chunks and their bytes; it has the tag of its first
      chunk. */
  ghost predicate Stored(after: BlockStore, hash: nat, list: seq<nat>, hashIdentifier: nat, v: VersionIndex,
                         bytes: nat -> seq<byte>) {
    && hash in after && after[hash].chunkHashes == list && BlockDescribes(after[hash], bytes)
    && after[hash].hashIdentifier == hashIdentifier && (list != [] ==> IsTag(v, list[0], after[hash].tag))
  }

  /** Only the blocks with these hashes have changed. */
  ghost predicate SameBut(before: BlockStore, after: BlockStore, hashes: seq<nat>) {
    && (forall h :: h in before && h !in hashes ==> h in after && after[h] == before[h])
    && (forall h :: h in after ==> h in before || h in hashes)
  }

  /** Block b of the index is in the store. */
  ghost predicate IsPut(after: BlockStore, ix: ContentIndex, lists: seq<seq<nat>>, b: nat, v: VersionIndex,
                        bytes: nat -> seq<byte>)
    requires |ix.blockHashes| == |lists| && b < |lists|
  {
    Stored(after, ix.blockHashes[b], lists[b], ix.hashIdentifier, v, bytes)
  }

  /** The blocks that the backing store accepts are in it with their chunks, those that are not
      in the index are as before. */
  ghost predicate PutAccepted(before: BlockStore, after: BlockStore, ix: ContentIndex, lists: seq<seq<nat>>,
                              accepts: nat -> bool, v: VersionIndex, bytes: nat -> seq<byte>)
    requires |ix.blockHashes| == |lists|
  {
    SameBut(before, after, ix.blockHashes) && forall b :: 0 <= b < |lists| && accepts(ix.blockHashes[b]) ==>
        IsPut(after, ix, lists, b, v, bytes)
  }

  ghost predicate AllAccepted(ix: ContentIndex, accepts: nat -> bool) {
    forall b :: 0 <= b < |ix.blockHashes| ==> accepts(ix.blockHashes[b])
  }

  /** All blocks of the index are in the store. */
  ghost predicate Uploaded(before: BlockStore, after: BlockStore, ix: ContentIndex, lists: seq<seq<nat>>,
                           v: VersionIndex, bytes: nat -> seq<byte>)
    requires |ix.blockHashes| == |lists|
  {
    SameBut(before, after, ix.blockHashes) && forall b :: 0 <= b < |lists| ==> IsPut(after, ix, lists, b, v, bytes)
  }

  /** At most this block was put. */
  ghost predicate OnlyPut(before: BlockStore, after: BlockStore, hash: nat) {
    after == before || (hash in after && after == before[hash := after[hash]])
  }

  /** The job of one block: makes it from its slice of the index and puts it into the store,
      which may not accept it. */
  method WriteBlockJob(tree: Files, store: BlockStore, ix: ContentIndex, b: nat, first: nat, count: nat,
                       sizes: seq<nat>, table: LookupTable, parts: seq<Part>, accepts: nat -> bool,
                       ghost list: seq<nat>, ghost v: VersionIndex, ghost bytes: nat -> seq<byte>)
    returns (err: Option<Errno>, after: BlockStore)
    requires Knows(table, parts, v, bytes) && b < |ix.blockHashes| && |sizes| == |ix.chunkHashes| < NONE
    requires first + count <= |sizes| && count <= MAX_COUNT && ix.chunkHashes[first..first + count] == list
    requires AreSizes(sizes, ix.chunkHashes, bytes)
    ensures OnlyPut(store, after, ix.blockHashes[b])
    ensures err == None ==> accepts(ix.blockHashes[b])
    ensures TreeHolds(tree, v, bytes) && AllIn(ix.chunkHashes, table.Keys()) && accepts(ix.blockHashes[b]) ==>
              err == None
    ensures TreeHolds(tree, v, bytes) && err == None ==>
              Stored(after, ix.blockHashes[b], list, ix.hashIdentifier, v, bytes)
  {
    hide TreeHolds, BlockDescribes, Knows, IsTag;
    var hashes := ix.chunkHashes[first..first + count];
    assert forall h :: h in hashes ==> h in ix.chunkHashes;
    var block := WriteContentBlock(tree, ix.hashIdentifier, hashes, sizes[first..first + count], table, parts, v,
                                   bytes);
    if block.Failure? {
      return Some(block.errno), store;
    }
    if !accepts(ix.blockHashes[b]) {
      return Some(EIO), store;
    }
    err, after := None, store[ix.blockHashes[b] := block.value];
  }

  /** Where the chunks of every block are in the index. */
  ghost predicate Sliced(ix: ContentIndex, first: seq<nat>, count: seq<nat>, lists: seq<seq<nat>>) {
    && |first| == |count| == |lists| == |ix.blockHashes|
    && forall b :: 0 <= b < |lists| ==>
         first[b] + count[b] <= |ix.chunkHashes| && ix.chunkHashes[first[b]..first[b] + count[b]] == lists[b]
  }

  /** The number of chunks of every block fits into 32 bits. */
  ghost predicate CountsFit(lists: seq<seq<nat>>) {
    forall b :: 0 <= b < |lists| ==> |lists[b]| <= MAX_COUNT
  }

  lemma SliceOf(ix: ContentIndex, first: seq<nat>, count: seq<nat>, lists: seq<seq<nat>>, b: nat)
    requires Sliced(ix, first, count, lists) && b < |lists|
    ensures |first| == |count| == |ix.blockHashes| == |lists|
    ensures first[b] + count[b] <= |ix.chunkHashes| && ix.chunkHashes[first[b]..first[b] + count[b]] == lists[b]
  {
  }

  /** Nothing stops the jobs: the files are there, and the chunks were found. */
  ghost predicate Unhindered(tree: Files, ix: ContentIndex, table: LookupTable, v: VersionIndex,
                             bytes: nat -> seq<byte>)
    reads table, table.Repr
    requires table.Valid()
  {
    TreeHolds(tree, v, bytes) && Distinct(ix.blockHashes) && AllIn(ix.chunkHashes, table.Keys())
  }

  /** Runs the job of block b. */
  method RunWriteJob(tree: Files, ghost store: BlockStore, before: BlockStore, ix: ContentIndex, b: nat,
                     first: seq<nat>, count: seq<nat>, sizes: seq<nat>, table: LookupTable, parts: seq<Part>,
                     accepts: nat -> bool, ghost errs: seq<Option<Errno>>, ghost pending: set<nat>,
                     ghost v: VersionIndex, ghost lists: seq<seq<nat>>, ghost bytes: nat -> seq<byte>)
    returns (err: Option<Errno>, after: BlockStore)
    requires Knows(table, parts, v, bytes) && |ix.chunkHashes| < NONE && AreSizes(sizes, ix.chunkHashes, bytes)
    requires Sliced(ix, first, count, lists) && b < |lists| && CountsFit(lists)
    requires Progress(store, before, ix, lists, errs, pending + {b}, Unhindered(tree, ix, table, v, bytes), accepts, v,
                      bytes)
    ensures b < |errs| && Progress(store, after, ix, lists, errs[b := err], pending,
                                   Unhindered(tree, ix, table, v, bytes), accepts, v, bytes)
  {
    hide TreeHolds, Stored, Progress, Distinct, Knows, Sliced, AllIn, OnlyPut, LookupTable.Keys, BlockDescribes, IsTag;
    SliceOf(ix, first, count, lists, b);
    err, after := WriteBlockJob(tree, before, ix, b, first[b], count[b], sizes, table, parts, accepts, lists[b], v,
                                bytes);
    ProgressNext(store, before, after, ix, lists, errs, b, err, pending, Unhindered(tree, ix, table, v, bytes), accepts,
                 v, bytes);
  }

  /** Runs the jobs in any order. */
  method RunWriteJobs(tree: Files, store: BlockStore, ix: ContentIndex, first: seq<nat>, count: seq<nat>,
                      sizes: seq<nat>, table: LookupTable, parts: seq<Part>, accepts: nat -> bool,
                      ghost v: VersionIndex, ghost lists: seq<seq<nat>>, ghost bytes: nat -> seq<byte>)
    returns (errs: seq<Option<Errno>>, after: BlockStore)
    requires Knows(table, parts, v, bytes) && |ix.chunkHashes| < NONE && AreSizes(sizes, ix.chunkHashes, bytes)
    requires Sliced(ix, first, count, lists) && |lists| == |ix.blockHashes| && CountsFit(lists)
    ensures Progress(store, after, ix, lists, errs, {}, Unhindered(tree, ix, table, v, bytes), accepts, v, bytes)
  {
    hide Unhindered, Progress, Knows, Sliced, AreSizes, CountsFit;
    ghost var good := Unhindered(tree, ix, table, v, bytes);
    errs, after := seq(|ix.blockHashes|, b => None), store;
    var pending := UpTo(|ix.blockHashes|);
    ProgressBegins(store, ix, lists, errs, good, accepts, v, bytes);
    while pending != {}
      invariant |errs| == |lists| && forall b :: b in pending ==> 0 <= b < |lists|
      invariant Progress(store, after, ix, lists, errs, pending, good, accepts, v, bytes)
      decreases |pending|
    {
      var b :| b in pending;
      assert pending - {b} + {b} == pending;
      pending := pending - {b};
      var err;
      err, after := RunWriteJob(tree, store, after, ix, b, first, count, sizes, table, parts, accepts, errs, pending, v,
                                lists, bytes);
      errs := errs[b := err];
    }
  }

  /** What the jobs that are not pending have done: they fail if their block is not accepted, and
      only then if nothing else stops them. */
  ghost predicate Progress(store: BlockStore, after: BlockStore, ix: ContentIndex, lists: seq<seq<nat>>,
                           errs: seq<Option<Errno>>, pending: set<nat>, good: bool, accepts: nat -> bool,
                           v: VersionIndex, bytes: nat -> seq<byte>)
  {
    && |errs| == |lists| == |ix.blockHashes| && SameBut(store, after, ix.blockHashes)
    && forall b :: 0 <= b < |lists| && b !in pending ==>
         && (errs[b] == None ==> accepts(ix.blockHashes[b]))
         && (good && accepts(ix.blockHashes[b]) ==> errs[b] == None && IsPut(after, ix, lists, b, v, bytes))
  }

  lemma ProgressBegins(store: BlockStore, ix: ContentIndex, lists: seq<seq<nat>>, errs: seq<Option<Errno>>, good: bool,
                       accepts: nat -> bool, v: VersionIndex, bytes: nat -> seq<byte>)
    requires |errs| == |lists| == |ix.blockHashes|
    ensures Progress(store, store, ix, lists, errs, UpTo(|lists|), good, accepts, v, bytes)
  {
    hide IsPut;
  }

  lemma ProgressNext(store: BlockStore, before: BlockStore, after: BlockStore, ix: ContentIndex, lists: seq<seq<nat>>,
                     errs: seq<Option<Errno>>, b: nat, err: Option<Errno>, pending: set<nat>, good: bool,
                     accepts: nat -> bool, v: VersionIndex, bytes: nat -> seq<byte>)
    requires b < |lists| && Progress(store, before, ix, lists, errs, pending + {b}, good, accepts, v, bytes)
    requires |lists| == |ix.blockHashes| && OnlyPut(before, after, ix.blockHashes[b])
    requires err == None ==> accepts(ix.blockHashes[b])
    requires good ==>
               Distinct(ix.blockHashes) && (accepts(ix.blockHashes[b]) ==>
                 err == None && IsPut(after, ix, lists, b, v, bytes))
    ensures b < |errs| && Progress(store, after, ix, lists, errs[b := err], pending, good, accepts, v, bytes)
  {
    hide IsPut, SameBut, OnlyPut, Distinct;
    OnePut(store, before, after, ix.blockHashes, b);
    forall i | 0 <= i < |lists| && i !in pending && good && accepts(ix.blockHashes[i])
      ensures errs[b := err][i] == None && IsPut(after, ix, lists, i, v, bytes)
    {
      if i != b {
        StaysPut(before, after, ix, lists, b, i, v, bytes);
      }
    }
  }

  /** With all jobs over, there is no error exactly if all blocks are accepted. */
  lemma ProgressEnds(store: BlockStore, after: BlockStore, ix: ContentIndex, lists: seq<seq<nat>>,
                     errs: seq<Option<Errno>>, good: bool, accepts: nat -> bool, v: VersionIndex,
                     bytes: nat -> seq<byte>)
    requires Progress(store, after, ix, lists, errs, {}, good, accepts, v, bytes)
    ensures |lists| == |ix.blockHashes| == |errs|
    ensures good ==> PutAccepted(store, after, ix, lists, accepts, v, bytes)
    ensures good ==> ((forall b :: 0 <= b < |errs| ==> errs[b] == None) <==> AllAccepted(ix, accepts))
  {
    hide IsPut, SameBut;
  }

  /** Puts all blocks of the index into the store. With the files of the version it fails
      exactly if the backing store does not accept a block, and the others are stored. */
  method WriteContent(tree: Files, store: BlockStore, ix: ContentIndex, v: VersionIndex, accepts: nat -> bool,
                      ghost lists: seq<seq<nat>>, ghost bytes: nat -> seq<byte>)
    returns (err: Option<Errno>, after: BlockStore)
    requires ContentOk(ix) && BlockByBlock(ix, lists) && CountsFit(lists) && VersionDescribes(v, bytes)
    ensures !(forall h :: h in ix.chunkHashes ==> h in v.chunkHashes) ==> err == Some(EINVAL) && after == store
    ensures (forall h :: h in ix.chunkHashes ==> h in v.chunkHashes) && UsesAllChunks(v) && TreeHolds(tree, v, bytes)
              && Distinct(ix.blockHashes) ==>
              && (err == None <==> AllAccepted(ix, accepts))
              && PutAccepted(store, after, ix, lists, accepts, v, bytes)
  {
    hide LookupTable.Valid, Flatten, OwnerLists, TreeHolds, VersionDescribes, UsesAllChunks, PutAccepted, Distinct,
         Progress, AllAccepted, InAssets, Knows, NoneEmpty;
    after := store;
    if |ix.blockHashes| == 0 {
      NoBlocks(ix, lists, store, accepts, v, bytes);
      return None, after;
    }
    var sizes;
    err, sizes := CollectSizes(ix, v, bytes);
    if err.Some? {
      return;
    }
    var table, parts := CreateAssetPartLookup(v, bytes);
    FoundAll(ix, v);
    var first, count := SliceRuns(ix, lists);
    var errs;
    errs, after := RunWriteJobs(tree, store, ix, first, count, sizes, table, parts, accepts, v, lists, bytes);
    ProgressEnds(store, after, ix, lists, errs, Unhindered(tree, ix, table, v, bytes), accepts, v, bytes);
    err := LastError(errs);
  }

  lemma OnePut(store: BlockStore, before: BlockStore, after: BlockStore, hashes: seq<nat>, b: nat)
    requires SameBut(store, before, hashes) && b < |hashes|
    requires OnlyPut(before, after, hashes[b])
    ensures SameBut(store, after, hashes)
  {
  }

  lemma NoBlocks(ix: ContentIndex, lists: seq<seq<nat>>, store: BlockStore, accepts: nat -> bool, v: VersionIndex,
                 bytes: nat -> seq<byte>)
    requires ContentOk(ix) && BlockByBlock(ix, lists) && |ix.blockHashes| == 0
    ensures ix.chunkHashes == [] && PutAccepted(store, store, ix, lists, accepts, v, bytes) && AllAccepted(ix, accepts)
  {
  }

  lemma FoundAll(ix: ContentIndex, v: VersionIndex)
    ensures UsesAllChunks(v) && (forall h :: h in ix.chunkHashes ==> h in v.chunkHashes) ==>
              forall h :: h in ix.chunkHashes ==> InAssets(v, h, |v.assetSizes|)
  {
  }

  /** A put keeps the other blocks. */
  lemma StaysPut(before: BlockStore, after: BlockStore, ix: ContentIndex, lists: seq<seq<nat>>, b: nat, i: nat,
                 v: VersionIndex, bytes: nat -> seq<byte>)
    requires Distinct(ix.blockHashes) && |lists| == |ix.blockHashes| && b < |lists| && i < |lists| && i != b
    requires OnlyPut(before, after, ix.blockHashes[b]) && IsPut(before, ix, lists, i, v, bytes)
    ensures IsPut(after, ix, lists, i, v, bytes)
  {
    hide BlockDescribes, IsTag;
    assert ix.blockHashes[if i < b then i else b] != ix.blockHashes[if i < b then b else i];
  }

  /** The error of the last job that failed. */
  method LastError(errs: seq<Option<Errno>>) returns (err: Option<Errno>)
    ensures err == None <==> forall j :: 0 <= j < |errs| ==> errs[j] == None
    ensures err.Some? ==> exists j :: 0 <= j < |errs| && errs[j] == err && forall i :: j < i < |errs| ==>
              errs[i] == None
  {
    err := None;
    var n: nat := |errs|;
    while n > 0
      invariant n <= |errs|
      invariant err == None ==> forall j :: n <= j < |errs| ==> errs[j] == None
      invariant err.Some? ==> exists j :: n <= j < |errs| && errs[j] == err && forall i :: j < i < |errs| ==>
                  errs[i] == None
    {
      n := n - 1;
      if errs[n].Some? && err == None {
        err := errs[n];
      }
    }
  }
}

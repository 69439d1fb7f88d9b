/** From one end to the other: a version is uploaded from a source tree (cmd/main.c), and
    its files are read back from the block store (lib/blockstorestorage). */
module Delivery {
  import opened Prelude
  import opened LookupTables
  import opened Chunking
  import opened AssetChunking
  import opened VersionCreation
  import opened Indexes
  import opened ContentAlgebra
  import opened Packing
  import opened Reading
  import opened Syncing
  import opened ContentWriting
  import opened HashDiff
  import Storages

  /** Every chunk of the index is in its block, and blocks hold the bytes behind their
      hashes. */
  ghost predicate Holds(store: BlockStore, ix: ContentIndex, bytes: nat -> seq<byte>)
    requires ContentOk(ix)
  {
    && (forall h :: h in store ==> BlockDescribes(store[h], bytes))
    && forall p :: p in Pairs(ix) ==> p.block in store && p.hash in store[p.block].chunkHashes
  }

  /** Block hashes tell the blocks apart: those of the index, and those in the store. */
  ghost predicate BlocksTold(ix: ContentIndex, lists: seq<seq<nat>>, store: BlockStore) {
    && Distinct(ix.blockHashes) && |ix.blockHashes| == |lists|
    && forall b :: 0 <= b < |lists| && ix.blockHashes[b] in store ==> store[ix.blockHashes[b]].chunkHashes == lists[b]
  }

  /** In an index that goes block by block, a chunk is in the list of its block. */
  lemma ChunkInList(ix: ContentIndex, lists: seq<seq<nat>>, p: Pair) returns (b: nat)
    requires ContentOk(ix) && BlockByBlock(ix, lists) && p in Pairs(ix)
    ensures b < |lists| && p.block == ix.blockHashes[b] && p.hash in lists[b]
  {
    hide Flatten, Offset, OwnerLists;
    var i :| 0 <= i < |ix.chunkHashes| && Pairs(ix)[i] == p;
    b := PieceAt(lists, i);
    OwnersOfRun(lists, b);
    PieceSlice(lists, b);
    assert Flatten(lists)[i] == lists[b][i - Offset(lists, b)];
  }

  /** After the upload the store holds the reused blocks and the new ones. */
  lemma UploadedHolds(before: BlockStore, after: BlockStore, S: ContentIndex, u: Upload, v: VersionIndex,
                      lists: seq<seq<nat>>, bytes: nat -> seq<byte>)
    requires ContentOk(S) && Covers(u, S, v) && Holds(before, S, bytes)
    requires BlockByBlock(u.missing, lists) && BlocksTold(u.missing, lists, before)
               && Uploaded(before, after, u.missing, lists, v, bytes)
    ensures Holds(after, u.merged, bytes)
  {
    hide BlockByBlock, BlockDescribes, DistinctHashes, SameBut, Stored, Distinct, Elems;
    forall h | h in after
      ensures BlockDescribes(after[h], bytes)
    {
      StoredAs(before, after, u.missing, lists, v, bytes, h);
    }
    forall p | p in Pairs(u.merged)
      ensures p.block in after && p.hash in after[p.block].chunkHashes
    {
      if p in Pairs(u.missing) {
        var b := ChunkInList(u.missing, lists, p);
        StoredAt(after, u.missing, lists, b, before, v, bytes);
      } else {
        assert p in Pairs(S);
        StoredAs(before, after, u.missing, lists, v, bytes, p.block);
      }
    }
  }

  lemma StoredAt(after: BlockStore, ix: ContentIndex, lists: seq<seq<nat>>, b: nat, before: BlockStore,
                 v: VersionIndex, bytes: nat -> seq<byte>)
    requires |ix.blockHashes| == |lists| && Uploaded(before, after, ix, lists, v, bytes) && b < |lists|
    ensures ix.blockHashes[b] in after && after[ix.blockHashes[b]].chunkHashes == lists[b]
  {
    hide BlockDescribes;
    assert IsPut(after, ix, lists, b, v, bytes);
  }

  /** A block that was in the store still has its chunks, also if it was put again. */
  lemma StoredAs(before: BlockStore, after: BlockStore, ix: ContentIndex, lists: seq<seq<nat>>, v: VersionIndex,
                 bytes: nat -> seq<byte>, h: nat)
    requires |ix.blockHashes| == |lists| && Uploaded(before, after, ix, lists, v, bytes) && (h in before || h in after)
    requires BlockByBlock(ix, lists) && BlocksTold(ix, lists, before)
    requires forall g :: g in before ==> BlockDescribes(before[g], bytes)
    ensures h in after && BlockDescribes(after[h], bytes)
    ensures h in before ==> after[h].chunkHashes == before[h].chunkHashes
  {
    hide BlockByBlock, BlockDescribes;
    if h in ix.blockHashes {
      var b :| 0 <= b < |ix.blockHashes| && ix.blockHashes[b] == h;
      assert IsPut(after, ix, lists, b, v, bytes);
    }
  }

  lemma MergedServes(after: BlockStore, S: ContentIndex, u: Upload, v: VersionIndex, bytes: nat -> seq<byte>)
    requires ContentOk(S) && Covers(u, S, v) && Holds(after, u.merged, bytes) && VersionDescribes(v, bytes)
    ensures Serves(v, u.merged, after, bytes)
  {
    hide VersionDescribes, BlockDescribes, DistinctHashes;
    forall i | 0 <= i < |u.merged.chunkHashes|
      ensures var h := u.merged.blockHashes[u.merged.chunkBlockIndexes[i]];
              h in after && u.merged.chunkHashes[i] in after[h].chunkHashes
    {
      assert Pairs(u.merged)[i] in Pairs(u.merged);
    }
    forall i | 0 <= i < |v.chunkHashes|
      ensures v.chunkHashes[i] in u.merged.chunkHashes
    {
      assert v.chunkHashes[i] in Elems(u.merged.chunkHashes);
    }
  }

  /** The hash tells the blocks apart that can be made of the missing chunks, and these from
      those in the store, and the store keeps its blocks under their hashes. */
  ghost predicate HashTells(hashOf: seq<nat> -> nat, missing: seq<nat>, store: BlockStore) {
    && (forall h :: h in store ==> h == hashOf(store[h].chunkHashes))
    && forall x, y ::
         IsRun(x, missing) && (IsRun(y, missing) || IsListIn(y, store)) && hashOf(x) == hashOf(y) ==> x == y
  }

  /** Some chunks of the list that follow each other. */
  ghost predicate IsRun(run: seq<nat>, list: seq<nat>) {
    run != [] && exists i, j :: 0 <= i <= j <= |list| && run == list[i..j]
  }

  /** There is such a hash with 64 bits for any chunks of a version. */
  lemma SomeHashTells(missing: seq<nat>) returns (hashOf: seq<nat> -> nat)
    requires Distinct(missing) && |missing| <= MAX_COUNT
    ensures HashTells(hashOf, missing, map[]) && forall x :: hashOf(x) < 0x1_0000_0000_0000_0000
  {
    hide PlaceAndLength, IsRun, Distinct;
    hashOf := (x: seq<nat>) => PlaceAndLength(missing, x);
    forall x
      ensures hashOf(x) < 0x1_0000_0000_0000_0000
    {
      PlaceIsShort(missing, x);
    }
    forall x, y | IsRun(x, missing) && IsRun(y, missing) && hashOf(x) == hashOf(y)
      ensures x == y
    {
      RunsTold(missing, x, y);
    }
  }

  lemma RunsTold(list: seq<nat>, x: seq<nat>, y: seq<nat>)
    requires Distinct(list) && |list| <= MAX_COUNT && IsRun(x, list) && IsRun(y, list)
    requires PlaceAndLength(list, x) == PlaceAndLength(list, y)
    ensures x == y
  {
    hide PlaceAndLength, Distinct, IsRun;
    var i, j := RunAt(list, x);
    var k, l := RunAt(list, y);
    SamePlace(i, j - i, k, l - k);
  }

  lemma RunAt(list: seq<nat>, run: seq<nat>) returns (i: nat, j: nat)
    requires Distinct(list) && |list| <= MAX_COUNT && IsRun(run, list)
    ensures i < j <= |list| && run == list[i..j]
    ensures PlaceAndLength(list, run) == i * 0x1_0000_0000 + (j - i)
  {
    hide PlaceAndLength, Distinct;
    i, j :| 0 <= i <= j <= |list| && run == list[i..j];
    RunHash(list, i, j);
  }

  lemma SamePlace(i: nat, m: nat, k: nat, n: nat)
    requires m <= MAX_COUNT && n <= MAX_COUNT && i * 0x1_0000_0000 + m == k * 0x1_0000_0000 + n
    ensures i == k && m == n
  {
  }

  /** Where a run starts and how long it is, in 32 bits each. */
  function PlaceAndLength(list: seq<nat>, run: seq<nat>): nat {
    if run == [] || |run| > MAX_COUNT then 0 else FirstMatch(list, run[0]) * 0x1_0000_0000 + |run|
  }

  lemma PlaceIsShort(list: seq<nat>, run: seq<nat>)
    requires |list| <= MAX_COUNT
    ensures PlaceAndLength(list, run) < 0x1_0000_0000_0000_0000
  {
    hide FirstMatch;
    FirstMatchNone(list, if run == [] then 0 else run[0]);
  }

  lemma RunHash(list: seq<nat>, i: nat, j: nat)
    requires Distinct(list) && i < j <= |list| <= MAX_COUNT
    ensures PlaceAndLength(list, list[i..j]) == i * 0x1_0000_0000 + (j - i)
  {
    hide FirstMatch;
    FirstMatchNone(list, list[i]);
  }

  ghost predicate IsListIn(list: seq<nat>, store: BlockStore) {
    exists h :: h in store && store[h].chunkHashes == list
  }

  lemma {:induction false} FirstOfList(lists: seq<seq<nat>>, b: nat)
    requires b < |lists| && lists[b] != []
    ensures Offset(lists, b) < Offset(lists, b + 1) <= |Flatten(lists)|
              && Flatten(lists)[Offset(lists, b)] == lists[b][0]
  {
    hide Flatten, Offset;
    PieceSlice(lists, b);
    assert Flatten(lists)[Offset(lists, b)..Offset(lists, b + 1)][0] == lists[b][0];
  }

  lemma {:induction false} ListsDiffer(lists: seq<seq<nat>>, b: nat, c: nat)
    requires Distinct(Flatten(lists)) && NoneEmpty(lists) && b < c < |lists|
    ensures lists[b] != lists[c]
  {
    hide Flatten, Offset;
    FirstOfList(lists, b);
    FirstOfList(lists, c);
    OffsetMonotone(lists, b + 1, c);
  }

  lemma ListIsRun(ix: ContentIndex, lists: seq<seq<nat>>, b: nat)
    requires BlockByBlock(ix, lists) && b < |lists|
    ensures IsRun(lists[b], ix.chunkHashes)
  {
    hide Flatten, Offset, OwnerLists;
    PieceSlice(lists, b);
  }

  lemma HashTellsBlocks(hashOf: seq<nat> -> nat, store: BlockStore, ix: ContentIndex, lists: seq<seq<nat>>)
    requires HashTells(hashOf, ix.chunkHashes, store) && BlockByBlock(ix, lists) && NamedBy(ix, lists, hashOf)
    requires Distinct(ix.chunkHashes)
    ensures BlocksTold(ix, lists, store)
  {
    hide Flatten, OwnerLists, IsRun;
    forall b | 0 <= b < |lists|
      ensures IsRun(lists[b], ix.chunkHashes)
    {
      ListIsRun(ix, lists, b);
    }
    forall b, c | 0 <= b < c < |lists|
      ensures ix.blockHashes[b] != ix.blockHashes[c]
    {
      ListsDiffer(lists, b, c);
    }
    forall b | 0 <= b < |lists| && ix.blockHashes[b] in store
      ensures store[ix.blockHashes[b]].chunkHashes == lists[b]
    {
      assert IsListIn(store[ix.blockHashes[b]].chunkHashes, store);
    }
  }

  /** The limits are positive, and the store uses the hash function of the version. */
  predicate CanUpload(S: ContentIndex, v: VersionIndex, lim: Limits) {
    && lim.Ok() && Limits(S.maxBlockSize, S.maxChunksPerBlock).Ok()
    && (S.blockHashes == [] || v.chunkHashes == [] || S.hashIdentifier == v.hashIdentifier)
  }

  /** Works out what the store lacks and writes it. If the files are those of the version,
      the store then serves it. */
  method UploadVersion(tree: Files, store: BlockStore, S: ContentIndex, v: VersionIndex, lim: Limits,
                       hashOf: seq<nat> -> nat, workerCount: nat, accepts: nat -> bool, ghost bytes: nat -> seq<byte>)
    returns (r: Result<Upload>, after: BlockStore)
    requires ContentOk(S) && Holds(store, S, bytes) && |S.chunkHashes| + |v.chunkHashes| < 0xffff_0000_0000
    requires VersionDescribes(v, bytes) && Distinct(v.chunkHashes)
    requires HashTells(hashOf, NotIn(v.chunkHashes, S.chunkHashes), store)
    requires NoWrap(v.chunkSizes, lim) && NoWrap(v.chunkSizes, Limits(S.maxBlockSize, S.maxChunksPerBlock))
    ensures UsesAllChunks(v) && TreeHolds(tree, v, bytes) ==>
              && (r.Success? ==> CanUpload(S, v, lim))
              && (CanUpload(S, v, lim) && (forall h :: accepts(h)) ==> r.Success?)
    ensures UsesAllChunks(v) && TreeHolds(tree, v, bytes) && r.Success? ==>
              && Covers(r.value, S, v) && Holds(after, r.value.merged, bytes) && Serves(v, r.value.merged, after, bytes)
              && (v.chunkHashes != [] ==> r.value.merged.hashIdentifier == v.hashIdentifier)
              && AllAccepted(r.value.missing, accepts)
  {
    hide NoWrap, VersionDescribes, UsesAllChunks, TreeHolds, Covers, BlockByBlock, NamedBy, Holds, BlocksTold, Uploaded,
         PutAccepted, AllAccepted, HashTells, Serves;
    ShapeOf(v, bytes);
    after := store;
    r := Upsync(S, v, v.hashIdentifier, lim, hashOf, workerCount);
    if r.Failure? {
      return;
    }
    var u := r.value;
    ghost var lists :| BlockByBlock(u.missing, lists) && NamedBy(u.missing, lists, hashOf);
    MissingIsOfVersion(u, S, v);
    HashTellsBlocks(hashOf, store, u.missing, lists);
    Told(u.missing, lists, store);
    ListsFit(u.missing, v, lists);
    var err;
    err, after := WriteContent(tree, store, u.missing, v, accepts, lists, bytes);
    AcceptedUploaded(store, after, u.missing, lists, accepts, v, bytes);
    if err.Some? {
      return Failure(err.value), after;
    }
    if UsesAllChunks(v) && TreeHolds(tree, v, bytes) {
      UploadedHolds(store, after, S, u, v, lists, bytes);
      MergedServes(after, S, u, v, bytes);
    }
  }

  lemma AcceptedUploaded(before: BlockStore, after: BlockStore, ix: ContentIndex, lists: seq<seq<nat>>,
                         accepts: nat -> bool, v: VersionIndex, bytes: nat -> seq<byte>)
    requires |ix.blockHashes| == |lists|
    ensures (forall h :: accepts(h)) ==> AllAccepted(ix, accepts)
    ensures PutAccepted(before, after, ix, lists, accepts, v, bytes) && AllAccepted(ix, accepts) ==>
              Uploaded(before, after, ix, lists, v, bytes)
  {
    hide SameBut, IsPut;
  }

  /** No block of the missing index has more chunks than the version. */
  lemma ListsFit(ix: ContentIndex, v: VersionIndex, lists: seq<seq<nat>>)
    requires VersionShape(v) && BlockByBlock(ix, lists) && Distinct(ix.chunkHashes)
               && forall h :: h in ix.chunkHashes ==> h in v.chunkHashes
    ensures CountsFit(lists)
  {
    hide Flatten, Offset, OwnerLists;
    DistinctCount(ix.chunkHashes);
    ElemsFit(v.chunkHashes);
    FewerElems(Elems(ix.chunkHashes), Elems(v.chunkHashes));
    forall b | 0 <= b < |lists|
      ensures |lists[b]| <= MAX_COUNT
    {
      PieceSlice(lists, b);
    }
  }

  lemma ShapeOf(v: VersionIndex, bytes: nat -> seq<byte>)
    requires VersionDescribes(v, bytes)
    ensures VersionShape(v)
  {
  }

  lemma Told(ix: ContentIndex, lists: seq<seq<nat>>, store: BlockStore)
    requires BlocksTold(ix, lists, store)
    ensures Distinct(ix.blockHashes) && |ix.blockHashes| == |lists|
  {
  }

  lemma MissingIsOfVersion(u: Upload, S: ContentIndex, v: VersionIndex)
    requires ContentOk(S) && Covers(u, S, v)
    ensures ContentOk(u.missing) && Distinct(u.missing.chunkHashes)
    ensures u.missing.chunkHashes == NotIn(v.chunkHashes, S.chunkHashes)
    ensures forall h :: h in u.missing.chunkHashes ==> h in v.chunkHashes
  {
    forall h | h in u.missing.chunkHashes
      ensures h in v.chunkHashes
    {
      assert h in Elems(u.missing.chunkHashes);
    }
  }

  /** Uploads a version and reads a slice of one of its files from the store: the buffer
      has the bytes of the source file. */
  method UploadAndRead(tree: Files, store: BlockStore, S: ContentIndex, v: VersionIndex, lim: Limits,
                       hashOf: seq<nat> -> nat, workerCount: nat, accepts: nat -> bool, a: nat, start: nat, size: nat,
                       buffer: array<byte>, ghost bytes: nat -> seq<byte>)
    returns (r: Result<Upload>, after: BlockStore)
    requires ContentOk(S) && Holds(store, S, bytes) && |S.chunkHashes| + |v.chunkHashes| < 0xffff_0000_0000
    requires VersionDescribes(v, bytes) && Distinct(v.chunkHashes) && UsesAllChunks(v) && TreeHolds(tree, v, bytes)
    requires HashTells(hashOf, NotIn(v.chunkHashes, S.chunkHashes), store)
    requires NoWrap(v.chunkSizes, lim) && NoWrap(v.chunkSizes, Limits(S.maxBlockSize, S.maxChunksPerBlock))
    requires a < |v.names| && v.assetChunkCounts[a] > 0 && start + size <= |tree[v.names[a]]| && size <= buffer.Length
    modifies buffer
    ensures r.Success? ==> CanUpload(S, v, lim)
    ensures CanUpload(S, v, lim) && (forall h :: accepts(h)) ==> r.Success?
    ensures r.Success? ==> buffer[..size] == tree[v.names[a]][start..start + size]
  {
    hide NoWrap, UsesAllChunks, Covers, Holds, HashTells, Serves, ServesPart, BlockStoreStorage.Valid,
         BlockStoreStorage.Fetched, Flatten, Offset, VersionDescribes, LookupTable.Valid;
    r, after := UploadVersion(tree, store, S, v, lim, hashOf, workerCount, accepts, bytes);
    if r.Failure? {
      return;
    }
    ServedInPart(v, r.value.merged, after, bytes);
    var storage := new BlockStoreStorage(v, r.value.merged, after, bytes);
    var file := new OpenFile(a);
    FileOpened(storage, file);
    storage.AllFetched(a, start, start + size);
    var outcome := storage.ReadFile(file, start, size, buffer);
  }

  lemma ServedInPart(v: VersionIndex, ix: ContentIndex, store: BlockStore, bytes: nat -> seq<byte>)
    requires Serves(v, ix, store, bytes)
    ensures ServesPart(v, ix, store, bytes)
  {
  }

  lemma FileOpened(storage: BlockStoreStorage, file: OpenFile)
    requires storage.Valid() && file.assetIndex < |storage.version.assetSizes| && file.seekChunkOffset == 0
               && file.seekAssetPos == 0
    ensures storage.OpenOk(file)
  {
    OffsetEnds(Pieces(storage.version, storage.bytes, file.assetIndex));
  }

  /** The tree has these files. */
  ghost predicate IsTree(tree: Files, files: seq<SourceFile>) {
    forall a :: 0 <= a < |files| && !Storages.IsDirPath(files[a].path) ==>
        files[a].path in tree && tree[files[a].path] == files[a].data
  }

  /** An index of the files of a tree is held by the tree. */
  lemma IndexedTree(tree: Files, files: seq<SourceFile>, v: VersionIndex, bytes: nat -> seq<byte>)
    requires IsTree(tree, files) && DirsHaveNoData(files) && VersionDescribes(v, bytes)
    requires v.names == Names(files) && forall a :: 0 <= a < |files| ==> AssetBytes(v, bytes, a) == files[a].data
    ensures TreeHolds(tree, v, bytes)
    ensures forall a :: 0 <= a < |files| && v.assetChunkCounts[a] > 0 ==>
              v.chunkHashes != [] && files[a].path in tree && tree[files[a].path] == files[a].data
  {
    hide AssetBytes;
    forall a | 0 <= a < |files| && v.assetChunkCounts[a] > 0
      ensures !Storages.IsDirPath(files[a].path) && v.chunkHashes != []
    {
      assert HasChunk(v, a, 0) && ChunkOf(v, a, 0) < |v.chunkHashes|;
      if files[a].data == [] {
        SomeBytes(v, a, bytes);
      }
    }
  }

  lemma SomeBytes(v: VersionIndex, a: nat, bytes: nat -> seq<byte>)
    requires VersionDescribes(v, bytes) && a < |v.assetSizes| && v.assetChunkCounts[a] > 0
    ensures AssetBytes(v, bytes, a) != []
  {
    hide Flatten, Offset;
    PieceSlice(Pieces(v, bytes, a), 0);
  }

  lemma SizesDoNotWrap(sizes: seq<nat>, max: nat, lim: Limits)
    requires max < 0x8000_0000 && lim.MaxSize() < 0x8000_0000 && forall k :: 0 <= k < |sizes| ==> sizes[k] <= max
    ensures NoWrap(sizes, lim)
  {
  }

  /** Files are chunked and indexed, what the store lacks is packed and written, and a slice
      of a file is read back through the merged index: it has the bytes of the file. */
  method IndexUploadAndRead(files: seq<SourceFile>, tree: Files, permissions: seq<nat>, target: nat,
                            discriminator: bv32, table: seq<bv32>, hashIdentifier: nat, hashOf: seq<byte> -> nat,
                            listHash: seq<nat> -> nat, pathHash: string -> nat, store: BlockStore, S: ContentIndex,
                            lim: Limits, workerCount: nat, accepts: nat -> bool, a: nat, start: nat, size: nat,
                            buffer: array<byte>, ghost bytes: nat -> seq<byte>)
    returns (r: Result<Upload>, after: BlockStore)
    requires TargetOk(target, discriminator, table) && |permissions| == |files| && IsTree(tree, files)
               && DirsHaveNoData(files)
    requires var p := ChunkerParams(target, discriminator, table);
             && ChunkTotal(files, p, target * 1024) < 0x1_0000_0000 && Tells(files, p, target * 1024, hashOf, bytes)
             && HashTells(listHash, NotIn(ListedHashes(files, p, target * 1024, hashOf), S.chunkHashes), store)
    requires ContentOk(S) && Holds(store, S, bytes) && |S.chunkHashes| < 0xfffe_0000_0000
    requires lim.MaxSize() < 0x8000_0000 && Limits(S.maxBlockSize, S.maxChunksPerBlock).MaxSize() < 0x8000_0000
    requires a < |files| && !Storages.IsDirPath(files[a].path) && files[a].data != []
    requires start + size <= |files[a].data| && size <= buffer.Length
    modifies buffer
    ensures r.Success? ==>
              && lim.Ok() && Limits(S.maxBlockSize, S.maxChunksPerBlock).Ok()
              && (S.blockHashes == [] || S.hashIdentifier == hashIdentifier)
    ensures lim.Ok() && Limits(S.maxBlockSize, S.maxChunksPerBlock).Ok()
              && (S.blockHashes == [] || S.hashIdentifier == hashIdentifier) && (forall h :: accepts(h)) ==>
              r.Success?
    ensures r.Success? ==> buffer[..size] == files[a].data[start..start + size]
  {
    hide Ok, ChunkTotal, ListedHashes, Tells, IsTree, HashTells, NoWrap, UsesAllChunks, VersionDescribes, TreeHolds,
         Covers, Holds, VersionShape, VersionOk, AssetBytes, ContentHashed, ContentOk;
    ghost var p := ChunkerParams(target, discriminator, table);
    ParamsOk(target, discriminator, table);
    var v := CreateVersionIndex(files, permissions, target, discriminator, table, hashIdentifier, hashOf,
                                listHash, pathHash, bytes);
    IndexedTree(tree, files, v, bytes);
    SizesDoNotWrap(v.chunkSizes, p.max, lim);
    SizesDoNotWrap(v.chunkSizes, p.max, Limits(S.maxBlockSize, S.maxChunksPerBlock));
    r, after := UploadAndRead(tree, store, S, v, lim, listHash, workerCount, accepts, a, start, size, buffer,
                              bytes);
  }
}

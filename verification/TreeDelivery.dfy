/** A whole delivery: what a store lacks of a version is uploaded (cmd/main.c), and a tree of
    another version is brought to it from the blocks of the store. */
module TreeDelivery {
  import opened Prelude
  import opened Chunking
  import opened AssetChunking
  import opened Indexes
  import opened Packing
  import opened Syncing
  import opened ContentWriting
  import opened VersionCreation
  import opened Delivery
  import opened ContentAlgebra
  import opened CreateContent
  import opened LookupTables
  import Assets = AssetWriting
  import Diffs = VersionDiffs
  import HashDiff
  import Storages
  import WriteLists
  import Trees = ApplyDiffs
  import Versions = VersionChanges
  import Targets = TargetWriting

  /** The tree that is updated: it is that of the version, and hashes tell what they should. */
  ghost predicate CanUpdate(tree: Trees.Tree, S: VersionIndex, T: VersionIndex, pathHash: string -> nat,
                            bytes: nat -> seq<byte>) {
    && Trees.IsTreeVersion(S) && Trees.IsTreeVersion(T) && Trees.HashesTell(S, T, pathHash)
         && Versions.HashesMeanContent(S, T, bytes)
    && Trees.Holds(tree, S, bytes) && Trees.HoldsPermissions(tree, S)
    && forall a :: 0 <= a < |T.names| && Storages.IsDirPath(T.names[a]) ==> T.assetChunkCounts[a] == 0
  }

  /** The assets that a difference writes have no chunks. */
  ghost predicate NoChunks(T: VersionIndex, list: seq<nat>) {
    VersionShape(T) && forall k :: 0 <= k < |list| && list[k] < |T.names| ==> T.assetChunkCounts[list[k]] == 0
  }

  /** The index of a difference has blocks exactly if some asset of the difference has chunks. */
  lemma {:induction false} NoRefs(T: VersionIndex, list: seq<nat>)
    requires VersionShape(T) && forall k :: 0 <= k < |list| ==> list[k] < |T.names|
    ensures AllRefs(T, list) == [] <==> NoChunks(T, list)
  {
    if list != [] {
      NoRefs(T, list[..|list| - 1]);
    }
  }

  lemma BlocksIffWanted(T: VersionIndex, list: seq<nat>, requested: ContentIndex)
    requires VersionShape(T) && forall k :: 0 <= k < |list| ==> list[k] < |T.names|
    requires ContentOk(requested) && |requested.blockHashes| <= |requested.chunkHashes|
    requires requested.chunkHashes == ChunkHashes(ReferredChunks(T, AllRefs(T, list)))
    ensures requested.blockHashes == [] <==> NoChunks(T, list)
  {
    hide ReferredChunks, AllRefs, VersionShape, NoChunks;
    NoRefs(T, list);
    BlocksIffChunks(requested);
    var refs, cs := AllRefs(T, list), ReferredChunks(T, AllRefs(T, list));
    if refs != [] {
      ElementIn(At(T.chunkHashes, refs), 0);
    }
    if cs != [] {
      ElementIn(ChunkHashes(cs), 0);
    }
  }

  /** Retargeted to the content of a difference, a store that serves the target still has
      every chunk of the assets to write, in blocks that it can fetch. */
  lemma RetargetedServes(T: VersionIndex, R: ContentIndex, blocks: BlockStore, bytes: nat -> seq<byte>, list: seq<nat>,
                         requested: ContentIndex, content: ContentIndex)
    requires Serves(T, R, blocks, bytes) && forall k :: 0 <= k < |list| ==> list[k] < |T.names|
    requires requested.chunkHashes == ChunkHashes(ReferredChunks(T, AllRefs(T, list)))
    requires ContentOk(content) && Pairs(content) == KeepFirst(Pairs(R), Elems(requested.chunkHashes))
    requires forall a :: 0 <= a < |T.names| && Storages.IsDirPath(T.names[a]) ==> T.assetChunkCounts[a] == 0
    ensures Targets.AllAvailable(T, list, content, blocks)
  {
    hide VersionDescribes, BlocksDescribed, ReferredChunks, AllRefs, KeepFirst, Elems;
    ShapeOf(T, bytes);
    ReusedChunks(R, Elems(requested.chunkHashes), content);
    forall k, c | 0 <= k < |list| && 0 <= c < T.assetChunkCounts[list[k]]
      ensures Targets.Fetchable(content, blocks, HashOf(T, list[k], c))
    {
      ChunkReferred(T, list, k, c);
      KeptFetchable(T, R, blocks, bytes, Elems(requested.chunkHashes), content, list[k], c);
    }
  }

  /** A requested chunk is fetched from a block of the store that has it. */
  lemma KeptFetchable(T: VersionIndex, R: ContentIndex, blocks: BlockStore, bytes: nat -> seq<byte>,
                      requested: set<nat>, content: ContentIndex, a: nat, c: nat)
    requires Serves(T, R, blocks, bytes) && HasChunk(T, a, c) && HashOf(T, a, c) in requested
    requires ContentOk(content) && (forall p :: p in Pairs(content) ==> p in Pairs(R))
    requires Elems(content.chunkHashes) == Elems(R.chunkHashes) * requested
    ensures Targets.Fetchable(content, blocks, HashOf(T, a, c))
  {
    hide VersionDescribes, BlocksDescribed;
    var h := HashOf(T, a, c);
    assert T.chunkHashes[ChunkOf(T, a, c)] in R.chunkHashes;
    assert h in Elems(R.chunkHashes) && h in Elems(content.chunkHashes);
    FirstMatchNone(content.chunkHashes, h);
    var i := FirstMatch(content.chunkHashes, h);
    assert Pairs(content)[i] in Pairs(content);
    var j :| 0 <= j < |R.chunkHashes| && Pairs(R)[j] == Pairs(content)[i];
    assert R.chunkHashes[j] == h;
  }

  /** Updates a tree as the command does: the difference; nothing more if it is empty; the
      content index of what it adds and modifies; this retargeted to the store; and the change
      from the blocks of the store. */
  method UpdateFrom(store: Storages.Storage, R: ContentIndex, blocks: BlockStore, S: VersionIndex, T: VersionIndex,
                    pathHash: string -> nat, lim: Limits, listHash: seq<nat> -> nat, workerCount: nat, retain: bool,
                    ghost bytes: nat -> seq<byte>)
    returns (err: Option<Errno>, d: Diffs.VersionDiff)
    requires CanUpdate(store.tree, S, T, pathHash, bytes) && Serves(T, R, blocks, bytes) && NoWrap(T.chunkSizes, lim)
    modifies store
    ensures VersionShape(S) && VersionShape(T) && Versions.Setting(S, T, pathHash, d)
    ensures store.busy == {} ==>
              (err == None <==>
               || Versions.IsEmpty(d, retain)
               || ((T.chunkHashes == [] || lim.Ok())
                   && (R.blockHashes == [] || NoChunks(T, Versions.ToWrite(d))
                       || R.hashIdentifier == T.hashIdentifier)))
    ensures store.busy == {} && err == None ==>
              Trees.Holds(store.tree, T, bytes) && (retain ==>
                (Trees.HoldsPermissions(store.tree, T) <==> Versions.PermissionsCarryOver(S, T)))
    ensures store.busy == {} && err == None && !retain ==> Versions.PermissionsLeft(store.tree, S, T)
  {
    hide Trees.IsTreeVersion, Trees.HashesTell, Versions.HashesMeanContent, Trees.Holds, Trees.HoldsPermissions,
         VersionDescribes, BlocksDescribed, Versions.PermissionsCarryOver, Targets.AllAvailable, VersionShape,
         Versions.Setting, Diffs.Describes, NoChunks, NoWrap, Elems, KeepFirst, Distinct, BlockSet, CanUpdate, Serves,
         ReferredChunks, AllRefs, Pack, FlattenedFrom, Versions.ToWrite, Versions.IsEmpty, ContentOk,
         Trees.HoldsBut, Targets.AllReliable, WriteLists.InContent, Versions.PermissionsLeft;
    CanUpdateParts(store.tree, S, T, pathHash, bytes);
    ServesParts(T, R, blocks, bytes);
    Trees.PathHashesDiffer(S, pathHash);
    Trees.PathHashesDiffer(T, pathHash);
    d := Diffs.CreateVersionDiff(S, T, pathHash);
    err := None;
    Versions.IsSetting(S, T, pathHash, d);
    Versions.ToWriteOk(S, T, pathHash, d);
    if Versions.IsEmpty(d, retain) {
      Versions.EmptyHolds(store.tree, S, T, pathHash, d, bytes, retain);
      return;
    }
    ghost var list := Versions.ToWrite(d);
    ListedParts(d);
    var requested := CreateContentIndexFromDiff(T.hashIdentifier, T, d.targetAdded, d.targetContentModified, lim,
                                                listHash);
    if requested.Failure? {
      return Some(requested.errno), d;
    }
    BlocksIffWanted(T, list, requested.value);
    var content := RetargetContent(R, requested.value);
    if content.Failure? {
      return Some(content.errno), d;
    }
    RetargetedServes(T, R, blocks, bytes, list, requested.value, content.value);
    Targets.AvailableReliable(T, list, content.value, blocks, Assets.MaxReads(workerCount));
    ghost var lost;
    err, lost := Versions.ChangeVersion(store, content.value, blocks, S, T, pathHash, d, workerCount, retain, bytes);
  }

  lemma ListedParts(d: Diffs.VersionDiff)
    ensures Versions.ToWrite(d) == d.targetAdded + d.targetContentModified
  {
  }

  lemma ServesParts(T: VersionIndex, R: ContentIndex, blocks: BlockStore, bytes: nat -> seq<byte>)
    requires Serves(T, R, blocks, bytes)
    ensures VersionDescribes(T, bytes) && ContentOk(R) && BlocksDescribed(blocks, bytes)
  {
  }

  lemma CanUpdateParts(tree: Trees.Tree, S: VersionIndex, T: VersionIndex, pathHash: string -> nat,
                       bytes: nat -> seq<byte>)
    requires CanUpdate(tree, S, T, pathHash, bytes)
    ensures Trees.IsTreeVersion(S) && Trees.IsTreeVersion(T) && Trees.HashesTell(S, T, pathHash)
    ensures VersionShape(S) && VersionShape(T) && |S.names| < NONE && |T.names| < NONE
    ensures Versions.HashesMeanContent(S, T, bytes) && Trees.Holds(tree, S, bytes) && Trees.HoldsPermissions(tree, S)
    ensures forall a :: 0 <= a < |T.names| && Storages.IsDirPath(T.names[a]) ==> T.assetChunkCounts[a] == 0
  {
  }

  /** Uploads a version, and updates a tree of another version from the store: it ends as
      that of the uploaded version. */
  method UploadAndUpdate(source: Files, before: BlockStore, R: ContentIndex, T: VersionIndex, lim: Limits,
                         listHash: seq<nat> -> nat, workerCount: nat, accepts: nat -> bool, store: Storages.Storage,
                         S: VersionIndex, pathHash: string -> nat, updateLim: Limits, retain: bool,
                         ghost bytes: nat -> seq<byte>)
    returns (r: Result<Upload>, err: Option<Errno>)
    requires ContentOk(R) && Delivery.Holds(before, R, bytes) && |R.chunkHashes| + |T.chunkHashes| < 0xffff_0000_0000
    requires VersionDescribes(T, bytes) && Distinct(T.chunkHashes) && UsesAllChunks(T) && TreeHolds(source, T, bytes)
    requires HashTells(listHash, HashDiff.NotIn(T.chunkHashes, R.chunkHashes), before)
    requires NoWrap(T.chunkSizes, lim) && NoWrap(T.chunkSizes, Limits(R.maxBlockSize, R.maxChunksPerBlock))
    requires CanUpdate(store.tree, S, T, pathHash, bytes) && NoWrap(T.chunkSizes, updateLim)
    modifies store
    ensures VersionShape(S) && VersionShape(T)
    ensures r.Success? ==> CanUpload(R, T, lim)
    ensures CanUpload(R, T, lim) && (forall h :: accepts(h)) ==> r.Success?
    ensures r.Success? && store.busy == {} && updateLim.Ok() ==> err == None
    ensures r.Success? && store.busy == {} && err == None ==>
              Trees.Holds(store.tree, T, bytes) && (retain ==>
                (Trees.HoldsPermissions(store.tree, T) <==> Versions.PermissionsCarryOver(S, T)))
    ensures r.Success? && store.busy == {} && err == None && !retain ==> Versions.PermissionsLeft(store.tree, S, T)
  {
    hide NoWrap, VersionDescribes, UsesAllChunks, TreeHolds, Covers, Delivery.Holds, HashTells, Serves, CanUpdate,
         Trees.Holds, Trees.HoldsPermissions, Versions.PermissionsCarryOver, Versions.PermissionsLeft, VersionShape;
    CanUpdateParts(store.tree, S, T, pathHash, bytes);
    var after;
    r, after := UploadVersion(source, before, R, T, lim, listHash, workerCount, accepts, bytes);
    err := None;
    if r.Success? {
      var d;
      err, d := UpdateFrom(store, r.value.merged, after, S, T, pathHash, updateLim, listHash, workerCount,
                           retain, bytes);
      WantsSome(T, Versions.ToWrite(d));
    }
  }

  lemma WantsSome(T: VersionIndex, list: seq<nat>)
    requires VersionShape(T)
    ensures T.chunkHashes == [] ==> NoChunks(T, list)
  {
    if k :| 0 <= k < |list| && list[k] < |T.names| && T.assetChunkCounts[list[k]] > 0 {
      assert T.assetChunkIndexes[T.assetChunkIndexStarts[list[k]]] < |T.chunkHashes|;
    }
  }

  // ----- From files to files -----

  /** The files have paths of their own, and their parent directories are listed too. */
  ghost predicate IsFileTree(files: seq<SourceFile>) {
    && |files| < Trees.GONE && DirsHaveNoData(files)
    && (forall a :: 0 <= a < |files| ==> Trees.IsPath(Storages.Key(files[a].path)))
    && (forall a, b :: 0 <= a < b < |files| ==> Storages.Key(files[a].path) != Storages.Key(files[b].path))
    && (forall a :: 0 <= a < |files| && Storages.Parent(Storages.Key(files[a].path)) != [] ==>
          exists b :: 0 <= b < |files| && files[b].path == Storages.Parent(Storages.Key(files[a].path)) + "/")
  }

  /** The entry is the file, or the directory. */
  ghost predicate IsFile(e: Storages.Entry, file: SourceFile) {
    if Storages.IsDirPath(file.path) then e.Dir? else e.File? && e.content == file.data
  }

  ghost predicate IsListed(files: seq<SourceFile>, p: string) {
    exists a :: 0 <= a < |files| && Storages.Key(files[a].path) == p
  }

  /** The tree has these files and directories, and nothing else. */
  ghost predicate TreeIs(tree: Trees.Tree, files: seq<SourceFile>) {
    && (forall p :: p in tree ==> IsListed(files, p))
    && forall a :: 0 <= a < |files| ==>
         Storages.Key(files[a].path) in tree && IsFile(tree[Storages.Key(files[a].path)], files[a])
  }

  ghost predicate HasPermissions(tree: Trees.Tree, files: seq<SourceFile>, permissions: seq<nat>) {
    forall a :: 0 <= a < |files| && a < |permissions| && Storages.Key(files[a].path) in tree ==>
      tree[Storages.Key(files[a].path)].permissions == permissions[a]
  }

  /** The index describes the files. */
  ghost predicate IsIndexOf(v: VersionIndex, files: seq<SourceFile>, bytes: nat -> seq<byte>) {
    && VersionDescribes(v, bytes) && v.names == Names(files)
    && forall a :: 0 <= a < |files| ==> AssetBytes(v, bytes, a) == files[a].data
  }

  lemma TreeVersion(v: VersionIndex, files: seq<SourceFile>)
    requires VersionShape(v) && v.names == Names(files) && IsFileTree(files)
    ensures Trees.IsTreeVersion(v)
  {
    hide Storages.Key, Storages.Parent, VersionShape, DirsHaveNoData;
    assert |v.names| == |files| && forall a :: 0 <= a < |files| ==>
        Trees.AssetPath(v, a) == Storages.Key(files[a].path);
  }

  /** Holding the version is having its files. */
  lemma HoldsIffTreeIs(tree: Trees.Tree, v: VersionIndex, files: seq<SourceFile>, bytes: nat -> seq<byte>)
    requires IsIndexOf(v, files, bytes)
    ensures VersionShape(v) && (Trees.Holds(tree, v, bytes) <==> TreeIs(tree, files))
  {
    hide Storages.Key, AssetBytes, VersionDescribes;
    ShapeOf(v, bytes);
    assert forall a :: 0 <= a < |files| ==> Trees.AssetPath(v, a) == Storages.Key(files[a].path);
    assert forall p :: Trees.HasPath(v, p) <==> IsListed(files, p);
    if TreeIs(tree, files) {
      forall a | 0 <= a < |v.names|
        ensures Trees.AssetPath(v, a) in tree && Trees.IsAsset(tree[Trees.AssetPath(v, a)], v, a, bytes)
      {
        assert IsFile(tree[Storages.Key(files[a].path)], files[a]);
      }
    }
    if Trees.Holds(tree, v, bytes) {
      forall a | 0 <= a < |files|
        ensures Storages.Key(files[a].path) in tree && IsFile(tree[Storages.Key(files[a].path)], files[a])
      {
        assert Trees.IsAsset(tree[Trees.AssetPath(v, a)], v, a, bytes);
      }
    }
  }

  /** Holding the permissions of the version is its files having them. */
  lemma PermissionsHeldIff(tree: Trees.Tree, v: VersionIndex, files: seq<SourceFile>)
    requires VersionShape(v) && v.names == Names(files)
    ensures Trees.HoldsPermissions(tree, v) <==> HasPermissions(tree, files, v.permissions)
  {
    hide Storages.Key;
    assert |files| == |v.names| == |v.permissions|;
    assert forall a :: 0 <= a < |files| ==> Trees.AssetPath(v, a) == Storages.Key(files[a].path);
  }

  /** The directories that only the new files have, have the permissions of a directory that
      an update creates. */
  ghost predicate NewDirectoriesPlain(olds: seq<SourceFile>, news: seq<SourceFile>, permissions: seq<nat>) {
    forall t :: 0 <= t < |news| && t < |permissions| && IsNewDirectory(olds, news[t].path) ==>
      permissions[t] == Storages.NEW_PERMISSIONS
  }

  ghost predicate IsNewDirectory(olds: seq<SourceFile>, path: string) {
    Storages.IsDirPath(path) && path !in Names(olds)
  }

  /** Directories have no chunks, so one that was there before keeps its permissions or gets
      those of the target. */
  lemma CarryOverIffPlain(S: VersionIndex, T: VersionIndex, olds: seq<SourceFile>, news: seq<SourceFile>,
                          listHash: seq<nat> -> nat)
    requires VersionShape(S) && VersionShape(T) && S.names == Names(olds) && T.names == Names(news)
    requires ContentHashed(S, listHash) && ContentHashed(T, listHash)
    requires forall a :: 0 <= a < |S.names| && Storages.IsDirPath(S.names[a]) ==> S.assetChunkCounts[a] == 0
    requires forall a :: 0 <= a < |T.names| && Storages.IsDirPath(T.names[a]) ==> T.assetChunkCounts[a] == 0
    ensures Versions.PermissionsCarryOver(S, T) <==> NewDirectoriesPlain(olds, news, T.permissions)
  {
    hide Storages.IsDirPath;
    assert |news| == |T.names| == |T.permissions|;
    forall t: nat | t < |T.names| && Storages.IsDirPath(T.names[t])
      ensures Versions.CarriesOver(S, T, t) <==>
              (IsNewDirectory(olds, news[t].path) ==> T.permissions[t] == Storages.NEW_PERMISSIONS)
    {
      assert T.names[t] == news[t].path;
      if T.names[t] in S.names {
        var s: nat :| s < |S.names| && S.names[s] == T.names[t];
        assert Versions.Match(S, T, s, t);
      }
      forall s: nat | Versions.Match(S, T, s, t)
        ensures S.contentHashes[s] == T.contentHashes[t]
      {
        assert AssetHashes(S, s) == [] == AssetHashes(T, t);
      }
    }
  }

  lemma DirectoriesAreEmpty(v: VersionIndex, files: seq<SourceFile>, bytes: nat -> seq<byte>)
    requires IsIndexOf(v, files, bytes) && DirsHaveNoData(files)
    ensures forall a :: 0 <= a < |v.names| && Storages.IsDirPath(v.names[a]) ==> v.assetChunkCounts[a] == 0
  {
    hide AssetBytes, VersionDescribes;
    ShapeOf(v, bytes);
    forall a | 0 <= a < |v.names| && Storages.IsDirPath(v.names[a])
      ensures v.assetChunkCounts[a] == 0
    {
      if v.assetChunkCounts[a] > 0 {
        SomeBytes(v, a, bytes);
      }
    }
  }

  /** The path hash tells the paths of all these files apart. */
  ghost predicate PathsTold(olds: seq<SourceFile>, news: seq<SourceFile>, pathHash: string -> nat) {
    forall x, y ::
      && (x in Names(olds) || x in Names(news)) && (y in Names(olds) || y in Names(news))
      && pathHash(x) == pathHash(y) ==>
        x == y
  }

  /** How files are cut and hashed. */
  datatype Cutting = Cutting(target: nat, discriminator: bv32, table: seq<bv32>, hashOf: seq<byte> -> nat)

  ghost predicate CuttingOk(c: Cutting) {
    TargetOk(c.target, c.discriminator, c.table)
  }

  /** The chunk hashes that the index of these files lists. */
  ghost function ChunksOf(c: Cutting, files: seq<SourceFile>): seq<nat>
    requires CuttingOk(c)
  {
    ParamsOk(c.target, c.discriminator, c.table);
    ListedHashes(files, ChunkerParams(c.target, c.discriminator, c.table), c.target * 1024, c.hashOf)
  }

  /** The chunk hashes of a file, in order. */
  ghost function ChunksOfFile(c: Cutting, file: SourceFile): seq<nat>
    requires CuttingOk(c)
  {
    ParamsOk(c.target, c.discriminator, c.table);
    HashesOfFile(file, ChunkerParams(c.target, c.discriminator, c.table), c.target * 1024, c.hashOf)
  }

  /** The hash of lists tells the old and the new chunks of every file apart. */
  ghost predicate FilesTold(c: Cutting, olds: seq<SourceFile>, news: seq<SourceFile>, listHash: seq<nat> -> nat)
    requires CuttingOk(c)
  {
    forall s, t ::
      && 0 <= s < |olds| && 0 <= t < |news| && olds[s].path == news[t].path
      && listHash(ChunksOfFile(c, olds[s])) == listHash(ChunksOfFile(c, news[t])) ==>
        ChunksOfFile(c, olds[s]) == ChunksOfFile(c, news[t])
  }

  /** So content hashes tell contents. */
  lemma ContentsTold(c: Cutting, S: VersionIndex, T: VersionIndex, olds: seq<SourceFile>, news: seq<SourceFile>,
                     listHash: seq<nat> -> nat, bytes: nat -> seq<byte>)
    requires VersionShape(S) && VersionShape(T) && ContentHashed(S, listHash) && ContentHashed(T, listHash)
    requires S.names == Names(olds) && T.names == Names(news) && CuttingOk(c) && FilesTold(c, olds, news, listHash)
    requires forall s :: 0 <= s < |olds| ==> AssetHashes(S, s) == ChunksOfFile(c, olds[s])
    requires forall t :: 0 <= t < |news| ==> AssetHashes(T, t) == ChunksOfFile(c, news[t])
    ensures Versions.HashesMeanContent(S, T, bytes)
  {
    hide ContentHashed, CuttingOk, ChunksOfFile, VersionShape, Versions.HashesMeanContent;
    ContentHashesMeanContent(S, T, listHash, bytes);
  }

  /** The files can be indexed: they are a tree, they have fewer than 2^32 chunks, and their
      chunks have hashes that tell the bytes. */
  ghost predicate Indexable(c: Cutting, files: seq<SourceFile>, permissions: seq<nat>, bytes: nat -> seq<byte>)
    requires CuttingOk(c)
  {
    ParamsOk(c.target, c.discriminator, c.table);
    var p := ChunkerParams(c.target, c.discriminator, c.table);
    && IsFileTree(files) && |permissions| == |files| && ChunkTotal(files, p, c.target * 1024) < 0x1_0000_0000
    && Tells(files, p, c.target * 1024, c.hashOf, bytes)
  }

  /** Indexes the files of a tree. */
  method IndexFiles(c: Cutting, files: seq<SourceFile>, permissions: seq<nat>, hashIdentifier: nat,
                    listHash: seq<nat> -> nat, pathHash: string -> nat, ghost bytes: nat -> seq<byte>)
    returns (v: VersionIndex)
    requires CuttingOk(c) && Indexable(c, files, permissions, bytes)
    ensures v.hashIdentifier == hashIdentifier
    ensures IsIndexOf(v, files, bytes) && v.permissions == permissions && VersionShape(v) && Trees.IsTreeVersion(v)
    ensures Distinct(v.chunkHashes) && UsesAllChunks(v) && ContentHashed(v, listHash)
              && v.chunkHashes == ChunksOf(c, files)
    ensures forall a :: 0 <= a < |files| ==> AssetHashes(v, a) == ChunksOfFile(c, files[a])
    ensures |v.chunkHashes| < 0x1_0000_0000
    ensures forall k :: 0 <= k < |v.chunkSizes| ==> v.chunkSizes[k] <= 0x7fff_ffff
    ensures forall a :: 0 <= a < |v.names| && Storages.IsDirPath(v.names[a]) ==> v.assetChunkCounts[a] == 0
  {
    hide Ok, ChunkTotal, ListedHashes, HashesOfFile, Tells, UsesAllChunks, ContentHashed, VersionDescribes, AssetBytes,
         VersionOk;
    ParamsOk(c.target, c.discriminator, c.table);
    v := CreateVersionIndex(files, permissions, c.target, c.discriminator, c.table, hashIdentifier, c.hashOf, listHash,
                            pathHash, bytes);
    ShapeOf(v, bytes);
    TreeVersion(v, files);
    DirectoriesAreEmpty(v, files, bytes);
  }

  /** What an update leaves the new files with, when it does not set permissions: those there
      were before keep theirs, but a file with other data is writable; others have those of
      new files and directories. */
  ghost predicate LeftPermissions(tree: Trees.Tree, olds: seq<SourceFile>, oldPermissions: seq<nat>,
                                  news: seq<SourceFile>) {
    forall t :: 0 <= t < |news| ==>
      && Storages.Key(news[t].path) in tree
      && LeftPermission(tree[Storages.Key(news[t].path)].permissions, olds, oldPermissions, news[t])
  }

  ghost predicate LeftPermission(now: nat, olds: seq<SourceFile>, oldPermissions: seq<nat>, file: SourceFile) {
    && (forall s :: 0 <= s < |olds| && s < |oldPermissions| && olds[s].path == file.path ==>
          now == if Storages.IsDirPath(file.path) || olds[s].data == file.data then oldPermissions[s]
                 else Storages.WithBit(oldPermissions[s], Storages.USER_WRITE))
    && (file.path !in Names(olds) ==>
          now == if Storages.IsDirPath(file.path) then Storages.NEW_PERMISSIONS else Storages.NEW_FILE_PERMISSIONS)
  }

  /** Files have the same content hash exactly if they have the same data. */
  lemma SameHashIffSameData(c: Cutting, S: VersionIndex, T: VersionIndex, olds: seq<SourceFile>,
                            news: seq<SourceFile>, listHash: seq<nat> -> nat, bytes: nat -> seq<byte>, s: nat, t: nat)
    requires IsIndexOf(S, olds, bytes) && IsIndexOf(T, news, bytes) && VersionShape(S) && VersionShape(T)
    requires ContentHashed(S, listHash) && ContentHashed(T, listHash) && Versions.HashesMeanContent(S, T, bytes)
    requires CuttingOk(c) && s < |olds| && t < |news| && olds[s].path == news[t].path
    requires !Storages.IsDirPath(news[t].path)
    requires AssetHashes(S, s) == ChunksOfFile(c, olds[s]) && AssetHashes(T, t) == ChunksOfFile(c, news[t])
    ensures s < |S.contentHashes| && t < |T.contentHashes|
    ensures S.contentHashes[s] == T.contentHashes[t] <==> olds[s].data == news[t].data
  {
    hide AssetBytes, CuttingOk, VersionDescribes, ChunksOfFile, Storages.IsDirPath;
    assert |S.names| == |olds| && |T.names| == |news| && S.names[s] == T.names[t];
    assert Versions.Match(S, T, s, t);
    if olds[s].data == news[t].data {
      SameChunks(c, olds[s], news[t]);
    }
  }

  lemma SameChunks(c: Cutting, a: SourceFile, b: SourceFile)
    requires CuttingOk(c) && a.path == b.path && a.data == b.data
    ensures ChunksOfFile(c, a) == ChunksOfFile(c, b)
  {
    hide Ok, ChunksFrom;
    ParamsOk(c.target, c.discriminator, c.table);
  }

  lemma LeftOfFiles(tree: Trees.Tree, c: Cutting, S: VersionIndex, T: VersionIndex, olds: seq<SourceFile>,
                    oldPermissions: seq<nat>, news: seq<SourceFile>, listHash: seq<nat> -> nat,
                    bytes: nat -> seq<byte>)
    requires IsIndexOf(S, olds, bytes) && IsIndexOf(T, news, bytes) && VersionShape(S) && VersionShape(T)
    requires ContentHashed(S, listHash) && ContentHashed(T, listHash) && Versions.HashesMeanContent(S, T, bytes)
    requires CuttingOk(c) && S.permissions == oldPermissions && Versions.PermissionsLeft(tree, S, T)
    requires forall a :: 0 <= a < |olds| ==> AssetHashes(S, a) == ChunksOfFile(c, olds[a])
    requires forall a :: 0 <= a < |news| ==> AssetHashes(T, a) == ChunksOfFile(c, news[a])
    ensures LeftPermissions(tree, olds, oldPermissions, news)
  {
    hide AssetBytes, CuttingOk, VersionDescribes, ChunksOfFile, ContentHashed, Versions.HashesMeanContent,
         Storages.IsDirPath, Storages.Key, Storages.WithBit, VersionShape;
    assert |T.names| == |news|;
    forall t: nat | t < |news|
      ensures Storages.Key(news[t].path) in tree
      ensures LeftPermission(tree[Storages.Key(news[t].path)].permissions, olds, oldPermissions, news[t])
    {
      assert Trees.AssetPath(T, t) == Storages.Key(news[t].path);
      LeftOfFile(tree[Trees.AssetPath(T, t)], c, S, T, olds, oldPermissions, news, listHash, bytes, t);
    }
  }

  lemma LeftOfFile(e: Storages.Entry, c: Cutting, S: VersionIndex, T: VersionIndex, olds: seq<SourceFile>,
                   oldPermissions: seq<nat>, news: seq<SourceFile>, listHash: seq<nat> -> nat,
                   bytes: nat -> seq<byte>, t: nat)
    requires IsIndexOf(S, olds, bytes) && IsIndexOf(T, news, bytes) && VersionShape(S) && VersionShape(T)
    requires ContentHashed(S, listHash) && ContentHashed(T, listHash) && Versions.HashesMeanContent(S, T, bytes)
    requires CuttingOk(c) && S.permissions == oldPermissions && t < |news| == |T.names|
    requires Versions.PermissionLeft(e, S, T, t)
    requires forall a :: 0 <= a < |olds| ==> AssetHashes(S, a) == ChunksOfFile(c, olds[a])
    requires forall a :: 0 <= a < |news| ==> AssetHashes(T, a) == ChunksOfFile(c, news[a])
    ensures LeftPermission(e.permissions, olds, oldPermissions, news[t])
  {
    hide AssetBytes, CuttingOk, VersionDescribes, ChunksOfFile, ContentHashed, Versions.HashesMeanContent,
         Storages.IsDirPath, Storages.WithBit;
    assert |S.names| == |olds| == |oldPermissions| && T.names[t] == news[t].path;
    forall s: nat | s < |olds| && olds[s].path == news[t].path
      ensures e.permissions == if Storages.IsDirPath(news[t].path) || olds[s].data == news[t].data
                               then oldPermissions[s]
                               else Storages.WithBit(oldPermissions[s], Storages.USER_WRITE)
    {
      assert Versions.Match(S, T, s, t);
      if !Storages.IsDirPath(news[t].path) {
        SameHashIffSameData(c, S, T, olds, news, listHash, bytes, s, t);
      }
    }
    if news[t].path !in Names(olds) {
      assert forall s: nat :: !Versions.Match(S, T, s, t);
    }
  }

  lemma SameIndexHeld(source: Files, files: seq<SourceFile>, v: VersionIndex, bytes: nat -> seq<byte>)
    requires IsTree(source, files) && IsIndexOf(v, files, bytes) && DirsHaveNoData(files)
    ensures TreeHolds(source, v, bytes)
  {
    hide VersionDescribes, TreeHolds, AssetBytes, IsTree;
    IndexedTree(source, files, v, bytes);
  }

  lemma PathsTell(S: VersionIndex, T: VersionIndex, olds: seq<SourceFile>, news: seq<SourceFile>,
                  pathHash: string -> nat)
    requires S.names == Names(olds) && T.names == Names(news) && PathsTold(olds, news, pathHash)
    ensures Trees.HashesTell(S, T, pathHash)
  {
  }

  /** A tree with the old files is brought to the new ones: both are indexed, what the store
      lacks of the new ones is packed and uploaded, the versions are compared, and the
      difference is applied from the blocks of the store. The tree ends with exactly the
      new files and directories, byte by byte, and with their permissions unless a new
      directory should have other ones than it is created with. If permissions are not
      retained, what was there keeps its own, and changed files are writable. */
  method IndexUploadAndUpdate(c: Cutting, olds: seq<SourceFile>, oldPermissions: seq<nat>, news: seq<SourceFile>,
                              newPermissions: seq<nat>, source: Files, listHash: seq<nat> -> nat,
                              pathHash: string -> nat, before: BlockStore, R: ContentIndex, hashIdentifier: nat,
                              lim: Limits, workerCount: nat, accepts: nat -> bool, store: Storages.Storage,
                              updateLim: Limits, retain: bool, ghost bytes: nat -> seq<byte>)
    returns (r: Result<Upload>, err: Option<Errno>)
    requires CuttingOk(c) && Indexable(c, olds, oldPermissions, bytes) && Indexable(c, news, newPermissions, bytes)
    requires IsTree(source, news) && PathsTold(olds, news, pathHash)
    requires HashTells(listHash, HashDiff.NotIn(ChunksOf(c, news), R.chunkHashes), before)
               && FilesTold(c, olds, news, listHash)
    requires ContentOk(R) && Delivery.Holds(before, R, bytes) && |R.chunkHashes| < 0xfffe_0000_0000
    requires lim.MaxSize() < 0x8000_0000 && Limits(R.maxBlockSize, R.maxChunksPerBlock).MaxSize() < 0x8000_0000
    requires updateLim.MaxSize() < 0x8000_0000
    requires TreeIs(store.tree, olds) && HasPermissions(store.tree, olds, oldPermissions)
    modifies store
    ensures lim.Ok() && Limits(R.maxBlockSize, R.maxChunksPerBlock).Ok()
              && (R.blockHashes == [] || R.hashIdentifier == hashIdentifier) && (forall h :: accepts(h)) ==>
              r.Success?
    ensures r.Success? && store.busy == {} && updateLim.Ok() ==> err == None
    ensures r.Success? && store.busy == {} && err == None ==>
              TreeIs(store.tree, news) && (retain ==>
                (HasPermissions(store.tree, news, newPermissions) <==>
                 NewDirectoriesPlain(olds, news, newPermissions)))
    ensures r.Success? && store.busy == {} && err == None && !retain ==>
              LeftPermissions(store.tree, olds, oldPermissions, news)
  {
    hide Indexable, CuttingOk, ChunksOf, ChunksOfFile, FilesTold, IsTree, PathsTold, HashTells, Delivery.Holds, TreeIs,
         HasPermissions, UsesAllChunks, ContentHashed, VersionShape, Trees.IsTreeVersion, TreeHolds, NoWrap,
         VersionDescribes, AssetBytes, Trees.Holds, Trees.HoldsPermissions, ContentOk, Versions.HashesMeanContent,
         Trees.HashesTell, Versions.PermissionsCarryOver, Versions.PermissionsLeft, NewDirectoriesPlain,
         LeftPermissions;
    var S := IndexFiles(c, olds, oldPermissions, hashIdentifier, listHash, pathHash, bytes);
    var T := IndexFiles(c, news, newPermissions, hashIdentifier, listHash, pathHash, bytes);
    ContentsTold(c, S, T, olds, news, listHash, bytes);
    PathsTell(S, T, olds, news, pathHash);
    HoldsIffTreeIs(store.tree, S, olds, bytes);
    PermissionsHeldIff(store.tree, S, olds);
    FilesOf(c, news, newPermissions, bytes);
    SameIndexHeld(source, news, T, bytes);
    SizesDoNotWrap(T.chunkSizes, 0x7fff_ffff, lim);
    SizesDoNotWrap(T.chunkSizes, 0x7fff_ffff, updateLim);
    SizesDoNotWrap(T.chunkSizes, 0x7fff_ffff, Limits(R.maxBlockSize, R.maxChunksPerBlock));
    r, err := UploadAndUpdate(source, before, R, T, lim, listHash, workerCount, accepts, store, S, pathHash,
                              updateLim, retain, bytes);
    HoldsIffTreeIs(store.tree, T, news, bytes);
    PermissionsHeldIff(store.tree, T, news);
    CarryOverIffPlain(S, T, olds, news, listHash);
    if r.Success? && store.busy == {} && err == None && !retain {
      LeftOfFiles(store.tree, c, S, T, olds, oldPermissions, news, listHash, bytes);
    }
  }

  lemma FilesOf(c: Cutting, files: seq<SourceFile>, permissions: seq<nat>, bytes: nat -> seq<byte>)
    requires CuttingOk(c) && Indexable(c, files, permissions, bytes)
    ensures DirsHaveNoData(files)
  {
    hide Ok, ChunkTotal, Tells;
  }
}

/** Creating the index of a version from its files (src/longtail.c): the files are chunked,
    and chunks that repeat are listed once. */
module VersionCreation {
  import opened Prelude
  import opened Chunking
  import opened Indexes
  import opened Packing
  import opened AssetChunking
  import opened ContentWriting
  import Storages
  import Diffs = VersionDiffs
  import Versions = VersionChanges

  /** The number of chunks of all files. */
  ghost function ChunkTotal(files: seq<SourceFile>, p: Params, max: nat): nat
    requires Ok(p) && max > 0
  {
    if files == [] then 0
    else
      var last := |files| - 1;
      ChunkTotal(files[..last], p, max) + |FileChunks(p, files[last], max)|
  }

  /** The same hash means the same bytes, for the chunks of these files. */
  ghost predicate Tells(files: seq<SourceFile>, p: Params, max: nat, hashOf: seq<byte> -> nat, bytes: nat -> seq<byte>)
    requires Ok(p) && max > 0
  {
    forall a, c :: 0 <= a < |files| && 0 <= c < |FileChunks(p, files[a], max)| ==>
      bytes(hashOf(FileChunks(p, files[a], max)[c])) == FileChunks(p, files[a], max)[c]
  }

  /** The hashes of the chunks of a file, in order. */
  ghost function HashesOfFile(f: SourceFile, p: Params, max: nat, hashOf: seq<byte> -> nat): (r: seq<nat>)
    requires Ok(p) && max > 0
    ensures |r| == |FileChunks(p, f, max)| && forall c :: 0 <= c < |r| ==> r[c] == hashOf(FileChunks(p, f, max)[c])
  {
    seq(|FileChunks(p, f, max)|, c requires 0 <= c < |FileChunks(p, f, max)| => hashOf(FileChunks(p, f, max)[c]))
  }

  /** The hashes of the chunks of all files, file by file. */
  ghost function AllHashes(files: seq<SourceFile>, p: Params, max: nat, hashOf: seq<byte> -> nat): (r: seq<nat>)
    requires Ok(p) && max > 0
    ensures |r| == ChunkTotal(files, p, max)
  {
    if files == [] then []
    else
      var last := |files| - 1;
      AllHashes(files[..last], p, max, hashOf) + HashesOfFile(files[last], p, max, hashOf)
  }

  /** These hashes, each once, in the order in which they occur first. */
  ghost function ListedHashes(files: seq<SourceFile>, p: Params, max: nat, hashOf: seq<byte> -> nat): seq<nat>
    requires Ok(p) && max > 0
  {
    var all := AllHashes(files, p, max, hashOf);
    At(all, FirstOccurrences(all))
  }

  ghost predicate DirsHaveNoData(files: seq<SourceFile>) {
    forall a :: 0 <= a < |files| && Storages.IsDirPath(files[a].path) ==> files[a].data == []
  }

  // ----- Where the chunks of a file are -----

  /** The slice of a file in the list of all chunks. */
  ghost predicate SliceDescribes(f: SourceFile, p: Params, max: nat, hashOf: seq<byte> -> nat, chunks: seq<Chunk>,
                                 start: nat, count: nat)
    requires Ok(p) && max > 0
  {
    && start + count <= |chunks| && count == |FileChunks(p, f, max)|
    && forall c :: 0 <= c < count ==>
         chunks[start + c] == Chunk(hashOf(FileChunks(p, f, max)[c]), |FileChunks(p, f, max)[c]|, f.tag)
  }

  lemma FileSlice(files: seq<SourceFile>, p: Params, max: nat, hashOf: seq<byte> -> nat, chunks: seq<Chunk>,
                  starts: seq<nat>, counts: seq<nat>, a: nat)
    requires Ok(p) && max > 0 && DescribesFiles(files, p, max, hashOf, chunks, starts, counts) && a < |files|
    ensures SliceDescribes(files[a], p, max, hashOf, chunks, starts[a], counts[a])
  {
    hide Ok, FileChunks;
    var slice := chunks[starts[a]..starts[a] + counts[a]];
    assert slice == Describe(FileChunks(p, files[a], max), files[a].tag, hashOf);
    assert forall c :: 0 <= c < counts[a] ==> chunks[starts[a] + c] == slice[c];
  }

  lemma {:induction false} StartIsTotal(files: seq<SourceFile>, p: Params, max: nat, hashOf: seq<byte> -> nat,
                                        chunks: seq<Chunk>, starts: seq<nat>, counts: seq<nat>, a: nat)
    requires Ok(p) && max > 0 && DescribesFiles(files, p, max, hashOf, chunks, starts, counts) && a < |files|
    ensures starts[a] == ChunkTotal(files[..a], p, max) && starts[a] + counts[a] == ChunkTotal(files[..a + 1], p, max)
  {
    hide Ok, FileChunks;
    if a > 0 {
      StartIsTotal(files, p, max, hashOf, chunks, starts, counts, a - 1);
      assert starts[a - 1] + counts[a - 1] == starts[a];
    }
    FileSlice(files, p, max, hashOf, chunks, starts, counts, a);
    assert files[..a + 1][..a] == files[..a];
  }

  lemma ChunksAreTotal(files: seq<SourceFile>, p: Params, max: nat, hashOf: seq<byte> -> nat, chunks: seq<Chunk>,
                       starts: seq<nat>, counts: seq<nat>)
    requires Ok(p) && max > 0 && DescribesFiles(files, p, max, hashOf, chunks, starts, counts)
    ensures |chunks| == ChunkTotal(files, p, max)
  {
    hide Ok, FileChunks;
    if files != [] {
      StartIsTotal(files, p, max, hashOf, chunks, starts, counts, |files| - 1);
      assert files[..|files|] == files;
    }
  }

  ghost predicate Adjacent(starts: seq<nat>, counts: seq<nat>) {
    |starts| == |counts| && forall i, j :: 0 <= i && j == i + 1 < |starts| ==> starts[i] + counts[i] == starts[j]
  }

  lemma {:induction false} SlicesApart(starts: seq<nat>, counts: seq<nat>, a: nat, b: nat)
    requires Adjacent(starts, counts) && a < b < |starts|
    ensures starts[a] + counts[a] <= starts[b]
  {
    var c := b - 1;
    assert starts[c] + counts[c] == starts[b];
    if a < c {
      SlicesApart(starts, counts, a, c);
    }
  }

  /** Every chunk is in the slice of a file. */
  lemma FileOfChunk(starts: seq<nat>, counts: seq<nat>, total: nat, i: nat) returns (a: nat)
    requires Adjacent(starts, counts) && i < total
    requires |starts| > 0 && starts[0] == 0 && starts[|starts| - 1] + counts[|starts| - 1] == total
    ensures a < |starts| && starts[a] <= i < starts[a] + counts[a]
  {
    a := 0;
    while starts[a] + counts[a] <= i
      invariant a < |starts| && starts[a] <= i
      decreases |starts| - a
    {
      a := a + 1;
    }
  }

  lemma {:induction false} ChunksFromBounds(p: Params, data: seq<byte>, start: nat, max: nat, c: nat)
    requires Ok(p) && start <= |data| && max > 0 && c < |ChunksFrom(p, data, start, max)|
    ensures 0 < |ChunksFrom(p, data, start, max)[c]| <= p.max
    decreases |data| - start
  {
    hide Ok, PartChunks;
    var n := PartSize(|data| - start, max);
    PartChunksCover(p, data[start..start + n]);
    var first := |PartChunks(p, data[start..start + n])|;
    if c >= first {
      ChunksFromBounds(p, data, start + max, max, c - first);
    }
  }

  lemma FileChunksBounds(p: Params, f: SourceFile, max: nat, c: nat)
    requires Ok(p) && max > 0 && c < |FileChunks(p, f, max)|
    ensures 0 < |FileChunks(p, f, max)[c]| <= p.max
  {
    hide Ok, ChunksFrom;
    ChunksFromBounds(p, f.data, 0, max, c);
  }

  // ----- The index -----

  function Names(files: seq<SourceFile>): (r: seq<string>)
    ensures |r| == |files| && forall a :: 0 <= a < |r| ==> r[a] == files[a].path
  {
    seq(|files|, a requires 0 <= a < |files| => files[a].path)
  }

  function Sizes(files: seq<SourceFile>): (r: seq<nat>)
    ensures |r| == |files| && forall a :: 0 <= a < |r| ==> r[a] == |files[a].data|
  {
    seq(|files|, a requires 0 <= a < |files| => |files[a].data|)
  }

  function ChunkTags(cs: seq<Chunk>): (r: seq<nat>)
    ensures |r| == |cs| && forall k :: 0 <= k < |r| ==> r[k] == cs[k].tag
  {
    seq(|cs|, k requires 0 <= k < |cs| => cs[k].tag)
  }

  function BuildVersionIndex(hashIdentifier: nat, targetChunkSize: nat, files: seq<SourceFile>, permissions: seq<nat>,
                             pathHashes: seq<nat>, contentHashes: seq<nat>, starts: seq<nat>, counts: seq<nat>,
                             unique: seq<Chunk>, indexes: seq<nat>): VersionIndex {
    VersionIndex(hashIdentifier, targetChunkSize, Names(files), pathHashes, contentHashes, permissions, Sizes(files),
                 counts, starts, indexes, ChunkHashes(unique), ChunkSizes(unique), ChunkTags(unique))
  }

  /** Every chunk has an index into the list of unique ones. */
  ghost predicate ListsOnce(chunks: seq<Chunk>, unique: seq<Chunk>, indexes: seq<nat>) {
    && Distinct(ChunkHashes(unique)) && |indexes| == |chunks| && |unique| <= |chunks|
    && (forall c :: 0 <= c < |chunks| ==> indexes[c] < |unique| && unique[indexes[c]].hash == chunks[c].hash)
    && (forall k :: 0 <= k < |unique| ==> unique[k] in chunks)
  }

  /** The index was built from the chunks of the files. */
  ghost predicate Built(v: VersionIndex, files: seq<SourceFile>, p: Params, max: nat, hashOf: seq<byte> -> nat,
                        chunks: seq<Chunk>, unique: seq<Chunk>)
    requires Ok(p) && max > 0
  {
    && v == BuildVersionIndex(v.hashIdentifier, v.targetChunkSize, files, v.permissions, v.pathHashes, v.contentHashes,
                              v.assetChunkIndexStarts, v.assetChunkCounts, unique, v.assetChunkIndexes)
    && |v.permissions| == |v.contentHashes| == |files| && |chunks| <= MAX_COUNT
    && DescribesFiles(files, p, max, hashOf, chunks, v.assetChunkIndexStarts, v.assetChunkCounts)
    && ListsOnce(chunks, unique, v.assetChunkIndexes)
  }

  lemma BuiltOk(v: VersionIndex, files: seq<SourceFile>, p: Params, max: nat, hashOf: seq<byte> -> nat,
                chunks: seq<Chunk>, unique: seq<Chunk>)
    requires Ok(p) && max > 0 && Built(v, files, p, max, hashOf, chunks, unique)
    ensures VersionOk(v) && VersionShape(v) && Distinct(v.chunkHashes)
  {
    hide Ok, FileChunks;
    forall a, b | 0 <= a < b < |files|
      ensures v.assetChunkIndexStarts[a] + v.assetChunkCounts[a] <= v.assetChunkIndexStarts[b]
    {
      SlicesApart(v.assetChunkIndexStarts, v.assetChunkCounts, a, b);
    }
    forall a | 0 <= a < |files|
      ensures v.assetChunkIndexStarts[a] + v.assetChunkCounts[a] <= |chunks|
    {
      FileSlice(files, p, max, hashOf, chunks, v.assetChunkIndexStarts, v.assetChunkCounts, a);
    }
  }

  /** Chunk c of file a is listed under the hash of its bytes. */
  lemma BuiltChunk(v: VersionIndex, files: seq<SourceFile>, p: Params, max: nat, hashOf: seq<byte> -> nat,
                   chunks: seq<Chunk>, unique: seq<Chunk>, a: nat, c: nat)
    requires Ok(p) && max > 0 && Built(v, files, p, max, hashOf, chunks, unique)
    requires a < |files| && c < v.assetChunkCounts[a]
    ensures v.assetChunkCounts[a] == |FileChunks(p, files[a], max)| && HasChunk(v, a, c)
    ensures HashOf(v, a, c) == hashOf(FileChunks(p, files[a], max)[c]) == chunks[v.assetChunkIndexStarts[a] + c].hash
  {
    hide Ok, FileChunks, DescribesFiles, VersionOk;
    BuiltOk(v, files, p, max, hashOf, chunks, unique);
    FileSlice(files, p, max, hashOf, chunks, v.assetChunkIndexStarts, v.assetChunkCounts, a);
  }

  /** A listed chunk is a chunk of a file. */
  lemma BuiltFrom(v: VersionIndex, files: seq<SourceFile>, p: Params, max: nat, hashOf: seq<byte> -> nat,
                  chunks: seq<Chunk>, unique: seq<Chunk>, k: nat)
    returns (a: nat, c: nat)
    requires Ok(p) && max > 0 && Built(v, files, p, max, hashOf, chunks, unique) && k < |v.chunkHashes|
    ensures a < |files| && c < v.assetChunkCounts[a] == |FileChunks(p, files[a], max)|
    ensures HasChunk(v, a, c) && HashOf(v, a, c) == v.chunkHashes[k] == hashOf(FileChunks(p, files[a], max)[c])
    ensures v.chunkSizes[k] == |FileChunks(p, files[a], max)[c]| && k < |v.chunkTags| && v.chunkTags[k] == files[a].tag
  {
    hide Ok, FileChunks, VersionOk, VersionShape, DescribesFiles, ListsOnce;
    var i := ListedChunk(chunks, unique, v.assetChunkIndexes, k);
    a := DescribedChunk(files, p, max, hashOf, chunks, v.assetChunkIndexStarts, v.assetChunkCounts, i);
    c := i - v.assetChunkIndexStarts[a];
    BuiltChunk(v, files, p, max, hashOf, chunks, unique, a, c);
    FileSlice(files, p, max, hashOf, chunks, v.assetChunkIndexStarts, v.assetChunkCounts, a);
    assert chunks[v.assetChunkIndexStarts[a] + c] == unique[k];
  }

  lemma ListedChunk(chunks: seq<Chunk>, unique: seq<Chunk>, indexes: seq<nat>, k: nat) returns (i: nat)
    requires ListsOnce(chunks, unique, indexes) && k < |unique|
    ensures i < |chunks| && chunks[i] == unique[k]
  {
    assert unique[k] in chunks;
    i :| 0 <= i < |chunks| && chunks[i] == unique[k];
  }

  lemma DescribedChunk(files: seq<SourceFile>, p: Params, max: nat, hashOf: seq<byte> -> nat, chunks: seq<Chunk>,
                       starts: seq<nat>, counts: seq<nat>, i: nat) returns (a: nat)
    requires Ok(p) && max > 0 && DescribesFiles(files, p, max, hashOf, chunks, starts, counts) && i < |chunks|
    ensures a < |files| == |starts| == |counts| && starts[a] <= i < starts[a] + counts[a]
  {
    hide Ok, FileChunks;
    a := FileOfChunk(starts, counts, |chunks|, i);
  }

  lemma BuiltUsesAll(v: VersionIndex, files: seq<SourceFile>, p: Params, max: nat, hashOf: seq<byte> -> nat,
                     chunks: seq<Chunk>, unique: seq<Chunk>)
    requires Ok(p) && max > 0 && Built(v, files, p, max, hashOf, chunks, unique)
    ensures UsesAllChunks(v)
  {
    hide Ok, FileChunks, Built;
    forall h | h in v.chunkHashes
      ensures InAssets(v, h, |v.assetSizes|)
    {
      var k :| 0 <= k < |v.chunkHashes| && v.chunkHashes[k] == h;
      var a, c := BuiltFrom(v, files, p, max, hashOf, chunks, unique, k);
      assert InAsset(v, h, a, v.assetChunkCounts[a]);
    }
  }

  /** The pieces of an asset are the chunks of its file. */
  lemma BuiltPieces(v: VersionIndex, files: seq<SourceFile>, p: Params, max: nat, hashOf: seq<byte> -> nat,
                    chunks: seq<Chunk>, unique: seq<Chunk>, bytes: nat -> seq<byte>, a: nat)
    requires Ok(p) && max > 0 && Built(v, files, p, max, hashOf, chunks, unique) && VersionShape(v)
    requires Tells(files, p, max, hashOf, bytes) && DirsHaveNoData(files) && a < |files|
    ensures Pieces(v, bytes, a) == FileChunks(p, files[a], max)
    ensures AssetBytes(v, bytes, a) == files[a].data
  {
    hide Ok, FileChunks, VersionShape;
    var pieces := Pieces(v, bytes, a);
    FileSlice(files, p, max, hashOf, chunks, v.assetChunkIndexStarts, v.assetChunkCounts, a);
    forall c | 0 <= c < |pieces|
      ensures pieces[c] == FileChunks(p, files[a], max)[c]
    {
      BuiltChunk(v, files, p, max, hashOf, chunks, unique, a, c);
    }
    BytesOfFile(p, files[a], max);
  }

  lemma BytesOfFile(p: Params, f: SourceFile, max: nat)
    requires Ok(p) && max > 0 && (Storages.IsDirPath(f.path) ==> f.data == [])
    ensures Flatten(FileChunks(p, f, max)) == f.data
  {
    if !Storages.IsDirPath(f.path) {
      FileChunksCover(p, f, max);
    }
  }

  lemma BuiltDescribes(v: VersionIndex, files: seq<SourceFile>, p: Params, max: nat, hashOf: seq<byte> -> nat,
                       chunks: seq<Chunk>, unique: seq<Chunk>, bytes: nat -> seq<byte>)
    requires Ok(p) && max > 0 && Built(v, files, p, max, hashOf, chunks, unique)
    requires Tells(files, p, max, hashOf, bytes) && DirsHaveNoData(files)
    ensures VersionDescribes(v, bytes) && forall a :: 0 <= a < |files| ==> AssetBytes(v, bytes, a) == files[a].data
  {
    hide Ok, FileChunks, DescribesFiles, ListsOnce, VersionOk, VersionShape, AssetBytes;
    BuiltOk(v, files, p, max, hashOf, chunks, unique);
    forall k | 0 <= k < |v.chunkHashes|
      ensures |bytes(v.chunkHashes[k])| == v.chunkSizes[k] > 0
    {
      var a, c := BuiltFrom(v, files, p, max, hashOf, chunks, unique, k);
      FileChunksBounds(p, files[a], max, c);
    }
    forall a | 0 <= a < |files|
      ensures AssetBytes(v, bytes, a) == files[a].data
    {
      BuiltPieces(v, files, p, max, hashOf, chunks, unique, bytes, a);
    }
  }

  lemma BuiltSizes(v: VersionIndex, files: seq<SourceFile>, p: Params, max: nat, hashOf: seq<byte> -> nat,
                   chunks: seq<Chunk>, unique: seq<Chunk>)
    requires Ok(p) && max > 0 && Built(v, files, p, max, hashOf, chunks, unique)
    ensures |v.chunkSizes| == |v.chunkHashes| && forall k :: 0 <= k < |v.chunkSizes| ==> 0 < v.chunkSizes[k] <= p.max
    ensures forall a :: 0 <= a < |files| && !Storages.IsDirPath(files[a].path) && files[a].data != [] ==>
              v.assetChunkCounts[a] > 0
  {
    hide Ok, FileChunks, DescribesFiles, ListsOnce;
    forall k | 0 <= k < |v.chunkHashes|
      ensures 0 < v.chunkSizes[k] <= p.max
    {
      var a, c := BuiltFrom(v, files, p, max, hashOf, chunks, unique, k);
      FileChunksBounds(p, files[a], max, c);
    }
    BuiltOk(v, files, p, max, hashOf, chunks, unique);
    forall a | 0 <= a < |files| && !Storages.IsDirPath(files[a].path) && files[a].data != []
      ensures v.assetChunkCounts[a] > 0
    {
      FileSlice(files, p, max, hashOf, chunks, v.assetChunkIndexStarts, v.assetChunkCounts, a);
      BytesOfFile(p, files[a], max);
    }
  }

  // ----- Content hashes -----

  /** The chunk hashes of an asset, in order. */
  function AssetHashes(v: VersionIndex, a: nat): (r: seq<nat>)
    requires VersionShape(v) && a < |v.names|
    ensures |r| == v.assetChunkCounts[a] && forall c :: 0 <= c < |r| ==> HasChunk(v, a, c) && r[c] == HashOf(v, a, c)
  {
    seq(v.assetChunkCounts[a], c requires 0 <= c < v.assetChunkCounts[a] => HashOf(v, a, c))
  }

  /** The content hash of an asset is the hash of its chunk hashes. */
  ghost predicate ContentHashed(v: VersionIndex, listHash: seq<nat> -> nat)
    requires VersionShape(v)
  {
    forall a :: 0 <= a < |v.names| ==> v.contentHashes[a] == listHash(AssetHashes(v, a))
  }

  /** Equal content hashes mean equal contents, if the hash tells the lists of chunk hashes
      of assets with the same name apart. */
  lemma ContentHashesMeanContent(S: VersionIndex, T: VersionIndex, listHash: seq<nat> -> nat, bytes: nat -> seq<byte>)
    requires VersionShape(S) && VersionShape(T) && ContentHashed(S, listHash) && ContentHashed(T, listHash)
    requires forall s: nat, t: nat ::
               Versions.Match(S, T, s, t) && listHash(AssetHashes(S, s)) == listHash(AssetHashes(T, t)) ==>
                 AssetHashes(S, s) == AssetHashes(T, t)
    ensures Versions.HashesMeanContent(S, T, bytes)
  {
    forall s: nat, t: nat | Versions.Match(S, T, s, t) && S.contentHashes[s] == T.contentHashes[t]
      ensures AssetBytes(S, bytes, s) == AssetBytes(T, bytes, t)
    {
      var hs, ht := AssetHashes(S, s), AssetHashes(T, t);
      assert hs == ht;
      assert forall c :: 0 <= c < |hs| ==> hs[c] == ht[c];
      assert Pieces(S, bytes, s) == Pieces(T, bytes, t);
    }
  }

  // ----- Creating the index -----

  /** The content hash of every asset, from the hashes in its slice. */
  method HashContents(chunks: seq<Chunk>, starts: seq<nat>, counts: seq<nat>, listHash: seq<nat> -> nat)
    returns (contentHashes: seq<nat>)
    requires |starts| == |counts| && forall a :: 0 <= a < |starts| ==> starts[a] + counts[a] <= |chunks|
    ensures |contentHashes| == |starts|
    ensures forall a :: 0 <= a < |starts| ==>
              contentHashes[a] == listHash(ChunkHashes(chunks[starts[a]..starts[a] + counts[a]]))
  {
    contentHashes := [];
    for a := 0 to |starts|
      invariant |contentHashes| == a
      invariant forall b :: 0 <= b < a ==>
                  contentHashes[b] == listHash(ChunkHashes(chunks[starts[b]..starts[b] + counts[b]]))
    {
      contentHashes := contentHashes + [listHash(ChunkHashes(chunks[starts[a]..starts[a] + counts[a]]))];
    }
  }

  /** The hash of every path; the first job of an asset computes it. */
  method HashPaths(files: seq<SourceFile>, pathHash: string -> nat) returns (hashes: seq<nat>)
    ensures |hashes| == |files| && forall a :: 0 <= a < |files| ==> hashes[a] == pathHash(files[a].path)
  {
    hashes := [];
    for a := 0 to |files|
      invariant |hashes| == a && forall b :: 0 <= b < a ==> hashes[b] == pathHash(files[b].path)
    {
      hashes := hashes + [pathHash(files[a].path)];
    }
  }

  /** A listed chunk has the tag of a file with this chunk. */
  ghost predicate IsChunkOf(f: SourceFile, p: Params, max: nat, hashOf: seq<byte> -> nat, hash: nat, tag: nat)
    requires Ok(p) && max > 0
  {
    f.tag == tag && hash in HashesOfFile(f, p, max, hashOf)
  }

  ghost predicate TaggedByFile(files: seq<SourceFile>, p: Params, max: nat, hashOf: seq<byte> -> nat, hash: nat,
                               tag: nat)
    requires Ok(p) && max > 0
  {
    exists a :: 0 <= a < |files| && IsChunkOf(files[a], p, max, hashOf, hash, tag)
  }

  ghost predicate TaggedByFiles(v: VersionIndex, files: seq<SourceFile>, p: Params, max: nat, hashOf: seq<byte> -> nat)
    requires Ok(p) && max > 0
  {
    |v.chunkTags| == |v.chunkHashes| && forall k :: 0 <= k < |v.chunkHashes| ==>
      TaggedByFile(files, p, max, hashOf, v.chunkHashes[k], v.chunkTags[k])
  }

  lemma BuiltTags(v: VersionIndex, files: seq<SourceFile>, p: Params, max: nat, hashOf: seq<byte> -> nat,
                  chunks: seq<Chunk>, unique: seq<Chunk>)
    requires Ok(p) && max > 0 && Built(v, files, p, max, hashOf, chunks, unique)
    ensures TaggedByFiles(v, files, p, max, hashOf)
  {
    hide Ok, FileChunks, DescribesFiles, ListsOnce, VersionOk, VersionShape;
    assert |v.chunkTags| == |v.chunkHashes|;
    forall k | 0 <= k < |v.chunkHashes|
      ensures TaggedByFile(files, p, max, hashOf, v.chunkHashes[k], v.chunkTags[k])
    {
      var a, c := BuiltFrom(v, files, p, max, hashOf, chunks, unique, k);
      assert HashesOfFile(files[a], p, max, hashOf)[c] == v.chunkHashes[k];
      assert IsChunkOf(files[a], p, max, hashOf, v.chunkHashes[k], v.chunkTags[k]);
    }
  }

  /** The index of the files: each file is the concatenation of its chunks, each chunk is
      listed once and used, and content hashes are hashes of chunk hashes. */
  method CreateVersionIndex(files: seq<SourceFile>, permissions: seq<nat>, target: nat, discriminator: bv32,
                            table: seq<bv32>, hashIdentifier: nat, hashOf: seq<byte> -> nat,
                            listHash: seq<nat> -> nat, pathHash: string -> nat, ghost bytes: nat -> seq<byte>)
    returns (v: VersionIndex)
    requires TargetOk(target, discriminator, table) && |permissions| == |files|
    requires ChunkTotal(files, ChunkerParams(target, discriminator, table), target * 1024) < 0x1_0000_0000
    ensures v.names == Names(files) && v.assetSizes == Sizes(files) && v.permissions == permissions
    ensures v.hashIdentifier == hashIdentifier && v.targetChunkSize == target
    ensures v.pathHashes == Diffs.Hashes(v, pathHash)
    ensures TaggedByFiles(v, files, ChunkerParams(target, discriminator, table), target * 1024, hashOf)
    ensures forall k :: 0 <= k < |v.chunkSizes| ==>
              0 < v.chunkSizes[k] <= ChunkerParams(target, discriminator, table).max
    ensures |v.assetChunkCounts| == |files| && |v.chunkHashes| < 0x1_0000_0000
    ensures forall a :: 0 <= a < |files| && !Storages.IsDirPath(files[a].path) && files[a].data != [] ==>
              v.assetChunkCounts[a] > 0
    ensures VersionOk(v) && Distinct(v.chunkHashes) && UsesAllChunks(v) && ContentHashed(v, listHash)
    ensures v.chunkHashes == ListedHashes(files, ChunkerParams(target, discriminator, table), target * 1024, hashOf)
    ensures forall a :: 0 <= a < |files| ==>
              AssetHashes(v, a) ==
              HashesOfFile(files[a], ChunkerParams(target, discriminator, table), target * 1024, hashOf)
    ensures Tells(files, ChunkerParams(target, discriminator, table), target * 1024, hashOf, bytes)
              && DirsHaveNoData(files) ==>
              VersionDescribes(v, bytes) && forall a :: 0 <= a < |files| ==> AssetBytes(v, bytes, a) == files[a].data
  {
    hide Ok, DescribesFiles, FileChunks, FirstOccurrences, Built, UsesAllChunks, ContentHashed, Tells, VersionDescribes,
         DirsHaveNoData, ListsOnce, AssetBytes, ChunkTotal, VersionOk, VersionShape, AllHashes, HashesOfFile,
         TaggedByFiles, TaggedByFile;
    ghost var p := ChunkerParams(target, discriminator, table);
    var chunks, starts, counts := ChunkAssets(files, target, discriminator, table, hashOf);
    ChunksAreTotal(files, p, target * 1024, hashOf, chunks, starts, counts);
    SlicesFit(files, p, target * 1024, hashOf, chunks, starts, counts);
    var contentHashes := HashContents(chunks, starts, counts, listHash);
    var pathHashes := HashPaths(files, pathHash);
    var unique, indexes := Deduplicate(chunks);
    ListedOnce(chunks, unique, indexes);
    v := BuildVersionIndex(hashIdentifier, target, files, permissions, pathHashes, contentHashes, starts, counts,
                           unique, indexes);
    IsBuilt(v, files, p, target * 1024, hashOf, chunks, unique);
    BuiltOk(v, files, p, target * 1024, hashOf, chunks, unique);
    BuiltUsesAll(v, files, p, target * 1024, hashOf, chunks, unique);
    BuiltSizes(v, files, p, target * 1024, hashOf, chunks, unique);
    BuiltTags(v, files, p, target * 1024, hashOf, chunks, unique);
    BuiltContentHashes(v, files, p, target * 1024, hashOf, chunks, unique, listHash);
    BuiltAssetHashes(v, files, p, target * 1024, hashOf, chunks, unique);
    ChunkHashesAreAll(files, p, target * 1024, hashOf, chunks, starts, counts);
    if Tells(files, p, target * 1024, hashOf, bytes) && DirsHaveNoData(files) {
      BuiltDescribes(v, files, p, target * 1024, hashOf, chunks, unique, bytes);
    }
  }

  lemma SlicesFit(files: seq<SourceFile>, p: Params, max: nat, hashOf: seq<byte> -> nat, chunks: seq<Chunk>,
                  starts: seq<nat>, counts: seq<nat>)
    requires Ok(p) && max > 0 && DescribesFiles(files, p, max, hashOf, chunks, starts, counts)
    ensures |starts| == |counts| == |files| && forall a :: 0 <= a < |starts| ==> starts[a] + counts[a] <= |chunks|
  {
    hide Ok, FileChunks;
  }

  lemma ListedOnce(chunks: seq<Chunk>, unique: seq<Chunk>, indexes: seq<nat>)
    requires Distinct(ChunkHashes(unique)) && |indexes| == |chunks|
    requires forall c :: 0 <= c < |chunks| ==> indexes[c] < |unique| && unique[indexes[c]].hash == chunks[c].hash
    requires forall k :: 0 <= k < |unique| ==> unique[k] in chunks
    requires ChunkHashes(unique) == At(ChunkHashes(chunks), FirstOccurrences(ChunkHashes(chunks)))
    ensures ListsOnce(chunks, unique, indexes) && |unique| <= |chunks|
  {
    hide FirstOccurrences;
    assert |unique| == |ChunkHashes(unique)| <= |ChunkHashes(chunks)|;
  }

  lemma IsBuilt(v: VersionIndex, files: seq<SourceFile>, p: Params, max: nat, hashOf: seq<byte> -> nat,
                chunks: seq<Chunk>, unique: seq<Chunk>)
    requires Ok(p) && max > 0 && |chunks| <= MAX_COUNT && |v.permissions| == |v.contentHashes| == |files|
    requires v == BuildVersionIndex(v.hashIdentifier, v.targetChunkSize, files, v.permissions, v.pathHashes,
                                    v.contentHashes, v.assetChunkIndexStarts, v.assetChunkCounts, unique,
                                    v.assetChunkIndexes)
    requires DescribesFiles(files, p, max, hashOf, chunks, v.assetChunkIndexStarts, v.assetChunkCounts)
    requires ListsOnce(chunks, unique, v.assetChunkIndexes)
    ensures Built(v, files, p, max, hashOf, chunks, unique)
  {
    hide Ok, FileChunks, DescribesFiles, ListsOnce;
  }

  lemma BuiltAssetHashes(v: VersionIndex, files: seq<SourceFile>, p: Params, max: nat, hashOf: seq<byte> -> nat,
                         chunks: seq<Chunk>, unique: seq<Chunk>)
    requires Ok(p) && max > 0 && Built(v, files, p, max, hashOf, chunks, unique) && VersionShape(v)
    ensures forall a :: 0 <= a < |files| ==> AssetHashes(v, a) == HashesOfFile(files[a], p, max, hashOf)
  {
    hide Ok, FileChunks, DescribesFiles, ListsOnce, VersionShape;
    forall a | 0 <= a < |files|
      ensures AssetHashes(v, a) == HashesOfFile(files[a], p, max, hashOf)
    {
      SlicesFit(files, p, max, hashOf, chunks, v.assetChunkIndexStarts, v.assetChunkCounts);
      FileSlice(files, p, max, hashOf, chunks, v.assetChunkIndexStarts, v.assetChunkCounts, a);
      forall c | 0 <= c < v.assetChunkCounts[a]
        ensures AssetHashes(v, a)[c] == HashesOfFile(files[a], p, max, hashOf)[c]
      {
        BuiltChunk(v, files, p, max, hashOf, chunks, unique, a, c);
      }
    }
  }

  /** The chunks are those of the files, file by file. */
  lemma {:induction false} ChunkHashesUpTo(files: seq<SourceFile>, p: Params, max: nat, hashOf: seq<byte> -> nat,
                                           chunks: seq<Chunk>, starts: seq<nat>, counts: seq<nat>, a: nat)
    requires Ok(p) && max > 0 && DescribesFiles(files, p, max, hashOf, chunks, starts, counts) && a <= |files|
    ensures ChunkTotal(files[..a], p, max) <= |chunks|
    ensures ChunkHashes(chunks[..ChunkTotal(files[..a], p, max)]) == AllHashes(files[..a], p, max, hashOf)
  {
    hide Ok, FileChunks, DescribesFiles;
    if a > 0 {
      var b := a - 1;
      ChunkHashesUpTo(files, p, max, hashOf, chunks, starts, counts, b);
      SlicesFit(files, p, max, hashOf, chunks, starts, counts);
      StartIsTotal(files, p, max, hashOf, chunks, starts, counts, b);
      FileSlice(files, p, max, hashOf, chunks, starts, counts, b);
      assert files[..a][..b] == files[..b] && files[..a][b] == files[b];
      var before, now := chunks[..starts[b]], chunks[..starts[b] + counts[b]];
      assert ChunkHashes(now) == ChunkHashes(before) + HashesOfFile(files[b], p, max, hashOf);
    }
  }

  lemma ChunkHashesAreAll(files: seq<SourceFile>, p: Params, max: nat, hashOf: seq<byte> -> nat, chunks: seq<Chunk>,
                          starts: seq<nat>, counts: seq<nat>)
    requires Ok(p) && max > 0 && DescribesFiles(files, p, max, hashOf, chunks, starts, counts)
    ensures ChunkHashes(chunks) == AllHashes(files, p, max, hashOf)
  {
    hide Ok, FileChunks, DescribesFiles;
    ChunkHashesUpTo(files, p, max, hashOf, chunks, starts, counts, |files|);
    ChunksAreTotal(files, p, max, hashOf, chunks, starts, counts);
    assert files[..|files|] == files && chunks[..|chunks|] == chunks;
  }

  lemma BuiltContentHashes(v: VersionIndex, files: seq<SourceFile>, p: Params, max: nat, hashOf: seq<byte> -> nat,
                           chunks: seq<Chunk>, unique: seq<Chunk>, listHash: seq<nat> -> nat)
    requires Ok(p) && max > 0 && Built(v, files, p, max, hashOf, chunks, unique) && VersionShape(v)
    requires forall a :: 0 <= a < |files| ==> v.assetChunkIndexStarts[a] + v.assetChunkCounts[a] <= |chunks|
    requires forall a :: 0 <= a < |files| ==>
               var start := v.assetChunkIndexStarts[a];
               v.contentHashes[a] == listHash(ChunkHashes(chunks[start..start + v.assetChunkCounts[a]]))
    ensures ContentHashed(v, listHash)
  {
    hide Ok, FileChunks, DescribesFiles, ListsOnce;
    forall a | 0 <= a < |files|
      ensures v.contentHashes[a] == listHash(AssetHashes(v, a))
    {
      var start, count := v.assetChunkIndexStarts[a], v.assetChunkCounts[a];
      forall c | 0 <= c < count
        ensures AssetHashes(v, a)[c] == ChunkHashes(chunks[start..start + count])[c]
      {
        BuiltChunk(v, files, p, max, hashOf, chunks, unique, a, c);
      }
      assert AssetHashes(v, a) == ChunkHashes(chunks[start..start + count]);
    }
  }
}

/** The flat indexes of longtail: a version index lists assets as runs of chunk
    indexes, a content index maps chunk hashes to the blocks that hold them. */
module Indexes {
  import opened Prelude
  import opened LookupTables

  /** Numbers of chunks in a version and in a block are 32 bits wide. */
  const MAX_COUNT: nat := 0xffff_ffff

  datatype VersionIndex = VersionIndex(
    hashIdentifier: nat,
    targetChunkSize: nat,
    names: seq<string>,
    pathHashes: seq<nat>,
    contentHashes: seq<nat>,
    permissions: seq<nat>,
    assetSizes: seq<nat>,
    assetChunkCounts: seq<nat>,
    assetChunkIndexStarts: seq<nat>,
    assetChunkIndexes: seq<nat>,
    chunkHashes: seq<nat>,
    chunkSizes: seq<nat>,
    chunkTags: seq<nat>)

  datatype ContentIndex = ContentIndex(
    hashIdentifier: nat,
    maxBlockSize: nat,
    maxChunksPerBlock: nat,
    blockHashes: seq<nat>,
    chunkHashes: seq<nat>,
    chunkBlockIndexes: seq<nat>)

  datatype StoredBlock = StoredBlock(hashIdentifier: nat, tag: nat, chunkHashes: seq<nat>, chunkSizes: seq<nat>,
                                     data: seq<byte>)

  // ----- Version indexes -----

  /** The arrays fit together: every asset is a run of valid chunk indexes. */
  ghost predicate VersionShape(v: VersionIndex) {
    && |v.names| == |v.contentHashes| == |v.permissions| == |v.assetSizes|
    && |v.assetChunkCounts| == |v.assetChunkIndexStarts| == |v.assetSizes|
    && |v.chunkHashes| == |v.chunkSizes| == |v.chunkTags| <= MAX_COUNT
    && |v.assetChunkIndexes| <= MAX_COUNT
    && (forall a :: 0 <= a < |v.assetSizes| ==>
          v.assetChunkIndexStarts[a] + v.assetChunkCounts[a] <= |v.assetChunkIndexes|)
    && (forall i :: 0 <= i < |v.assetChunkIndexes| ==> v.assetChunkIndexes[i] < |v.chunkHashes|)
  }

  /** As above, and the runs of different assets do not overlap. */
  ghost predicate VersionOk(v: VersionIndex) {
    && VersionShape(v)
    && (forall a, b :: 0 <= a < b < |v.assetSizes| ==>
          v.assetChunkIndexStarts[a] + v.assetChunkCounts[a] <= v.assetChunkIndexStarts[b])
  }

  ghost predicate HasChunk(v: VersionIndex, a: nat, c: nat) {
    VersionShape(v) && a < |v.assetSizes| && c < v.assetChunkCounts[a]
  }

  /** The chunk index of chunk c of asset a. */
  function ChunkOf(v: VersionIndex, a: nat, c: nat): (i: nat)
    requires HasChunk(v, a, c)
    ensures i < |v.chunkHashes|
  {
    v.assetChunkIndexes[v.assetChunkIndexStarts[a] + c]
  }

  function HashOf(v: VersionIndex, a: nat, c: nat): nat
    requires HasChunk(v, a, c)
  {
    v.chunkHashes[ChunkOf(v, a, c)]
  }

  function SizeOf(v: VersionIndex, a: nat, c: nat): nat
    requires HasChunk(v, a, c)
  {
    v.chunkSizes[ChunkOf(v, a, c)]
  }

  /** The chunk contents of an asset, when `bytes` gives the bytes behind a hash. */
  function Pieces(v: VersionIndex, bytes: nat -> seq<byte>, a: nat): (ps: seq<seq<byte>>)
    requires VersionShape(v) && a < |v.assetSizes|
    ensures |ps| == v.assetChunkCounts[a]
    ensures forall c :: 0 <= c < |ps| ==> ps[c] == bytes(HashOf(v, a, c))
  {
    seq(v.assetChunkCounts[a], c requires 0 <= c < v.assetChunkCounts[a] => bytes(HashOf(v, a, c)))
  }

  /** The content of an asset: the concatenation of its chunks. */
  function AssetBytes(v: VersionIndex, bytes: nat -> seq<byte>, a: nat): seq<byte>
    requires VersionShape(v) && a < |v.assetSizes|
  {
    Flatten(Pieces(v, bytes, a))
  }

  /** Chunk sizes are those of the bytes behind the hashes, no chunk is empty, and
      asset sizes add up. */
  ghost predicate VersionDescribes(v: VersionIndex, bytes: nat -> seq<byte>)
    ensures VersionDescribes(v, bytes) ==> VersionOk(v)
  {
    && VersionOk(v)
    && (forall i :: 0 <= i < |v.chunkHashes| ==> |bytes(v.chunkHashes[i])| == v.chunkSizes[i] > 0)
    && (forall a :: 0 <= a < |v.assetSizes| ==> v.assetSizes[a] == |AssetBytes(v, bytes, a)|)
  }

  // ----- Content indexes -----

  ghost predicate ContentOk(ix: ContentIndex) {
    && |ix.chunkHashes| == |ix.chunkBlockIndexes| < NONE
    && |ix.blockHashes| < NONE
    && forall i :: 0 <= i < |ix.chunkBlockIndexes| ==> ix.chunkBlockIndexes[i] < |ix.blockHashes|
  }

  /** The block a chunk is fetched from: that of its first entry. */
  function BlockHashOf(ix: ContentIndex, chunkHash: nat): Option<nat>
    requires ContentOk(ix)
  {
    var i := FirstMatch(ix.chunkHashes, chunkHash);
    if i == |ix.chunkHashes| then None else Some(ix.blockHashes[ix.chunkBlockIndexes[i]])
  }

  /** The blocks the chunks of an asset are fetched from. */
  ghost function AssetBlocks(v: VersionIndex, a: nat, ix: ContentIndex): (hashes: seq<nat>)
    requires VersionShape(v) && a < |v.assetSizes| && ContentOk(ix)
    ensures |hashes| == v.assetChunkCounts[a] && forall c :: 0 <= c < |hashes| ==>
              BlockHashOf(ix, HashOf(v, a, c)).Some? ==> Some(hashes[c]) == BlockHashOf(ix, HashOf(v, a, c))
  {
    seq(v.assetChunkCounts[a], c requires 0 <= c < v.assetChunkCounts[a] =>
      if BlockHashOf(ix, HashOf(v, a, c)).Some? then BlockHashOf(ix, HashOf(v, a, c)).value else 0)
  }

  // ----- Stored blocks -----

  type BlockStore = map<nat, StoredBlock>

  ghost function BlockPieces(b: StoredBlock, bytes: nat -> seq<byte>): (ps: seq<seq<byte>>)
    ensures |ps| == |b.chunkHashes|
    ensures forall c :: 0 <= c < |ps| ==> ps[c] == bytes(b.chunkHashes[c])
  {
    seq(|b.chunkHashes|, c requires 0 <= c < |b.chunkHashes| => bytes(b.chunkHashes[c]))
  }

  ghost predicate BlockDescribes(b: StoredBlock, bytes: nat -> seq<byte>) {
    && |b.chunkHashes| == |b.chunkSizes| <= MAX_COUNT
    && b.data == Flatten(BlockPieces(b, bytes))
    && forall c :: 0 <= c < |b.chunkHashes| ==> b.chunkSizes[c] == |bytes(b.chunkHashes[c])|
  }

  /** Blocks hold the bytes behind the hashes they list. Which blocks there are is open. */
  ghost predicate BlocksDescribed(blocks: BlockStore, bytes: nat -> seq<byte>) {
    forall h :: h in blocks ==> BlockDescribes(blocks[h], bytes)
  }

  /** The content index has every chunk of the version, and the blocks that the store has hold
      what the content index says. */
  ghost predicate ServesPart(v: VersionIndex, ix: ContentIndex, store: BlockStore, bytes: nat -> seq<byte>) {
    && VersionDescribes(v, bytes) && ContentOk(ix) && BlocksDescribed(store, bytes)
    && (forall i :: 0 <= i < |ix.chunkHashes| ==>
          var h := ix.blockHashes[ix.chunkBlockIndexes[i]];
          h in store ==> ix.chunkHashes[i] in store[h].chunkHashes)
    && (forall i :: 0 <= i < |v.chunkHashes| ==> v.chunkHashes[i] in ix.chunkHashes)
  }

  /** And the store has every block of the content index. */
  ghost predicate Serves(v: VersionIndex, ix: ContentIndex, store: BlockStore, bytes: nat -> seq<byte>) {
    && ServesPart(v, ix, store, bytes)
    && forall i :: 0 <= i < |ix.chunkHashes| ==> ix.blockHashes[ix.chunkBlockIndexes[i]] in store
  }
}

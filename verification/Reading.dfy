/** The random-access reader of lib/blockstorestorage: it serves any byte range of an
    asset from the blocks that hold the asset's chunks. */
module Reading {
  import opened Prelude
  import opened LookupTables
  import opened Indexes

  /** A read succeeds, fails with EIO, or ends the process. */
  datatype Outcome = ReadOk | IoError | DividedByZero

  /** The chunks of an asset from chunkStart up to chunkEnd, as far as they lie in
      one block. Chunks of other blocks may lie between them. */
  datatype ChunkRange = ChunkRange(blockHash: nat, assetStartOffset: nat, chunkStart: nat, chunkEnd: nat)

  /** The index of the earliest entry with this block hash. */
  ghost function IndexOf(blocks: seq<nat>, h: nat): (r: Option<nat>)
    ensures r.Some? ==> r.value < |blocks| && blocks[r.value] == h
    ensures r.None? ==> h !in blocks
  {
    if blocks == [] then None
    else
      var before := IndexOf(blocks[..|blocks| - 1], h);
      LookupTable.FirstWins(before, h, blocks[|blocks| - 1], |blocks| - 1)
  }

  lemma IndexOfAppend(blocks: seq<nat>, b: nat, h: nat)
    ensures IndexOf(blocks + [b], h) == LookupTable.FirstWins(IndexOf(blocks, h), h, b, |blocks|)
  {
    assert (blocks + [b])[..|blocks|] == blocks;
  }

  /** The ranges of the chunks lo..hi of an asset with these pieces and blocks. */
  ghost predicate RangesCover(pieces: seq<seq<byte>>, blocks: seq<nat>, ranges: seq<ChunkRange>, lo: nat, hi: nat) {
    && lo <= hi <= |pieces| == |blocks|
    && (forall k :: 0 <= k < |ranges| ==> RangeOk(pieces, blocks, ranges[k], lo, hi))
    && (forall c :: lo <= c < hi ==> InSomeRange(ranges, blocks[c], c))
  }

  ghost predicate RangeOk(pieces: seq<seq<byte>>, blocks: seq<nat>, r: ChunkRange, lo: nat, hi: nat) {
    && lo <= r.chunkStart < r.chunkEnd <= hi <= |pieces| == |blocks|
    && r.blockHash == blocks[r.chunkStart]
    && r.assetStartOffset == Offset(pieces, r.chunkStart)
  }

  ghost predicate InSomeRange(ranges: seq<ChunkRange>, h: nat, c: nat) {
    exists k :: 0 <= k < |ranges| && ranges[k].blockHash == h && ranges[k].chunkStart <= c < ranges[k].chunkEnd
  }

  /** Records chunk c: it extends the range of its block, or starts a new one. */
  function AddChunk(ranges: seq<ChunkRange>, known: Option<nat>, blockHash: nat, offset: nat, c: nat): seq<ChunkRange>
    requires known.Some? ==> known.value < |ranges|
  {
    match known
    case Some(k) => ranges[k := ranges[k].(chunkEnd := c + 1)]
    case None => ranges + [ChunkRange(blockHash, offset, c, c + 1)]
  }

  ghost function Hashes(ranges: seq<ChunkRange>): seq<nat> {
    seq(|ranges|, k requires 0 <= k < |ranges| => ranges[k].blockHash)
  }

  lemma AddChunkCovers(pieces: seq<seq<byte>>, blocks: seq<nat>, ranges: seq<ChunkRange>, lo: nat, c: nat)
    requires RangesCover(pieces, blocks, ranges, lo, c) && c < |pieces|
    ensures var known := IndexOf(Hashes(ranges), blocks[c]);
            var ranges' := AddChunk(ranges, known, blocks[c], Offset(pieces, c), c);
            && RangesCover(pieces, blocks, ranges', lo, c + 1)
            && Hashes(ranges') == if known.Some? then Hashes(ranges) else Hashes(ranges) + [blocks[c]]
  {
    hide Offset, IndexOf, RangeOk, InSomeRange, AddChunk;
    var known := IndexOf(Hashes(ranges), blocks[c]);
    var ranges' := AddChunk(ranges, known, blocks[c], Offset(pieces, c), c);
    AddChunkRanges(pieces, blocks, ranges, lo, c, known);
    forall d | lo <= d < c + 1
      ensures InSomeRange(ranges', blocks[d], d)
    {
      AddChunkKeeps(pieces, blocks, ranges, lo, c, known, d);
    }
  }

  lemma AddChunkRanges(pieces: seq<seq<byte>>, blocks: seq<nat>, ranges: seq<ChunkRange>, lo: nat, c: nat,
                       known: Option<nat>)
    requires lo <= c < |pieces| == |blocks|
    requires known.Some? ==> known.value < |ranges|
    requires forall k :: 0 <= k < |ranges| ==> RangeOk(pieces, blocks, ranges[k], lo, c)
    ensures var ranges' := AddChunk(ranges, known, blocks[c], Offset(pieces, c), c);
            && (forall k :: 0 <= k < |ranges'| ==> RangeOk(pieces, blocks, ranges'[k], lo, c + 1))
            && Hashes(ranges') == if known.Some? then Hashes(ranges) else Hashes(ranges) + [blocks[c]]
  {
    hide Offset;
    var ranges' := AddChunk(ranges, known, blocks[c], Offset(pieces, c), c);
    forall k | 0 <= k < |ranges'|
      ensures RangeOk(pieces, blocks, ranges'[k], lo, c + 1)
    {
      if k < |ranges| {
        assert RangeOk(pieces, blocks, ranges[k], lo, c);
      }
    }
  }

  lemma AddChunkKeeps(pieces: seq<seq<byte>>, blocks: seq<nat>, ranges: seq<ChunkRange>, lo: nat, c: nat,
                      known: Option<nat>, d: nat)
    requires RangesCover(pieces, blocks, ranges, lo, c) && lo <= d <= c < |pieces|
    requires known.Some? ==> known.value < |ranges| && ranges[known.value].blockHash == blocks[c]
    ensures InSomeRange(AddChunk(ranges, known, blocks[c], Offset(pieces, c), c), blocks[d], d)
  {
    hide Offset, AddChunk;
    if d == c {
      assert known.Some? ==> RangeOk(pieces, blocks, ranges[known.value], lo, c);
      AddChunkAdds(ranges, known, blocks[c], Offset(pieces, c), c);
    } else {
      assert InSomeRange(ranges, blocks[d], d);
      var k :| 0 <= k < |ranges| && ranges[k].blockHash == blocks[d] && ranges[k].chunkStart <= d < ranges[k].chunkEnd;
      assert RangeOk(pieces, blocks, ranges[k], lo, c);
      AddChunkKeepsRange(ranges, known, blocks[c], Offset(pieces, c), c, k, d);
    }
  }

  lemma AddChunkAdds(ranges: seq<ChunkRange>, known: Option<nat>, blockHash: nat, offset: nat, c: nat)
    requires known.Some? ==>
               known.value < |ranges| && ranges[known.value].blockHash == blockHash
                   && ranges[known.value].chunkStart <= c
    ensures InSomeRange(AddChunk(ranges, known, blockHash, offset, c), blockHash, c)
  {
    var k := if known.Some? then known.value else |ranges|;
    assert AddChunk(ranges, known, blockHash, offset, c)[k].chunkEnd == c + 1;
  }

  lemma AddChunkKeepsRange(ranges: seq<ChunkRange>, known: Option<nat>, blockHash: nat, offset: nat, c: nat, k: nat,
                           d: nat)
    requires (known.Some? ==> known.value < |ranges|) && k < |ranges|
    requires ranges[k].chunkStart <= d < ranges[k].chunkEnd <= c
    ensures InSomeRange(AddChunk(ranges, known, blockHash, offset, c), ranges[k].blockHash, d)
  {
    assert AddChunk(ranges, known, blockHash, offset, c)[k].chunkStart <= d;
  }

  // ----- Finding the start chunk -----

  /** The chunk offsets of an asset in the shared offset array. */
  ghost predicate OffsetsOf(a: seq<nat>, pieces: seq<seq<byte>>) {
    |a| == |pieces| && forall c :: 0 <= c < |a| ==> a[c] == Offset(pieces, c)
  }

  ghost predicate Increasing(a: seq<nat>) {
    forall i, j :: 0 <= i < j < |a| ==> a[i] < a[j]
  }

  /** The last of the n entries from base that is at most val, by binary search for
      the first entry that is at least val. */
  method FindStartChunk(a: array<nat>, base: nat, n: nat, val: nat) returns (r: nat)
    requires n > 0 && base + n <= a.Length
    requires Increasing(a[base..base + n]) && a[base] <= val
    ensures r < n && a[base + r] <= val && (r + 1 < n ==> val < a[base + r + 1])
  {
    ghost var s := a[base..base + n];
    var first: nat, count: nat := 0, n;
    while count > 0
      invariant first + count <= n
      invariant forall i :: 0 <= i < first ==> s[i] < val
      invariant first + count < n ==> s[first + count] >= val
    {
      var step := count / 2;
      var it := first + step;
      assert s[it] == a[base + it];
      if a[base + it] < val {
        first := it + 1;
        count := count - (step + 1);
      } else {
        count := step;
      }
    }
    assert s[0] == a[base];
    if first == n {
      r := first - 1;
    } else if a[base + first] > val {
      r := first - 1;
    } else {
      r := first;
    }
    assert s[r] == a[base + r] && (r + 1 < n ==> s[r + 1] == a[base + r + 1]);
  }

  /** With no empty piece, offsets increase. */
  lemma OffsetsIncrease(a: seq<nat>, pieces: seq<seq<byte>>)
    requires OffsetsOf(a, pieces) && forall c :: 0 <= c < |pieces| ==> pieces[c] != []
    ensures Increasing(a)
    ensures a != [] ==> a[0] == 0
  {
    forall i, j | 0 <= i < j < |a|
      ensures a[i] < a[j]
    {
      OffsetNext(pieces, i);
      OffsetMonotone(pieces, i + 1, j);
    }
    OffsetEnds(pieces);
  }

  /** An open file: the asset and the cached seek position. */
  class OpenFile {
    const assetIndex: nat
    var seekChunkOffset: nat
    var seekAssetPos: nat

    constructor (assetIndex: nat)
      ensures this.assetIndex == assetIndex && seekChunkOffset == 0 && seekAssetPos == 0
    {
      this.assetIndex := assetIndex;
      seekChunkOffset, seekAssetPos := 0, 0;
    }

    /** The seek position is the offset of the seek chunk. */
    ghost predicate SeekOk(pieces: seq<seq<byte>>)
      reads this
    {
      && (pieces != [] ==> seekChunkOffset < |pieces| && seekAssetPos == Offset(pieces, seekChunkOffset))
      && (pieces == [] ==> seekChunkOffset == 0 && seekAssetPos == 0)
    }
  }

  // ----- Copying from a block -----

  /** All requested bytes of chunk c are in place. */
  ghost predicate Served(pieces: seq<seq<byte>>, buffer: seq<byte>, start: nat, readEnd: nat, c: nat) {
    && c < |pieces| && start <= readEnd <= |Flatten(pieces)| && readEnd - start <= |buffer|
    && forall pos {:trigger Flatten(pieces)[pos]} ::
         start <= pos < readEnd && Offset(pieces, c) <= pos < Offset(pieces, c + 1) ==>
           buffer[pos - start] == Flatten(pieces)[pos]
  }

  /** A job writes nothing but requested bytes of the asset. */
  ghost predicate OnlyServes(asset: seq<byte>, before: seq<byte>, after: seq<byte>, start: nat, readEnd: nat) {
    && |after| == |before| && start <= readEnd <= |asset|
    && forall i :: 0 <= i < |after| ==>
         after[i] == before[i] || (start + i < readEnd && after[i] == asset[start + i])
  }

  /** The bytes of chunk c are as before. */
  ghost predicate Kept(pieces: seq<seq<byte>>, before: seq<byte>, after: seq<byte>, start: nat, readEnd: nat, c: nat) {
    && c < |pieces| && |after| == |before|
    && forall i :: 0 <= i < |after| && start + i < readEnd && Offset(pieces, c) <= start + i < Offset(pieces, c + 1) ==>
         after[i] == before[i]
  }

  /** Nothing but bytes of chunk c was written. */
  ghost predicate OnlyChunk(pieces: seq<seq<byte>>, before: seq<byte>, after: seq<byte>, start: nat, c: nat) {
    && c < |pieces| && |after| == |before|
    && forall i :: 0 <= i < |after| ==> after[i] == before[i] || Offset(pieces, c) <= start + i < Offset(pieces, c + 1)
  }

  lemma OtherKept(pieces: seq<seq<byte>>, before: seq<byte>, now: seq<byte>, after: seq<byte>, start: nat, readEnd: nat,
                  c: nat, d: nat)
    requires Kept(pieces, before, now, start, readEnd, d) && OnlyChunk(pieces, now, after, start, c) && c != d
    ensures Kept(pieces, before, after, start, readEnd, d)
  {
    hide Flatten, Offset;
    if c < d {
      OffsetMonotone(pieces, c + 1, d);
    } else {
      OffsetMonotone(pieces, d + 1, c);
    }
  }

  lemma KeptTwice(pieces: seq<seq<byte>>, before: seq<byte>, now: seq<byte>, after: seq<byte>, start: nat, readEnd: nat,
                  d: nat)
    requires Kept(pieces, before, now, start, readEnd, d) && Kept(pieces, now, after, start, readEnd, d)
    ensures Kept(pieces, before, after, start, readEnd, d)
  {
    hide Flatten, Offset;
  }

  lemma KeptServed(pieces: seq<seq<byte>>, before: seq<byte>, after: seq<byte>, start: nat, readEnd: nat, c: nat)
    requires Kept(pieces, before, after, start, readEnd, c)
    requires start <= readEnd <= |Flatten(pieces)| && readEnd - start <= |after|
    ensures Served(pieces, before, start, readEnd, c) <==> Served(pieces, after, start, readEnd, c)
  {
    hide Flatten, Offset;
    if Served(pieces, after, start, readEnd, c) {
      forall pos | start <= pos < readEnd && Offset(pieces, c) <= pos < Offset(pieces, c + 1)
        ensures before[pos - start] == Flatten(pieces)[pos]
      {
        assert start + (pos - start) == pos;
        assert before[pos - start] == after[pos - start];
      }
    }
    if Served(pieces, before, start, readEnd, c) {
      forall pos | start <= pos < readEnd && Offset(pieces, c) <= pos < Offset(pieces, c + 1)
        ensures after[pos - start] == Flatten(pieces)[pos]
      {
        assert before[pos - start] == after[pos - start];
      }
    }
  }

  lemma SliceServes(pieces: seq<seq<byte>>, buffer: seq<byte>, start: nat, readEnd: nat, c: nat)
    requires c < |pieces| && start <= readEnd <= |Flatten(pieces)| && readEnd - start <= |buffer|
    requires buffer[..readEnd - start] == Flatten(pieces)[start..readEnd]
    ensures Served(pieces, buffer, start, readEnd, c)
  {
    hide Flatten, Offset;
    forall pos | start <= pos < readEnd
      ensures buffer[pos - start] == Flatten(pieces)[pos]
    {
      assert buffer[..readEnd - start][pos - start] == Flatten(pieces)[start..readEnd][pos - start];
    }
  }

  /** What is served stays served. */
  lemma StaysServed(pieces: seq<seq<byte>>, before: seq<byte>, after: seq<byte>, start: nat, readEnd: nat, c: nat)
    requires Served(pieces, before, start, readEnd, c)
    requires OnlyServes(Flatten(pieces), before, after, start, readEnd)
    ensures Served(pieces, after, start, readEnd, c)
  {
    hide Flatten, Offset;
  }

  lemma OnlyServesTwice(asset: seq<byte>, a: seq<byte>, b: seq<byte>, c: seq<byte>, start: nat, readEnd: nat)
    requires OnlyServes(asset, a, b, start, readEnd) && OnlyServes(asset, b, c, start, readEnd)
    ensures OnlyServes(asset, a, c, start, readEnd)
  {
  }

  /** The read is complete once every chunk it touches is served. */
  lemma AllServed(pieces: seq<seq<byte>>, buffer: seq<byte>, start: nat, readEnd: nat, lo: nat, hi: nat)
    requires start <= readEnd <= |Flatten(pieces)| && readEnd - start <= |buffer|
    requires lo < hi <= |pieces| && Offset(pieces, lo) <= start && readEnd <= Offset(pieces, hi)
    requires forall c :: lo <= c < hi ==> Served(pieces, buffer, start, readEnd, c)
    ensures buffer[..readEnd - start] == Flatten(pieces)[start..readEnd]
  {
    hide Flatten, Offset;
    forall pos | start <= pos < readEnd
      ensures buffer[pos - start] == Flatten(pieces)[pos]
    {
      var c := PieceAt(pieces, pos);
      if c < lo {
        OffsetMonotone(pieces, c + 1, lo);
      } else if c >= hi {
        OffsetMonotone(pieces, hi, c);
      }
      assert Served(pieces, buffer, start, readEnd, c);
    }
  }

  /** Writing the asset bytes from..to, the requested part of chunk c, serves it. */
  lemma PlacedServes(pieces: seq<seq<byte>>, before: seq<byte>, after: seq<byte>, start: nat, readEnd: nat, c: nat,
                     from: nat, to: nat)
    requires c < |pieces| && start <= from <= to <= readEnd <= |Flatten(pieces)|
               && readEnd - start <= |before| == |after|
    requires from == start || from <= Offset(pieces, c)
    requires to == readEnd || to >= Offset(pieces, c + 1)
    requires forall i :: 0 <= i < |after| ==>
               after[i] == if from <= start + i < to then Flatten(pieces)[start + i] else before[i]
    ensures Served(pieces, after, start, readEnd, c)
    ensures OnlyServes(Flatten(pieces), before, after, start, readEnd)
  {
    hide Flatten, Offset;
    forall pos | start <= pos < readEnd && Offset(pieces, c) <= pos < Offset(pieces, c + 1)
      ensures after[pos - start] == Flatten(pieces)[pos]
    {
      assert after[pos - start] == Flatten(pieces)[start + (pos - start)];
    }
  }

  /** The bytes of a part of chunk c, in the block and in the asset. */
  lemma PartOfChunk(pieces: seq<seq<byte>>, c: nat, data: seq<byte>, blockOffset: nat, skip: nat, n: nat)
    requires c < |pieces| && skip + n <= |pieces[c]|
    requires blockOffset + |pieces[c]| <= |data| && data[blockOffset..blockOffset + |pieces[c]|] == pieces[c]
    ensures Offset(pieces, c) + skip + n <= |Flatten(pieces)|
    ensures data[blockOffset + skip..blockOffset + skip + n] ==
            Flatten(pieces)[Offset(pieces, c) + skip..Offset(pieces, c) + skip + n]
  {
    hide Flatten, Offset;
    PieceSlice(pieces, c);
    SliceSlice(data, blockOffset, blockOffset + |pieces[c]|, skip, skip + n);
    SliceSlice(Flatten(pieces), Offset(pieces, c), Offset(pieces, c + 1), skip, skip + n);
  }

  /** Copies the requested part of chunk c, found at blockOffset of the block data. */
  method CopyChunk(ghost pieces: seq<seq<byte>>, ghost c: nat, data: seq<byte>, blockOffset: nat, chunkSize: nat,
                   offset: nat, start: nat, readEnd: nat, buffer: array<byte>) returns (offset': nat)
    requires c < |pieces| && offset == Offset(pieces, c) && chunkSize == |pieces[c]|
    requires blockOffset + chunkSize <= |data| && data[blockOffset..blockOffset + chunkSize] == pieces[c]
    requires start <= readEnd <= |Flatten(pieces)| && readEnd - start <= buffer.Length
    requires start <= Offset(pieces, c + 1) && offset <= readEnd
    modifies buffer
    ensures offset' == if Offset(pieces, c + 1) <= readEnd then Offset(pieces, c + 1) else readEnd
    ensures Served(pieces, buffer[..], start, readEnd, c)
    ensures OnlyServes(Flatten(pieces), old(buffer[..]), buffer[..], start, readEnd)
    ensures OnlyChunk(pieces, old(buffer[..]), buffer[..], start, c)
  {
    hide Flatten, Offset, Served, OnlyServes;
    OffsetNext(pieces, c);
    var chunkOffset, length := 0, chunkSize;
    offset' := offset;
    if offset < start {
      chunkOffset := start - offset;
      length := chunkSize - chunkOffset;
      offset' := start;
    }
    if offset' + length > readEnd {
      length := readEnd - offset';
    }
    PartOfChunk(pieces, c, data, blockOffset, chunkOffset, length);
    ghost var part := Flatten(pieces)[offset'..offset' + length];
    CopyInto(buffer, offset' - start, data[blockOffset + chunkOffset..blockOffset + chunkOffset + length]);
    assert forall i :: 0 <= i < length ==> part[i] == Flatten(pieces)[offset' + i];
    ghost var from := offset';
    offset' := offset' + length;
    PlacedServes(pieces, old(buffer[..]), buffer[..], start, readEnd, c, from, offset');
  }

  /** The chunk offsets of asset a in the shared array. */
  ghost function Run(offsets: seq<nat>, v: VersionIndex, a: nat): seq<nat>
    requires VersionOk(v) && a < |v.assetSizes| && |offsets| == |v.assetChunkIndexes|
  {
    offsets[v.assetChunkIndexStarts[a]..v.assetChunkIndexStarts[a] + v.assetChunkCounts[a]]
  }

  class BlockStoreStorage {
    const version: VersionIndex
    const content: ContentIndex
    const store: BlockStore
    const chunkToBlock: LookupTable
    const chunkAssetOffsets: array<nat>
    /** The bytes behind a chunk hash. */
    ghost const bytes: nat -> seq<byte>

    ghost predicate Valid()
      reads this, chunkToBlock, chunkToBlock.Repr, chunkAssetOffsets
      ensures Valid() ==> ServesPart(version, content, store, bytes) && VersionOk(version)
    {
      && ServesPart(version, content, store, bytes)
      && chunkToBlock.Valid() && chunkAssetOffsets !in chunkToBlock.Repr
      && chunkToBlock.Keys() == content.chunkHashes && chunkToBlock.Values() == content.chunkBlockIndexes
      && chunkAssetOffsets.Length == |version.assetChunkIndexes|
      && forall a :: 0 <= a < |version.assetSizes| ==>
           OffsetsOf(Run(chunkAssetOffsets[..], version, a), Pieces(version, bytes, a))
    }

    /** The blocks the chunks of an asset are fetched from. */
    ghost function AssetBlocks(a: nat): (bs: seq<nat>)
      requires ServesPart(version, content, store, bytes) && a < |version.assetSizes|
      ensures |bs| == version.assetChunkCounts[a]
      ensures forall c :: 0 <= c < |bs| ==> Some(bs[c]) == BlockHashOf(content, HashOf(version, a, c))
    {
      forall c | 0 <= c < version.assetChunkCounts[a]
        ensures BlockHashOf(content, HashOf(version, a, c)).Some?
      {
        FirstMatchNone(content.chunkHashes, HashOf(version, a, c));
      }
      Indexes.AssetBlocks(version, a, content)
    }

    /** Indexes the content by chunk hash and sums up the chunk offsets of every
        asset. */
    constructor (v: VersionIndex, ix: ContentIndex, store: BlockStore, ghost bytes: nat -> seq<byte>)
      requires ServesPart(v, ix, store, bytes)
      ensures Valid() && version == v && content == ix && this.store == store && this.bytes == bytes
      ensures fresh(chunkToBlock) && fresh(chunkToBlock.Repr) && fresh(chunkAssetOffsets)
    {
      hide Linked, OffsetsOf, Run;
      var table := PutAll(ix.chunkHashes, ix.chunkBlockIndexes);
      var offsets := new nat[|v.assetChunkIndexes|];
      for a := 0 to |v.assetSizes|
        invariant table.Valid() && table.Keys() == ix.chunkHashes && table.Values() == ix.chunkBlockIndexes
        invariant forall b :: 0 <= b < a ==> OffsetsOf(Run(offsets[..], v, b), Pieces(v, bytes, b))
      {
        ghost var before := offsets[..];
        FillRun(offsets, v, bytes, a);
        RunsBefore(before, offsets[..], v, a);
      }
      version, content, chunkToBlock, chunkAssetOffsets := v, ix, table, offsets;
      this.store := store;
      this.bytes := bytes;
    }

    /** Sums up the chunk offsets of one asset. */
    static method FillRun(offsets: array<nat>, v: VersionIndex, ghost bytes: nat -> seq<byte>, a: nat)
      requires VersionDescribes(v, bytes) && a < |v.assetSizes| && offsets.Length == |v.assetChunkIndexes|
      modifies offsets
      ensures OffsetsOf(Run(offsets[..], v, a), Pieces(v, bytes, a))
      ensures offsets[..v.assetChunkIndexStarts[a]] == old(offsets[..v.assetChunkIndexStarts[a]])
    {
      ghost var pieces := Pieces(v, bytes, a);
      var start := v.assetChunkIndexStarts[a];
      var offset := 0;
      OffsetEnds(pieces);
      for c := 0 to v.assetChunkCounts[a]
        invariant offset == Offset(pieces, c)
        invariant forall d :: 0 <= d < c ==> offsets[start + d] == Offset(pieces, d)
        invariant offsets[..start] == old(offsets[..start])
      {
        offsets[start + c] := offset;
        OffsetNext(pieces, c);
        offset := offset + SizeOf(v, a, c);
      }
    }

    static lemma RunsBefore(before: seq<nat>, after: seq<nat>, v: VersionIndex, a: nat)
      requires VersionOk(v) && a < |v.assetSizes| && |before| == |after| == |v.assetChunkIndexes|
      requires before[..v.assetChunkIndexStarts[a]] == after[..v.assetChunkIndexStarts[a]]
      ensures forall b :: 0 <= b < a ==> Run(after, v, b) == Run(before, v, b)
    {
      forall b | 0 <= b < a
        ensures Run(after, v, b) == Run(before, v, b)
      {
        var lo, hi := v.assetChunkIndexStarts[b], v.assetChunkIndexStarts[b] + v.assetChunkCounts[b];
        SliceSlice(before, 0, v.assetChunkIndexStarts[a], lo, hi);
        SliceSlice(after, 0, v.assetChunkIndexStarts[a], lo, hi);
      }
    }

    // ----- Seeking -----

    ghost predicate OpenOk(f: OpenFile)
      requires ServesPart(version, content, store, bytes)
      reads f
    {
      f.assetIndex < |version.assetSizes| && f.SeekOk(Pieces(version, bytes, f.assetIndex))
    }

    /** Chunk c is where a read at pos starts. */
    static ghost predicate StartsAt(pieces: seq<seq<byte>>, c: nat, pos: nat) {
      c < |pieces| && Offset(pieces, c) <= pos && (c + 1 < |pieces| ==> pos < Offset(pieces, c + 1))
    }

    /** The chunk offset of chunk c of the asset. */
    lemma OffsetAt(a: nat, c: nat)
      requires Valid() && a < |version.assetSizes| && c < version.assetChunkCounts[a]
      ensures version.assetChunkIndexStarts[a] + c < chunkAssetOffsets.Length
      ensures chunkAssetOffsets[version.assetChunkIndexStarts[a] + c] == Offset(Pieces(version, bytes, a), c)
    {
      assert Run(chunkAssetOffsets[..], version, a)[c] == chunkAssetOffsets[version.assetChunkIndexStarts[a] + c];
    }

    /** Moves the seek position to the chunk that contains pos, unless it is there. */
    method SeekFile(f: OpenFile, pos: nat) returns (r: Outcome)
      requires Valid() && OpenOk(f)
      modifies f
      ensures OpenOk(f)
      ensures var pieces := Pieces(version, bytes, f.assetIndex);
              r == (if pieces == [] && pos != 0 then IoError else ReadOk) &&
              (pieces != [] ==> StartsAt(pieces, f.seekChunkOffset, pos))
    {
      hide Offset, Flatten, OffsetsOf, Valid, ServesPart, ContentOk, VersionShape, Run;
      var a := f.assetIndex;
      ghost var pieces := Pieces(version, bytes, a);
      ShapeHere(a);
      var start, n := version.assetChunkIndexStarts[a], version.assetChunkCounts[a];
      RunIncreases(a);
      if pos == f.seekAssetPos {
        if n > 0 && f.seekChunkOffset + 1 < n {
          OffsetAt(a, f.seekChunkOffset);
          OffsetAt(a, f.seekChunkOffset + 1);
          ghost var run := chunkAssetOffsets[start..start + n];
          assert run[f.seekChunkOffset] < run[f.seekChunkOffset + 1];
        }
        return ReadOk;
      }
      if n == 0 {
        return if pos == 0 then ReadOk else IoError;
      }
      OffsetAt(a, f.seekChunkOffset);
      if pos >= chunkAssetOffsets[start + f.seekChunkOffset] {
        if f.seekChunkOffset == n - 1 {
          return ReadOk;
        }
        OffsetAt(a, f.seekChunkOffset + 1);
        if pos < chunkAssetOffsets[start + f.seekChunkOffset + 1] {
          return ReadOk;
        }
      }
      OffsetAt(a, 0);
      var c := FindStartChunk(chunkAssetOffsets, start, n, pos);
      OffsetAt(a, c);
      if c + 1 < n {
        OffsetAt(a, c + 1);
      }
      f.seekAssetPos, f.seekChunkOffset := chunkAssetOffsets[start + c], c;
      return ReadOk;
    }

    lemma ShapeHere(a: nat)
      requires Valid() && a < |version.assetSizes|
      ensures VersionShape(version)
                && |version.assetChunkIndexStarts| == |version.assetChunkCounts| == |version.assetSizes|
    {
      hide Linked, OffsetsOf, Run;
    }

    lemma RunIncreases(a: nat)
      requires Valid() && a < |version.assetSizes|
      ensures VersionShape(version) && |Pieces(version, bytes, a)| == version.assetChunkCounts[a]
      ensures var start, n := version.assetChunkIndexStarts[a], version.assetChunkCounts[a];
              && start + n <= chunkAssetOffsets.Length && Increasing(chunkAssetOffsets[start..start + n])
              && (n > 0 ==> chunkAssetOffsets[start] == 0)
    {
      var start, n := version.assetChunkIndexStarts[a], version.assetChunkCounts[a];
      var run := Run(chunkAssetOffsets[..], version, a);
      OffsetsIncrease(run, Pieces(version, bytes, a));
      assert run == chunkAssetOffsets[start..start + n];
    }

    // ----- Collecting the ranges of a read -----

    /** The range map knows the ranges under their block hashes and has room. */
    static ghost predicate MapOk(rangeMap: LookupTable, ranges: seq<ChunkRange>)
      reads rangeMap, rangeMap.Repr
      ensures MapOk(rangeMap, ranges) ==> rangeMap.Shape() && rangeMap.count == |ranges|
    {
      && rangeMap.Valid() && rangeMap.count == |ranges|
      && forall h :: rangeMap.Find(h) == IndexOf(Hashes(ranges), h)
    }

    /** Adds chunk c to the ranges. */
    method AddToRanges(rangeMap: LookupTable, ranges: seq<ChunkRange>, a: nat, c: nat, pos: nat, ghost lo: nat)
      returns (ranges': seq<ChunkRange>)
      requires Valid() && a < |version.assetSizes| && c < version.assetChunkCounts[a]
      requires MapOk(rangeMap, ranges) && rangeMap.count < rangeMap.keys.Length
      requires rangeMap.Repr !! {this, chunkAssetOffsets} + chunkToBlock.Repr
      requires pos == Offset(Pieces(version, bytes, a), c)
      requires RangesCover(Pieces(version, bytes, a), AssetBlocks(a), ranges, lo, c)
      modifies rangeMap.Repr
      ensures MapOk(rangeMap, ranges') && rangeMap.count <= old(rangeMap.count) + 1
      ensures RangesCover(Pieces(version, bytes, a), AssetBlocks(a), ranges', lo, c + 1)
    {
      hide Linked, Offset, RangesCover, FirstMatch, BlockDescribes, VersionDescribes, OffsetsOf, IndexOf;
      assert HasChunk(version, a, c);
      var h := HashOf(version, a, c);
      LookupPresent(content.chunkHashes, content.chunkBlockIndexes, h);
      var blockIndex := chunkToBlock.Get(h);
      var blockHash := content.blockHashes[blockIndex.value];
      assert blockHash == AssetBlocks(a)[c];
      AddChunkCovers(Pieces(version, bytes, a), AssetBlocks(a), ranges, lo, c);
      var known := rangeMap.PutUnique(blockHash, |ranges|);
      ranges' := AddChunk(ranges, known, blockHash, pos, c);
      forall k
        ensures rangeMap.Find(k) == IndexOf(Hashes(ranges'), k)
      {
        IndexOfAppend(Hashes(ranges), blockHash, k);
      }
    }

    /** Replaces a full range map by a larger one, up to the number of chunks that are
        left to look at. */
    method GrowIfFull(rangeMap: LookupTable, estimate: nat, limit: nat, ghost ranges: seq<ChunkRange>)
      returns (newMap: LookupTable, estimate': nat)
      requires MapOk(rangeMap, ranges) && rangeMap.keys.Length == estimate <= limit < NONE
      ensures MapOk(newMap, ranges) && (newMap == rangeMap || (fresh(newMap) && fresh(newMap.Repr)))
      ensures newMap.keys.Length == estimate' <= limit
      ensures newMap.count < estimate' || newMap.count == limit
    {
      hide Linked, IndexOf;
      newMap, estimate' := rangeMap, estimate;
      if rangeMap.SpaceLeft() == 0 {
        var newCapacity := estimate + estimate / 4 + 2;
        estimate' := if newCapacity > limit then limit else newCapacity;
        newMap := LookupTable.Rehash(estimate', rangeMap);
      }
    }

    /** Adds chunk c to the ranges and leaves the seek position at it. */
    method Visit(f: OpenFile, rangeMap: LookupTable, ranges: seq<ChunkRange>, c: nat, pos: nat, ghost lo: nat)
      returns (ranges': seq<ChunkRange>, pos': nat)
      requires Valid() && OpenOk(f) && c < version.assetChunkCounts[f.assetIndex]
      requires MapOk(rangeMap, ranges) && rangeMap.count < rangeMap.keys.Length
      requires rangeMap.Repr !! {this, chunkAssetOffsets, f} + chunkToBlock.Repr
      requires pos == Offset(Pieces(version, bytes, f.assetIndex), c)
      requires RangesCover(Pieces(version, bytes, f.assetIndex), AssetBlocks(f.assetIndex), ranges, lo, c)
      modifies rangeMap.Repr, f
      ensures Valid() && OpenOk(f)
      ensures MapOk(rangeMap, ranges') && rangeMap.count <= old(rangeMap.count) + 1
      ensures pos' == Offset(Pieces(version, bytes, f.assetIndex), c + 1)
      ensures c + 1 == version.assetChunkCounts[f.assetIndex] ==> pos' == version.assetSizes[f.assetIndex]
      ensures RangesCover(Pieces(version, bytes, f.assetIndex), AssetBlocks(f.assetIndex), ranges', lo, c + 1)
    {
      hide Valid, ServesPart, Offset, RangesCover, MapOk;
      Unshared(f);
      ranges' := AddToRanges(rangeMap, ranges, f.assetIndex, c, pos, lo);
      f.seekChunkOffset, f.seekAssetPos := c, pos;
      NextOffset(f.assetIndex, c);
      pos' := pos + SizeOf(version, f.assetIndex, c);
    }

    lemma Unshared(f: OpenFile)
      requires Valid()
      ensures f !in chunkToBlock.Repr
    {
      hide ServesPart, Linked, Run, OffsetsOf;
    }

    /** Walks the chunks from the seek position to the end of the read and collects
        their ranges, block by block. */
    method CollectRanges(f: OpenFile, start: nat, readEnd: nat)
      returns (ranges: seq<ChunkRange>, ghost lo: nat, ghost hi: nat)
      requires Valid() && OpenOk(f) && version.assetChunkCounts[f.assetIndex] > 0
      requires start <= readEnd <= version.assetSizes[f.assetIndex]
      requires StartsAt(Pieces(version, bytes, f.assetIndex), f.seekChunkOffset, start)
      modifies f
      ensures OpenOk(f) && lo == old(f.seekChunkOffset) < hi <= version.assetChunkCounts[f.assetIndex]
      ensures RangesCover(Pieces(version, bytes, f.assetIndex), AssetBlocks(f.assetIndex), ranges, lo, hi)
      ensures Offset(Pieces(version, bytes, f.assetIndex), hi - 1) <= readEnd
      ensures readEnd <= Offset(Pieces(version, bytes, f.assetIndex), hi)
    {
      hide Valid, ServesPart, Offset, RangesCover, MapOk;
      Unshared(f);
      var a := f.assetIndex;
      ghost var pieces, blocks := Pieces(version, bytes, a), AssetBlocks(a);
      lo := f.seekChunkOffset;
      var first, pos, n := f.seekChunkOffset, f.seekAssetPos, version.assetChunkCounts[a];
      AtLeastOneBytePerChunk(a);
      var maxBlockCount := n - first;
      var estimate := EstimateBlocks(version.assetSizes[a], n, readEnd - start, maxBlockCount);
      var rangeMap := NewMap(estimate);
      ranges := [];
      StartCover(pieces, blocks, lo);
      var c := first;
      hi := lo;
      while true
        invariant Valid() && OpenOk(f) && lo <= c < n
        invariant fresh(rangeMap) && fresh(rangeMap.Repr) && MapOk(rangeMap, ranges)
        invariant rangeMap.keys.Length == estimate <= maxBlockCount
        invariant rangeMap.count <= c - lo && rangeMap.count < estimate
        invariant pos == Offset(pieces, c) <= readEnd && RangesCover(pieces, blocks, ranges, lo, c)
        decreases n - c
      {
        ranges, pos := Visit(f, rangeMap, ranges, c, pos, lo);
        hi := c + 1;
        if pos >= readEnd {
          break;
        }
        assert c + 1 < n;
        rangeMap, estimate := GrowIfFull(rangeMap, estimate, maxBlockCount, ranges);
        c := c + 1;
      }
    }

    /** Chunk sizes advance the offset, up to the asset size. */
    lemma NextOffset(a: nat, c: nat)
      requires Valid() && HasChunk(version, a, c)
      ensures Offset(Pieces(version, bytes, a), c + 1) == Offset(Pieces(version, bytes, a), c) + SizeOf(version, a, c)
      ensures c + 1 == version.assetChunkCounts[a] ==>
                Offset(Pieces(version, bytes, a), c + 1) == version.assetSizes[a]
    {
      hide Linked, OffsetsOf, BlockDescribes;
      OffsetNext(Pieces(version, bytes, a), c);
      OffsetEnds(Pieces(version, bytes, a));
    }

    /** The first guess at the number of blocks of a read. */
    static method EstimateBlocks(assetSize: nat, chunkCount: nat, size: nat, limit: nat) returns (estimate: nat)
      requires 0 < chunkCount <= assetSize && limit > 0
      ensures 0 < estimate <= limit
    {
      var avgChunkSize := assetSize / chunkCount;
      AverageAtLeastOne(assetSize, chunkCount);
      estimate := size / avgChunkSize + 2;
      if estimate > limit {
        estimate := limit;
      }
    }

    static lemma AverageAtLeastOne(x: nat, y: nat)
      requires 0 < y <= x
      ensures x / y >= 1
    {
    }

    /** No chunk is empty, so the average chunk size of a non-empty asset is not zero. */
    lemma AtLeastOneBytePerChunk(a: nat)
      requires Valid() && a < |version.assetSizes|
      ensures version.assetChunkCounts[a] <= version.assetSizes[a]
    {
      hide Linked, OffsetsOf, BlockDescribes, Flatten;
      FlattenAtLeast(Pieces(version, bytes, a));
    }

    static lemma {:induction false} FlattenAtLeast(pieces: seq<seq<byte>>)
      requires forall c :: 0 <= c < |pieces| ==> pieces[c] != []
      ensures |Flatten(pieces)| >= |pieces|
    {
      if pieces != [] {
        FlattenAtLeast(pieces[1..]);
      }
    }

    static lemma StartCover(pieces: seq<seq<byte>>, blocks: seq<nat>, lo: nat)
      requires lo <= |pieces| == |blocks|
      ensures RangesCover(pieces, blocks, [], lo, lo)
    {
    }

    static method NewMap(capacity: nat) returns (rangeMap: LookupTable)
      requires capacity < NONE
      ensures fresh(rangeMap) && fresh(rangeMap.Repr) && MapOk(rangeMap, [])
      ensures rangeMap.keys.Length == capacity
    {
      hide Linked;
      rangeMap := new LookupTable(capacity);
    }

    // ----- The block jobs -----

    static ghost predicate BlockTable(table: LookupTable, block: StoredBlock, bytes: nat -> seq<byte>)
      reads table, table.Repr
      ensures BlockTable(table, block, bytes) ==> table.Valid()
    {
      && table.Valid() && table.Keys() == block.chunkHashes && |table.Values()| == |block.chunkHashes|
      && forall i :: 0 <= i < |block.chunkHashes| ==> table.Values()[i] == Offset(BlockPieces(block, bytes), i)
    }

    /** Indexes the chunks of a block by hash, with their offsets in the block data. */
    static method IndexBlock(block: StoredBlock, ghost bytes: nat -> seq<byte>) returns (table: LookupTable)
      requires BlockDescribes(block, bytes)
      ensures BlockTable(table, block, bytes) && fresh(table) && fresh(table.Repr)
    {
      hide Linked, Offset;
      table := new LookupTable(|block.chunkHashes|);
      var offset := 0;
      OffsetEnds(BlockPieces(block, bytes));
      for c := 0 to |block.chunkHashes|
        invariant table.Valid() && fresh(table.Repr) && table.count == c
        invariant table.keys.Length == |block.chunkHashes|
        invariant table.Keys() == block.chunkHashes[..c]
        invariant offset == Offset(BlockPieces(block, bytes), c)
        invariant forall i :: 0 <= i < c ==> table.Values()[i] == Offset(BlockPieces(block, bytes), i)
      {
        table.Put(block.chunkHashes[c], offset);
        OffsetNext(BlockPieces(block, bytes), c);
        offset := offset + block.chunkSizes[c];
      }
    }

    /** Where a lookup says a chunk lies in the block data, there it lies. */
    static lemma ChunkInBlock(block: StoredBlock, bytes: nat -> seq<byte>, offsets: seq<nat>, h: nat)
      requires BlockDescribes(block, bytes) && |offsets| == |block.chunkHashes|
      requires forall i :: 0 <= i < |offsets| ==> offsets[i] == Offset(BlockPieces(block, bytes), i)
      ensures Lookup(block.chunkHashes, offsets, h).Some? <==> h in block.chunkHashes
      ensures h in block.chunkHashes ==>
                var at := Lookup(block.chunkHashes, offsets, h).value;
                at + |bytes(h)| <= |block.data| && block.data[at..at + |bytes(h)|] == bytes(h)
    {
      hide Flatten, Offset;
      FirstMatchNone(block.chunkHashes, h);
      if h in block.chunkHashes {
        PieceSlice(BlockPieces(block, bytes), FirstMatch(block.chunkHashes, h));
      }
    }

    /** The chunks from..to of the asset that the block holds are served. */
    ghost predicate RangeServed(a: nat, buffer: seq<byte>, start: nat, readEnd: nat, hashes: seq<nat>, from: nat,
                                to: nat)
      requires VersionOk(version) && a < |version.assetSizes| && to <= version.assetChunkCounts[a]
    {
      forall c :: from <= c < to && HashOf(version, a, c) in hashes ==>
        Served(Pieces(version, bytes, a), buffer, start, readEnd, c)
    }

    lemma RangeStaysServed(a: nat, before: seq<byte>, after: seq<byte>, start: nat, readEnd: nat, hashes: seq<nat>,
                           from: nat, to: nat)
      requires VersionOk(version) && a < |version.assetSizes| && to <= version.assetChunkCounts[a]
      requires RangeServed(a, before, start, readEnd, hashes, from, to)
      requires OnlyServes(AssetBytes(version, bytes, a), before, after, start, readEnd)
      ensures RangeServed(a, after, start, readEnd, hashes, from, to)
    {
      hide Served, OnlyServes, Flatten;
      forall c | from <= c < to && HashOf(version, a, c) in hashes
        ensures Served(Pieces(version, bytes, a), after, start, readEnd, c)
      {
        StaysServed(Pieces(version, bytes, a), before, after, start, readEnd, c);
      }
    }

    lemma RangeServedNothing(a: nat, buffer: seq<byte>, start: nat, readEnd: nat, hashes: seq<nat>, from: nat)
      requires VersionOk(version) && a < |version.assetSizes| && from <= version.assetChunkCounts[a]
      ensures RangeServed(a, buffer, start, readEnd, hashes, from, from)
    {
    }

    lemma RangeServedNext(a: nat, before: seq<byte>, after: seq<byte>, start: nat, readEnd: nat, hashes: seq<nat>,
                          from: nat, to: nat)
      requires VersionOk(version) && a < |version.assetSizes| && from <= to < version.assetChunkCounts[a]
      requires RangeServed(a, before, start, readEnd, hashes, from, to)
      requires OnlyServes(AssetBytes(version, bytes, a), before, after, start, readEnd)
      requires HashOf(version, a, to) in hashes ==> Served(Pieces(version, bytes, a), after, start, readEnd, to)
      ensures RangeServed(a, after, start, readEnd, hashes, from, to + 1)
    {
      hide Served, OnlyServes, Flatten;
      RangeStaysServed(a, before, after, start, readEnd, hashes, from, to);
    }

    /** Copies the chunks of a range that the block holds into the buffer; the chunks
        of other blocks are skipped. */
    method ReadFromBlock(block: StoredBlock, r: ChunkRange, ghost lo: nat, ghost hi: nat, a: nat, start: nat,
                         readEnd: nat, buffer: array<byte>)
      requires Valid() && BlockDescribes(block, bytes) && a < |version.assetSizes|
      requires RangeOk(Pieces(version, bytes, a), AssetBlocks(a), r, lo, hi)
      requires StartsAt(Pieces(version, bytes, a), lo, start)
      requires start <= readEnd <= version.assetSizes[a] && readEnd - start <= buffer.Length
      requires Offset(Pieces(version, bytes, a), hi - 1) <= readEnd
      requires buffer !in chunkToBlock.Repr
      modifies buffer
      ensures Valid()
      ensures OnlyServes(AssetBytes(version, bytes, a), old(buffer[..]), buffer[..], start, readEnd)
      ensures RangeServed(a, buffer[..], start, readEnd, block.chunkHashes, r.chunkStart, r.chunkEnd)
      ensures OthersKept(a, old(buffer[..]), buffer[..], start, readEnd, block.chunkHashes)
    {
      hide Valid, ServesPart, Linked, Offset, BlockDescribes, Flatten, OnlyServes, Served, BlockTable, VersionShape,
           RangeServed, OthersKept, OnlyChunk;
      ghost var pieces := Pieces(version, bytes, a);
      var table := IndexBlock(block, bytes);
      var offset := r.assetStartOffset;
      ghost var before := buffer[..];
      OnlyServesNothing(a, before, start, readEnd);
      RangeServedNothing(a, before, start, readEnd, block.chunkHashes, r.chunkStart);
      NothingWritten(a, before, start, readEnd, block.chunkHashes);
      for c := r.chunkStart to r.chunkEnd
        invariant Valid() && BlockTable(table, block, bytes)
        invariant c < r.chunkEnd ==> offset == Offset(pieces, c)
        invariant OnlyServes(AssetBytes(version, bytes, a), before, buffer[..], start, readEnd)
        invariant RangeServed(a, buffer[..], start, readEnd, block.chunkHashes, r.chunkStart, c)
        invariant OthersKept(a, before, buffer[..], start, readEnd, block.chunkHashes)
      {
        ghost var current := buffer[..];
        offset := ReadChunk(block, table, a, c, offset, start, readEnd, buffer, lo, hi);
        OnlyServesTwice(AssetBytes(version, bytes, a), before, current, buffer[..], start, readEnd);
        RangeServedNext(a, current, buffer[..], start, readEnd, block.chunkHashes, r.chunkStart, c);
        OthersStayKept(a, before, current, buffer[..], start, readEnd, block.chunkHashes, c);
      }
    }

    /** The chunks that the block does not hold are as before. */
    ghost predicate OthersKept(a: nat, before: seq<byte>, after: seq<byte>, start: nat, readEnd: nat, hashes: seq<nat>)
      requires VersionOk(version) && a < |version.assetSizes|
    {
      forall c :: 0 <= c < version.assetChunkCounts[a] && HashOf(version, a, c) !in hashes ==>
        Kept(Pieces(version, bytes, a), before, after, start, readEnd, c)
    }

    lemma NothingWritten(a: nat, buffer: seq<byte>, start: nat, readEnd: nat, hashes: seq<nat>)
      requires VersionOk(version) && a < |version.assetSizes|
      ensures OthersKept(a, buffer, buffer, start, readEnd, hashes)
    {
      hide Flatten, Offset;
    }

    lemma OthersStayKept(a: nat, before: seq<byte>, now: seq<byte>, after: seq<byte>, start: nat, readEnd: nat,
                         hashes: seq<nat>, c: nat)
      requires VersionOk(version) && a < |version.assetSizes| && c < version.assetChunkCounts[a]
      requires OthersKept(a, before, now, start, readEnd, hashes)
      requires if HashOf(version, a, c) in hashes then OnlyChunk(Pieces(version, bytes, a), now, after, start, c)
               else after == now
      ensures OthersKept(a, before, after, start, readEnd, hashes)
    {
      hide Kept, OnlyChunk;
      forall d | 0 <= d < version.assetChunkCounts[a] && HashOf(version, a, d) !in hashes
        ensures Kept(Pieces(version, bytes, a), before, after, start, readEnd, d)
      {
        if HashOf(version, a, c) in hashes {
          OtherKept(Pieces(version, bytes, a), before, now, after, start, readEnd, c, d);
        }
      }
    }

    lemma OnlyServesNothing(a: nat, buffer: seq<byte>, start: nat, readEnd: nat)
      requires Valid() && a < |version.assetSizes| && start <= readEnd <= version.assetSizes[a]
      ensures OnlyServes(AssetBytes(version, bytes, a), buffer, buffer, start, readEnd)
      ensures version.assetSizes[a] == |AssetBytes(version, bytes, a)|
    {
      hide Linked, OffsetsOf, Run, BlockDescribes;
    }

    /** The requested chunks lie around the read: each ends after its start and, but
        for the end of the last, starts and ends before its end. */
    lemma ChunkMeetsRead(a: nat, lo: nat, c: nat, hi: nat, start: nat, readEnd: nat)
      requires Valid() && a < |version.assetSizes| && StartsAt(Pieces(version, bytes, a), lo, start)
      requires lo <= c < hi <= version.assetChunkCounts[a] && start <= version.assetSizes[a]
      requires Offset(Pieces(version, bytes, a), hi - 1) <= readEnd
      ensures var pieces := Pieces(version, bytes, a);
              && Offset(pieces, c + 1) == Offset(pieces, c) + SizeOf(version, a, c)
              && start <= Offset(pieces, c + 1) && Offset(pieces, c) <= readEnd
              && (c + 1 < hi ==> Offset(pieces, c + 1) <= readEnd)
              && SizeOf(version, a, c) == |pieces[c]|
    {
      hide Linked, OffsetsOf, Run, BlockDescribes, Offset, Flatten;
      var pieces := Pieces(version, bytes, a);
      assert HasChunk(version, a, c);
      NextOffset(a, c);
      NextOffset(a, lo);
      OffsetMonotone(pieces, lo + 1, c + 1);
      OffsetMonotone(pieces, c, hi - 1);
      OffsetNext(pieces, c);
      if c + 1 < hi {
        OffsetMonotone(pieces, c + 1, hi - 1);
      }
    }

    /** One iteration of a block job: copies chunk c, or skips it. */
    method ReadChunk(block: StoredBlock, table: LookupTable, a: nat, c: nat, offset: nat, start: nat, readEnd: nat,
                     buffer: array<byte>, ghost lo: nat, ghost hi: nat) returns (offset': nat)
      requires Valid() && BlockDescribes(block, bytes) && a < |version.assetSizes|
      requires BlockTable(table, block, bytes) && buffer !in table.Repr
      requires lo <= c < hi <= version.assetChunkCounts[a] && StartsAt(Pieces(version, bytes, a), lo, start)
      requires start <= readEnd <= version.assetSizes[a] && readEnd - start <= buffer.Length
      requires Offset(Pieces(version, bytes, a), hi - 1) <= readEnd && offset == Offset(Pieces(version, bytes, a), c)
      requires buffer !in chunkToBlock.Repr
      modifies buffer
      ensures Valid() && BlockTable(table, block, bytes)
      ensures c + 1 < hi ==> offset' == Offset(Pieces(version, bytes, a), c + 1)
      ensures OnlyServes(AssetBytes(version, bytes, a), old(buffer[..]), buffer[..], start, readEnd)
      ensures if HashOf(version, a, c) in block.chunkHashes
              then Served(Pieces(version, bytes, a), buffer[..], start, readEnd, c)
                   && OnlyChunk(Pieces(version, bytes, a), old(buffer[..]), buffer[..], start, c)
              else buffer[..] == old(buffer[..])
    {
      hide Valid, ServesPart, Linked, Offset, BlockDescribes, Flatten, OnlyServes, Served, OnlyChunk;
      ghost var pieces := Pieces(version, bytes, a);
      var h, size := HashOf(version, a, c), SizeOf(version, a, c);
      ChunkMeetsRead(a, lo, c, hi, start, readEnd);
      OnlyServesNothing(a, buffer[..], start, readEnd);
      ChunkInBlock(block, bytes, table.Values(), h);
      var blockOffset := table.Get(h);
      if blockOffset == None {
        offset' := offset + size;
      } else {
        offset' := CopyChunk(pieces, c, block.data, blockOffset.value, size, offset, start, readEnd, buffer);
      }
    }

    /** If the store has it, the block of a chunk holds the chunk. */
    lemma BlocksInStore(a: nat, c: nat)
      requires Valid() && HasChunk(version, a, c)
      ensures AssetBlocks(a)[c] in store ==>
                && BlockDescribes(store[AssetBlocks(a)[c]], bytes)
                && HashOf(version, a, c) in store[AssetBlocks(a)[c]].chunkHashes
    {
      hide Linked, OffsetsOf, Run, BlockDescribes;
      FirstMatchNone(content.chunkHashes, HashOf(version, a, c));
    }

    /** Once all jobs have run, every chunk of the read whose block was fetched is served: by
        the job of that block at the latest. */
    lemma EveryChunkServed(a: nat, ranges: seq<ChunkRange>, lo: nat, hi: nat, buffer: seq<byte>, start: nat,
                           readEnd: nat, c: nat)
      requires Valid() && a < |version.assetSizes| && lo <= c < hi
      requires RangesCover(Pieces(version, bytes, a), AssetBlocks(a), ranges, lo, hi) && AssetBlocks(a)[c] in store
      requires forall k :: 0 <= k < |ranges| && ranges[k].blockHash in store ==>
                 ranges[k].chunkEnd <= version.assetChunkCounts[a] &&
                 RangeServed(a, buffer, start, readEnd, store[ranges[k].blockHash].chunkHashes, ranges[k].chunkStart,
                             ranges[k].chunkEnd)
      ensures Served(Pieces(version, bytes, a), buffer, start, readEnd, c)
    {
      hide Valid, ServesPart, Served;
      assert InSomeRange(ranges, AssetBlocks(a)[c], c);
      var k :| 0 <= k < |ranges| && ranges[k].blockHash == AssetBlocks(a)[c]
          && ranges[k].chunkStart <= c < ranges[k].chunkEnd;
      assert HasChunk(version, a, c);
      BlocksInStore(a, c);
    }

    /** The range is that of a job of this read. */
    lemma RangeOfJob(a: nat, ranges: seq<ChunkRange>, lo: nat, hi: nat, k: nat)
      requires Valid() && a < |version.assetSizes| && k < |ranges|
      requires RangesCover(Pieces(version, bytes, a), AssetBlocks(a), ranges, lo, hi)
      ensures RangeOk(Pieces(version, bytes, a), AssetBlocks(a), ranges[k], lo, hi)
      ensures ranges[k].chunkEnd <= version.assetChunkCounts[a]
      ensures ranges[k].blockHash in store ==> BlockDescribes(store[ranges[k].blockHash], bytes)
    {
      hide Valid, ServesPart, BlockDescribes;
      assert HasChunk(version, a, ranges[k].chunkStart);
      BlocksInStore(a, ranges[k].chunkStart);
    }

    /** No block of the store has the chunk. */
    ghost predicate InNoBlock(h: nat) {
      forall b :: b in store ==> h !in store[b].chunkHashes
    }

    /** Chunks that no block has are as before. */
    ghost predicate LostKept(a: nat, before: seq<byte>, after: seq<byte>, start: nat, readEnd: nat)
      requires VersionOk(version) && a < |version.assetSizes|
    {
      forall c :: 0 <= c < version.assetChunkCounts[a] && InNoBlock(HashOf(version, a, c)) ==>
        Kept(Pieces(version, bytes, a), before, after, start, readEnd, c)
    }

    lemma LostStayKept(a: nat, before: seq<byte>, now: seq<byte>, after: seq<byte>, start: nat, readEnd: nat, b: nat)
      requires VersionOk(version) && a < |version.assetSizes| && b in store
      requires LostKept(a, before, now, start, readEnd)
      requires OthersKept(a, now, after, start, readEnd, store[b].chunkHashes)
      ensures LostKept(a, before, after, start, readEnd)
    {
      hide Kept;
      forall c | 0 <= c < version.assetChunkCounts[a] && InNoBlock(HashOf(version, a, c))
        ensures Kept(Pieces(version, bytes, a), before, after, start, readEnd, c)
      {
        KeptTwice(Pieces(version, bytes, a), before, now, after, start, readEnd, c);
      }
    }

    lemma NothingLostYet(a: nat, buffer: seq<byte>, start: nat, readEnd: nat)
      requires VersionOk(version) && a < |version.assetSizes|
      ensures LostKept(a, buffer, buffer, start, readEnd)
    {
      hide Flatten, Offset, InNoBlock;
    }

    /** What the jobs so far have done: those whose block was fetched have served their ranges. */
    ghost predicate JobsDone(a: nat, ranges: seq<ChunkRange>, pending: set<nat>, before: seq<byte>, buffer: seq<byte>,
                             start: nat, readEnd: nat)
      requires VersionOk(version) && a < |version.assetSizes|
    {
      && OnlyServes(AssetBytes(version, bytes, a), before, buffer, start, readEnd)
      && LostKept(a, before, buffer, start, readEnd)
      && forall k :: 0 <= k < |ranges| && k !in pending && ranges[k].blockHash in store ==>
           ranges[k].chunkEnd <= version.assetChunkCounts[a] &&
           RangeServed(a, buffer, start, readEnd, store[ranges[k].blockHash].chunkHashes, ranges[k].chunkStart,
                       ranges[k].chunkEnd)
    }

    lemma JobDone(a: nat, ranges: seq<ChunkRange>, pending: set<nat>, job: nat, before: seq<byte>, now: seq<byte>,
                  after: seq<byte>, start: nat, readEnd: nat)
      requires VersionOk(version) && a < |version.assetSizes| && job < |ranges|
      requires JobsDone(a, ranges, pending, before, now, start, readEnd)
      requires ranges[job].blockHash in store && ranges[job].chunkEnd <= version.assetChunkCounts[a]
      requires OnlyServes(AssetBytes(version, bytes, a), now, after, start, readEnd)
      requires OthersKept(a, now, after, start, readEnd, store[ranges[job].blockHash].chunkHashes)
      requires RangeServed(a, after, start, readEnd, store[ranges[job].blockHash].chunkHashes, ranges[job].chunkStart,
                           ranges[job].chunkEnd)
      ensures JobsDone(a, ranges, pending - {job}, before, after, start, readEnd)
    {
      hide OnlyServes, RangeServed, LostKept, OthersKept, AssetBytes;
      OnlyServesTwice(AssetBytes(version, bytes, a), before, now, after, start, readEnd);
      LostStayKept(a, before, now, after, start, readEnd, ranges[job].blockHash);
      forall k | 0 <= k < |ranges| && k !in pending && ranges[k].blockHash in store
        ensures RangeServed(a, after, start, readEnd, store[ranges[k].blockHash].chunkHashes, ranges[k].chunkStart,
                            ranges[k].chunkEnd)
      {
        RangeStaysServed(a, now, after, start, readEnd, store[ranges[k].blockHash].chunkHashes, ranges[k].chunkStart,
                         ranges[k].chunkEnd);
      }
    }

    /** Runs the block jobs in any order: the next job is any that has not run. A job whose block
        cannot be fetched does nothing, and its error is not looked at. */
    method RunJobs(ranges: seq<ChunkRange>, ghost lo: nat, ghost hi: nat, a: nat, start: nat, readEnd: nat,
                   buffer: array<byte>)
      requires Valid() && a < |version.assetSizes| && lo < hi
      requires RangesCover(Pieces(version, bytes, a), AssetBlocks(a), ranges, lo, hi)
      requires StartsAt(Pieces(version, bytes, a), lo, start)
      requires start <= readEnd <= version.assetSizes[a] && readEnd - start <= buffer.Length
      requires Offset(Pieces(version, bytes, a), hi - 1) <= readEnd
      requires buffer !in chunkToBlock.Repr
      modifies buffer
      ensures Valid()
      ensures OnlyServes(AssetBytes(version, bytes, a), old(buffer[..]), buffer[..], start, readEnd)
      ensures LostKept(a, old(buffer[..]), buffer[..], start, readEnd)
      ensures forall c :: lo <= c < hi && AssetBlocks(a)[c] in store ==>
                Served(Pieces(version, bytes, a), buffer[..], start, readEnd, c)
    {
      hide Valid, ServesPart, BlockDescribes, OnlyServes, Served, RangeServed, RangesCover, StartsAt, Offset, Flatten,
           RangeOk, LostKept, OthersKept, JobsDone;
      ghost var before := buffer[..];
      JobsBegin(a, ranges, before, start, readEnd);
      forall k | 0 <= k < |ranges|
        ensures RangeOk(Pieces(version, bytes, a), AssetBlocks(a), ranges[k], lo, hi)
        ensures ranges[k].chunkEnd <= version.assetChunkCounts[a]
        ensures ranges[k].blockHash in store ==> BlockDescribes(store[ranges[k].blockHash], bytes)
      {
        RangeOfJob(a, ranges, lo, hi, k);
      }
      var pending := UpTo(|ranges|);
      while pending != {}
        invariant Valid() && forall k :: k in pending ==> 0 <= k < |ranges|
        invariant JobsDone(a, ranges, pending, before, buffer[..], start, readEnd)
        decreases |pending|
      {
        var job :| job in pending;
        if ranges[job].blockHash in store {
          ghost var current := buffer[..];
          ReadFromBlock(store[ranges[job].blockHash], ranges[job], lo, hi, a, start, readEnd, buffer);
          JobDone(a, ranges, pending, job, before, current, buffer[..], start, readEnd);
        } else {
          JobFailed(a, ranges, pending, job, before, buffer[..], start, readEnd);
        }
        pending := pending - {job};
      }
      JobsEnd(a, ranges, lo, hi, before, buffer[..], start, readEnd);
    }

    lemma JobsBegin(a: nat, ranges: seq<ChunkRange>, buffer: seq<byte>, start: nat, readEnd: nat)
      requires Valid() && a < |version.assetSizes| && start <= readEnd <= version.assetSizes[a]
      requires readEnd - start <= |buffer|
      ensures JobsDone(a, ranges, UpTo(|ranges|), buffer, buffer, start, readEnd)
    {
      hide Valid, ServesPart, OnlyServes, RangeServed, LostKept, AssetBytes;
      OnlyServesNothing(a, buffer, start, readEnd);
      NothingLostYet(a, buffer, start, readEnd);
    }

    lemma JobFailed(a: nat, ranges: seq<ChunkRange>, pending: set<nat>, job: nat, before: seq<byte>, buffer: seq<byte>,
                    start: nat, readEnd: nat)
      requires VersionOk(version) && a < |version.assetSizes| && job < |ranges| && ranges[job].blockHash !in store
      requires JobsDone(a, ranges, pending, before, buffer, start, readEnd)
      ensures JobsDone(a, ranges, pending - {job}, before, buffer, start, readEnd)
    {
      hide OnlyServes, RangeServed, LostKept, AssetBytes;
    }

    lemma JobsEnd(a: nat, ranges: seq<ChunkRange>, lo: nat, hi: nat, before: seq<byte>, buffer: seq<byte>, start: nat,
                  readEnd: nat)
      requires Valid() && a < |version.assetSizes|
      requires RangesCover(Pieces(version, bytes, a), AssetBlocks(a), ranges, lo, hi)
      requires JobsDone(a, ranges, {}, before, buffer, start, readEnd)
      ensures OnlyServes(AssetBytes(version, bytes, a), before, buffer, start, readEnd)
      ensures LostKept(a, before, buffer, start, readEnd)
      ensures forall c :: lo <= c < hi && AssetBlocks(a)[c] in store ==>
                Served(Pieces(version, bytes, a), buffer, start, readEnd, c)
    {
      hide Valid, ServesPart, OnlyServes, RangeServed, LostKept, Served, RangesCover;
      CoveredChunks(a, ranges, lo, hi);
      forall c | lo <= c < hi && AssetBlocks(a)[c] in store
        ensures Served(Pieces(version, bytes, a), buffer, start, readEnd, c)
      {
        EveryChunkServed(a, ranges, lo, hi, buffer, start, readEnd, c);
      }
    }

    lemma CoveredChunks(a: nat, ranges: seq<ChunkRange>, lo: nat, hi: nat)
      requires Valid() && a < |version.assetSizes|
      requires RangesCover(Pieces(version, bytes, a), AssetBlocks(a), ranges, lo, hi)
      ensures lo <= hi <= version.assetChunkCounts[a] == |AssetBlocks(a)|
    {
      hide Valid, ServesPart;
    }

    /** The blocks of all chunks that a read touches are in the store. */
    ghost predicate Fetched(a: nat, start: nat, readEnd: nat)
      requires ServesPart(version, content, store, bytes) && a < |version.assetSizes|
    {
      var pieces := Pieces(version, bytes, a);
      forall c :: 0 <= c < |pieces| && Offset(pieces, c) < readEnd && start < Offset(pieces, c + 1) ==>
        AssetBlocks(a)[c] in store
    }

    /** Chunks outside of the read have no bytes to serve. */
    lemma OutsideServed(a: nat, buffer: seq<byte>, start: nat, readEnd: nat, lo: nat, hi: nat, c: nat)
      requires Valid() && a < |version.assetSizes| && start <= readEnd <= version.assetSizes[a]
      requires readEnd - start <= |buffer| && StartsAt(Pieces(version, bytes, a), lo, start)
      requires lo < hi <= version.assetChunkCounts[a] && readEnd <= Offset(Pieces(version, bytes, a), hi)
      requires c < version.assetChunkCounts[a] && !(lo <= c < hi)
      ensures Served(Pieces(version, bytes, a), buffer, start, readEnd, c)
    {
      hide Valid, ServesPart, Flatten, Offset;
      OnlyServesNothing(a, buffer, start, readEnd);
      var pieces := Pieces(version, bytes, a);
      if c < lo {
        OffsetMonotone(pieces, c + 1, lo);
      } else {
        OffsetMonotone(pieces, hi, c);
      }
    }

    /** A chunk that is not touched is served by nothing. */
    lemma UntouchedServed(a: nat, buffer: seq<byte>, start: nat, readEnd: nat, c: nat)
      requires Valid() && a < |version.assetSizes| && start <= readEnd <= version.assetSizes[a]
      requires readEnd - start <= |buffer| && c < version.assetChunkCounts[a]
      requires var pieces := Pieces(version, bytes, a);
               !(Offset(pieces, c) < readEnd && start < Offset(pieces, c + 1))
      ensures Served(Pieces(version, bytes, a), buffer, start, readEnd, c)
    {
      hide Valid, ServesPart, Flatten, Offset;
      OnlyServesNothing(a, buffer, start, readEnd);
    }

    /** With all blocks of the read fetched, the buffer has the slice. */
    lemma FetchedIsSlice(a: nat, buffer: seq<byte>, start: nat, readEnd: nat)
      requires Valid() && a < |version.assetSizes| && start <= readEnd <= version.assetSizes[a]
      requires readEnd - start <= |buffer| && version.assetChunkCounts[a] > 0
      requires forall c :: 0 <= c < version.assetChunkCounts[a] && AssetBlocks(a)[c] in store ==>
                 Served(Pieces(version, bytes, a), buffer, start, readEnd, c)
      ensures Fetched(a, start, readEnd) ==>
                readEnd <= |AssetBytes(version, bytes, a)| &&
                buffer[..readEnd - start] == AssetBytes(version, bytes, a)[start..readEnd]
    {
      hide Valid, ServesPart, Flatten, Offset, Served;
      var pieces := Pieces(version, bytes, a);
      OnlyServesNothing(a, buffer, start, readEnd);
      OffsetEnds(pieces);
      if Fetched(a, start, readEnd) {
        forall c | 0 <= c < |pieces|
          ensures Served(pieces, buffer, start, readEnd, c)
        {
          if AssetBlocks(a)[c] !in store {
            UntouchedServed(a, buffer, start, readEnd, c);
          }
        }
        AllServed(pieces, buffer, start, readEnd, 0, |pieces|);
      }
    }

    /** A store with all blocks fetches them all. */
    lemma AllFetched(a: nat, start: nat, readEnd: nat)
      requires Valid() && Serves(version, content, store, bytes) && a < |version.assetSizes|
      ensures Fetched(a, start, readEnd)
    {
      hide Linked, OffsetsOf, Run, BlockDescribes, VersionDescribes, Offset;
      forall c | 0 <= c < version.assetChunkCounts[a]
        ensures AssetBlocks(a)[c] in store
      {
        FirstMatchNone(content.chunkHashes, HashOf(version, a, c));
      }
    }

    /** What a read that reports success leaves in the buffer, if a chunk whose block is missing is
        in no other block: the slice exactly if the missing bytes were there before. */
    lemma SliceIffThereBefore(a: nat, before: seq<byte>, after: seq<byte>, start: nat, readEnd: nat)
      requires Valid() && a < |version.assetSizes| && start <= readEnd <= version.assetSizes[a]
      requires readEnd - start <= |before| == |after| && version.assetChunkCounts[a] > 0
      requires LostKept(a, before, after, start, readEnd)
      requires forall c :: 0 <= c < version.assetChunkCounts[a] ==>
                 if AssetBlocks(a)[c] in store then Served(Pieces(version, bytes, a), after, start, readEnd, c)
                 else InNoBlock(HashOf(version, a, c))
      ensures readEnd <= |AssetBytes(version, bytes, a)|
      ensures after[..readEnd - start] == AssetBytes(version, bytes, a)[start..readEnd] <==>
              forall c :: 0 <= c < version.assetChunkCounts[a] && AssetBlocks(a)[c] !in store ==>
                Served(Pieces(version, bytes, a), before, start, readEnd, c)
    {
      hide Valid, ServesPart, Flatten, Offset, Served, InNoBlock, Kept;
      var pieces, whole := Pieces(version, bytes, a), AssetBytes(version, bytes, a);
      OnlyServesNothing(a, before, start, readEnd);
      OffsetEnds(pieces);
      forall c | 0 <= c < |pieces| && AssetBlocks(a)[c] !in store
        ensures Served(pieces, before, start, readEnd, c) <==> Served(pieces, after, start, readEnd, c)
      {
        KeptServed(pieces, before, after, start, readEnd, c);
      }
      if after[..readEnd - start] == whole[start..readEnd] {
        forall c | 0 <= c < |pieces|
          ensures Served(pieces, after, start, readEnd, c)
        {
          SliceServes(pieces, after, start, readEnd, c);
        }
      } else if forall c :: 0 <= c < |pieces| && AssetBlocks(a)[c] !in store ==>
          Served(pieces, before, start, readEnd, c) {
        AllServed(pieces, after, start, readEnd, 0, |pieces|);
      }
    }

    /** Reads `size` bytes of the asset from `start`. A read reports success also if blocks could
        not be fetched: chunks whose block was fetched are in the buffer, chunks that no block
        has are not, and their bytes stay as they were. The average chunk size of an asset
        without chunks divides by zero, also when zero bytes are read. */
    method ReadFile(f: OpenFile, start: nat, size: nat, buffer: array<byte>) returns (r: Outcome)
      requires Valid() && OpenOk(f) && buffer !in chunkToBlock.Repr && size <= buffer.Length
      modifies f, buffer
      ensures Valid() && OpenOk(f)
      ensures r == IoError <==> start + size > |AssetBytes(version, bytes, f.assetIndex)|
      ensures r == DividedByZero <==> version.assetChunkCounts[f.assetIndex] == 0 && start + size == 0
      ensures r == ReadOk && Fetched(f.assetIndex, start, start + size) ==>
                buffer[..size] == AssetBytes(version, bytes, f.assetIndex)[start..start + size]
      ensures r == ReadOk ==> forall c :: 0 <= c < version.assetChunkCounts[f.assetIndex]
                                          && AssetBlocks(f.assetIndex)[c] in store ==>
                Served(Pieces(version, bytes, f.assetIndex), buffer[..], start, start + size, c)
      ensures r == ReadOk ==> LostKept(f.assetIndex, old(buffer[..]), buffer[..], start, start + size)
      ensures r == ReadOk ==> OnlyServes(AssetBytes(version, bytes, f.assetIndex), old(buffer[..]), buffer[..], start,
                                         start + size)
      ensures r != ReadOk ==> buffer[..] == old(buffer[..])
      ensures r == IoError ==> unchanged(f)
    {
      hide Valid, ServesPart, RangesCover, Served, Flatten, Offset, LostKept, OnlyServes, Fetched, StartsAt;
      var a := f.assetIndex;
      ghost var pieces, before := Pieces(version, bytes, a), buffer[..];
      Unshared(f);
      AtLeastOneBytePerChunk(a);
      OnlyServesNothing(a, before, 0, 0);
      var readEnd := start + size;
      if readEnd > version.assetSizes[a] {
        return IoError;
      }
      EmptyAsset(a);
      r := SeekFile(f, start);
      if version.assetChunkCounts[a] == 0 {
        return DividedByZero;
      }
      var ranges, lo, hi := CollectRanges(f, start, readEnd);
      RunJobs(ranges, lo, hi, a, start, readEnd, buffer);
      forall c | 0 <= c < version.assetChunkCounts[a] && AssetBlocks(a)[c] in store
        ensures Served(pieces, buffer[..], start, readEnd, c)
      {
        if !(lo <= c < hi) {
          OutsideServed(a, buffer[..], start, readEnd, lo, hi, c);
        }
      }
      FetchedIsSlice(a, buffer[..], start, readEnd);
      assert buffer[..][..size] == buffer[..size];
    }

    lemma EmptyAsset(a: nat)
      requires Valid() && a < |version.assetSizes|
      ensures version.assetChunkCounts[a] == 0 ==> version.assetSizes[a] == 0
    {
      hide Linked, OffsetsOf, Run, BlockDescribes;
    }
  }
}

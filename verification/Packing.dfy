/** Packing chunks into blocks (src/longtail.c): unique chunks in first-occurrence
    order are gathered greedily, and the blocks are flattened into a content index. */
module Packing {
  import opened Prelude
  import opened LookupTables
  import opened Indexes

  // ----- First occurrences -----

  /** The positions at which a hash occurs for the first time. */
  function FirstOccurrences(hashes: seq<nat>): (r: seq<nat>)
    ensures |r| <= |hashes| && forall k :: 0 <= k < |r| ==> r[k] < |hashes|
  {
    if hashes == [] then []
    else
      var last := |hashes| - 1;
      var before := FirstOccurrences(hashes[..last]);
      if hashes[last] in hashes[..last] then before else before + [last]
  }

  /** First occurrences list every hash once. */
  lemma {:induction false} FirstOccurrencesUnique(hashes: seq<nat>)
    ensures Distinct(At(hashes, FirstOccurrences(hashes)))
    ensures Elems(At(hashes, FirstOccurrences(hashes))) == Elems(hashes)
  {
    if hashes != [] {
      var last := |hashes| - 1;
      var prefix := hashes[..last];
      FirstOccurrencesUnique(prefix);
      var before, now := At(prefix, FirstOccurrences(prefix)), At(hashes, FirstOccurrences(hashes));
      assert hashes == prefix + [hashes[last]];
      ElemsSnoc(prefix, hashes[last]);
      ElemsSnoc(before, hashes[last]);
      if hashes[last] in prefix {
        assert now == before;
        assert hashes[last] in Elems(prefix);
      } else {
        assert now == before + [hashes[last]];
        assert hashes[last] !in Elems(prefix);
      }
    } else {
      assert At(hashes, []) == [];
    }
  }

  lemma {:induction false} DistinctPositions(hashes: seq<nat>)
    requires Distinct(hashes)
    ensures |FirstOccurrences(hashes)| == |hashes| && forall k :: 0 <= k < |hashes| ==> FirstOccurrences(hashes)[k] == k
  {
    if hashes != [] {
      var last := |hashes| - 1;
      DistinctPositions(hashes[..last]);
      assert hashes[last] !in hashes[..last];
    }
  }

  /** Without repeats, every position is a first occurrence. */
  lemma FirstOccurrencesOfDistinct(hashes: seq<nat>)
    requires Distinct(hashes)
    ensures At(hashes, FirstOccurrences(hashes)) == hashes
  {
    DistinctPositions(hashes);
  }

  lemma NextOccurrence(hashes: seq<nat>, i: nat)
    requires i < |hashes|
    ensures FirstOccurrences(hashes[..i + 1]) == FirstOccurrences(hashes[..i]) + if hashes[i] in hashes[..i] then []
              else [i]
    ensures forall h :: h in hashes[..i + 1] <==> h in hashes[..i] || h == hashes[i]
  {
    assert hashes[..i + 1] == hashes[..i] + [hashes[i]];
    assert hashes[..i + 1][..i] == hashes[..i];
  }

  method GetUniqueHashes(hashes: seq<nat>, unique: array<nat>) returns (count: nat)
    requires unique.Length >= |hashes| && |hashes| < NONE
    modifies unique
    ensures count <= |hashes| && unique[..count] == FirstOccurrences(hashes)
  {
    hide Linked, Lookup, FirstOccurrences;
    var table := new LookupTable(|hashes|);
    count := 0;
    assert hashes[..0] == [] == FirstOccurrences([]);
    for i := 0 to |hashes|
      invariant table.Valid() && fresh(table.Repr) && table.keys.Length == |hashes|
      invariant table.count <= i && forall h :: h in table.Keys() <==> h in hashes[..i]
      invariant count <= i && unique[..count] == FirstOccurrences(hashes[..i])
    {
      NextOccurrence(hashes, i);
      ghost var before := unique[..count];
      var existing := table.PutUnique(hashes[i], 1);
      if existing == None {
        unique[count] := i;
        count := count + 1;
        assert unique[..count] == before + [i];
      }
    }
    assert hashes[..|hashes|] == hashes;
  }

  // ----- Greedy packing -----

  datatype Chunk = Chunk(hash: nat, size: nat, tag: nat)

  datatype Limits = Limits(maxBlockSize: nat, maxChunksPerBlock: nat) {
    /** Overshooting the block size by a tenth is fine. */
    function MaxSize(): nat {
      maxBlockSize + maxBlockSize / 10
    }

    predicate Ok() {
      maxBlockSize > 0 && maxChunksPerBlock > 0
    }
  }

  function TotalSize(cs: seq<Chunk>): nat {
    if cs == [] then 0 else cs[0].size + TotalSize(cs[1..])
  }

  /** The next chunk does not fit into a block of the first n. */
  predicate Closes(cs: seq<Chunk>, n: nat, size: nat, lim: Limits)
    requires 0 < n < |cs|
  {
    cs[n].tag != cs[0].tag || n == lim.maxChunksPerBlock || size + cs[n].size > lim.MaxSize()
  }

  /** How many chunks the first block takes, once n chunks of this size are in. */
  function BlockLen(cs: seq<Chunk>, n: nat, size: nat, lim: Limits): (r: nat)
    requires 0 < n <= |cs|
    ensures n <= r <= |cs|
    decreases |cs| - n
  {
    if n == |cs| || Closes(cs, n, size, lim) then n
    else BlockLen(cs, n + 1, size + cs[n].size, lim)
  }

  function Pack(cs: seq<Chunk>, lim: Limits): (blocks: seq<seq<Chunk>>) {
    if cs == [] then []
    else
      var n := BlockLen(cs, 1, cs[0].size, lim);
      [cs[..n]] + Pack(cs[n..], lim)
  }

  // ----- Properties of the packing -----

  lemma {:induction false} TotalSizeConcat(a: seq<Chunk>, b: seq<Chunk>)
    ensures TotalSize(a + b) == TotalSize(a) + TotalSize(b)
  {
    if a == [] {
      assert a + b == b;
    } else {
      assert (a + b)[1..] == a[1..] + b;
      TotalSizeConcat(a[1..], b);
    }
  }

  lemma TotalSizeNext(cs: seq<Chunk>, n: nat)
    requires n < |cs|
    ensures TotalSize(cs[..n + 1]) == TotalSize(cs[..n]) + cs[n].size
  {
    assert cs[..n + 1] == cs[..n] + [cs[n]];
    TotalSizeConcat(cs[..n], [cs[n]]);
    assert [cs[n]][1..] == [];
  }

  ghost predicate BlockOk(block: seq<Chunk>, lim: Limits) {
    && 0 < |block| <= lim.maxChunksPerBlock
    && (forall k :: 0 <= k < |block| ==> block[k].tag == block[0].tag)
    && (|block| == 1 || 10 * TotalSize(block) <= 11 * lim.maxBlockSize)
  }

  lemma MaxSizeIff(size: nat, lim: Limits)
    ensures size <= lim.MaxSize() <==> 10 * size <= 11 * lim.maxBlockSize
  {
  }

  /** The first block keeps the limits, and stops only before a chunk that does not
      fit. */
  lemma {:induction false} BlockLenOk(cs: seq<Chunk>, n: nat, lim: Limits)
    requires lim.Ok() && 0 < n <= |cs| && BlockOk(cs[..n], lim)
    ensures var r := BlockLen(cs, n, TotalSize(cs[..n]), lim);
            BlockOk(cs[..r], lim) && (r < |cs| ==> Closes(cs, r, TotalSize(cs[..r]), lim))
    decreases |cs| - n
  {
    var size := TotalSize(cs[..n]);
    if n < |cs| && !Closes(cs, n, size, lim) {
      MaxSizeIff(size + cs[n].size, lim);
      TotalSizeNext(cs, n);
      assert cs[..n + 1] == cs[..n] + [cs[n]];
      BlockLenOk(cs, n + 1, lim);
    }
  }

  lemma FirstBlock(cs: seq<Chunk>, lim: Limits)
    requires lim.Ok() && cs != []
    ensures var r := BlockLen(cs, 1, cs[0].size, lim);
            BlockOk(cs[..r], lim) && (r < |cs| ==> Closes(cs, r, TotalSize(cs[..r]), lim))
  {
    TotalSizeNext(cs, 0);
    assert cs[..0] == [];
    BlockLenOk(cs, 1, lim);
  }

  /** The blocks partition the chunks in order, each within its limits. */
  lemma {:induction false} PackPartitions(cs: seq<Chunk>, lim: Limits)
    requires lim.Ok()
    ensures Flatten(Pack(cs, lim)) == cs
    ensures forall b :: 0 <= b < |Pack(cs, lim)| ==> BlockOk(Pack(cs, lim)[b], lim)
  {
    hide BlockOk, BlockLen;
    if cs != [] {
      var n := BlockLen(cs, 1, cs[0].size, lim);
      FirstBlock(cs, lim);
      PackPartitions(cs[n..], lim);
      assert Pack(cs, lim) == [cs[..n]] + Pack(cs[n..], lim);
      assert Pack(cs, lim)[1..] == Pack(cs[n..], lim);
      assert cs == cs[..n] + cs[n..];
    }
  }

  // ----- The packing is the greedy one -----

  /** The chunk fits behind those of a block: it has their tag, there is room for one more,
      and the block is at most a tenth over its size then. */
  ghost predicate FitsBehind(block: seq<Chunk>, c: Chunk, lim: Limits)
    requires block != []
  {
    && c.tag == block[0].tag && |block| < lim.maxChunksPerBlock
    && 10 * (TotalSize(block) + c.size) <= 11 * lim.maxBlockSize
  }

  /** Every chunk of a block fits behind those before it, and the first chunk of the next
      block does not. */
  ghost predicate IsGreedy(blocks: seq<seq<Chunk>>, lim: Limits) {
    && NoneEmpty(blocks)
    && (forall b :: 0 <= b < |blocks| ==> GrowsGreedily(blocks[b], lim))
    && (forall b, c :: 0 <= b && c == b + 1 < |blocks| ==> !FitsBehind(blocks[b], blocks[c][0], lim))
  }

  ghost predicate GrowsGreedily(block: seq<Chunk>, lim: Limits) {
    forall n :: 0 < n < |block| ==> FitsBehind(block[..n], block[n], lim)
  }

  lemma ClosesIff(cs: seq<Chunk>, n: nat, lim: Limits)
    requires 0 < n < |cs| && n <= lim.maxChunksPerBlock
    ensures Closes(cs, n, TotalSize(cs[..n]), lim) <==> !FitsBehind(cs[..n], cs[n], lim)
  {
    MaxSizeIff(TotalSize(cs[..n]) + cs[n].size, lim);
  }

  lemma {:induction false} NoneCloses(cs: seq<Chunk>, n: nat, lim: Limits)
    requires 0 < n <= |cs|
    ensures var r := BlockLen(cs, n, TotalSize(cs[..n]), lim);
            forall k :: n <= k < r ==> !Closes(cs, k, TotalSize(cs[..k]), lim)
    decreases |cs| - n
  {
    hide Closes, TotalSize;
    if n < |cs| && !Closes(cs, n, TotalSize(cs[..n]), lim) {
      TotalSizeNext(cs, n);
      NoneCloses(cs, n + 1, lim);
    }
  }

  lemma FirstBlockIff(cs: seq<Chunk>, n: nat, lim: Limits)
    requires lim.Ok() && 0 < n <= |cs|
    ensures n == BlockLen(cs, 1, cs[0].size, lim) <==>
            GrowsGreedily(cs[..n], lim) && (n < |cs| ==> !FitsBehind(cs[..n], cs[n], lim))
  {
    hide Closes, BlockLen, FitsBehind;
    var r := BlockLen(cs, 1, cs[0].size, lim);
    FirstBlock(cs, lim);
    TotalSizeNext(cs, 0);
    assert cs[..0] == [];
    NoneCloses(cs, 1, lim);
    forall k | 0 < k < |cs| && k <= r
      ensures FitsBehind(cs[..k], cs[k], lim) <==> k < r
    {
      ClosesIff(cs, k, lim);
    }
    assert forall k :: 0 < k < n ==> cs[..n][..k] == cs[..k] && cs[..n][k] == cs[k];
    assert n > r ==> cs[..n][..r] == cs[..r] && cs[..n][r] == cs[r];
  }

  lemma GreedyTail(blocks: seq<seq<Chunk>>, lim: Limits)
    requires blocks != []
    ensures IsGreedy(blocks, lim) <==>
            && blocks[0] != [] && GrowsGreedily(blocks[0], lim) && IsGreedy(blocks[1..], lim)
            && (|blocks| > 1 ==> !FitsBehind(blocks[0], blocks[1][0], lim))
  {
    hide FitsBehind, GrowsGreedily;
    var rest := blocks[1..];
    assert forall b :: 0 <= b < |rest| ==> rest[b] == blocks[b + 1];
    assert forall b :: 0 < b < |blocks| ==> blocks[b] == rest[b - 1];
    if IsGreedy(rest, lim) && blocks[0] != [] && (|blocks| > 1 ==> !FitsBehind(blocks[0], blocks[1][0], lim)) {
      forall b, c | 0 <= b && c == b + 1 < |blocks|
        ensures blocks[b] != [] && blocks[c] != [] && !FitsBehind(blocks[b], blocks[c][0], lim)
      {
        if b > 0 {
          assert !FitsBehind(rest[b - 1], rest[c - 1][0], lim);
        }
      }
    }
  }

  /** A list of blocks is the packing of the chunks exactly if it makes up the chunks, and
      every block takes the next chunk as long as it fits. */
  lemma {:induction false} PackIff(cs: seq<Chunk>, blocks: seq<seq<Chunk>>, lim: Limits)
    requires lim.Ok()
    ensures blocks == Pack(cs, lim) <==> Flatten(blocks) == cs && IsGreedy(blocks, lim)
    decreases |blocks|
  {
    hide BlockLen, FitsBehind, GrowsGreedily, IsGreedy;
    PackPartitions(cs, lim);
    if blocks == [] {
      NothingGreedy(lim);
    } else {
      GreedyTail(blocks, lim);
      if Flatten(blocks) == cs && blocks[0] != [] {
        var n := |blocks[0]|;
        assert cs[..n] == blocks[0] && cs[n..] == Flatten(blocks[1..]);
        FirstBlockIff(cs, n, lim);
        PackIff(cs[n..], blocks[1..], lim);
        NextHead(blocks);
        if n == BlockLen(cs, 1, cs[0].size, lim) {
          assert Pack(cs, lim) == [blocks[0]] + Pack(cs[n..], lim) && blocks == [blocks[0]] + blocks[1..];
        }
      }
    }
  }

  lemma NothingGreedy(lim: Limits)
    ensures IsGreedy([], lim) && Flatten<Chunk>([]) == []
  {
  }

  /** The first chunk behind the first block. */
  lemma NextHead(blocks: seq<seq<Chunk>>)
    requires blocks != []
    ensures |blocks| > 1 && blocks[1] != [] ==> Flatten(blocks[1..]) != [] && Flatten(blocks[1..])[0] == blocks[1][0]
    ensures |blocks| == 1 ==> Flatten(blocks[1..]) == []
  {
  }

  function TagChanges(cs: seq<Chunk>): nat {
    if |cs| <= 1 then 0
    else (if cs[0].tag != cs[1].tag then 1 else 0) + TagChanges(cs[1..])
  }

  lemma {:induction false} TagChangesSplit(cs: seq<Chunk>, n: nat)
    requires 0 < n < |cs|
    ensures TagChanges(cs) >= TagChanges(cs[n..]) + if cs[n - 1].tag != cs[n].tag then 1 else 0
  {
    if n > 1 {
      TagChangesSplit(cs[1..], n - 1);
      assert cs[1..][n - 1..] == cs[n..];
    }
  }

  /** Why the blocks before the last were closed: a tag change, a full block, or the
      size of the next chunk. */
  ghost function Closings(cs: seq<Chunk>, lim: Limits): (nat, nat, nat) {
    if cs == [] then (0, 0, 0)
    else
      var n := BlockLen(cs, 1, cs[0].size, lim);
      var (t, f, s) := Closings(cs[n..], lim);
      if n == |cs| then (t, f, s)
      else if cs[n].tag != cs[0].tag then (t + 1, f, s)
      else if n == lim.maxChunksPerBlock then (t, f + 1, s)
      else (t, f, s + 1)
  }

  lemma {:induction false} ClosingsBound(cs: seq<Chunk>, lim: Limits)
    requires lim.Ok() && cs != []
    ensures var (t, f, s) := Closings(cs, lim);
            && |Pack(cs, lim)| == 1 + t + f + s
            && t <= TagChanges(cs)
            && f * lim.maxChunksPerBlock <= |cs|
            && s * lim.MaxSize() <= 2 * TotalSize(cs) - cs[0].size
  {
    hide BlockLen, TotalSize, TagChanges, Limits.MaxSize;
    var n := BlockLen(cs, 1, cs[0].size, lim);
    var rest := cs[n..];
    if n < |cs| {
      FirstClosing(cs, lim);
      ClosingsBound(rest, lim);
      var (t, f, s) := Closings(rest, lim);
      OneMore(f, lim.maxChunksPerBlock);
      OneMore(s, lim.MaxSize());
      assert |Pack(cs, lim)| == 1 + |Pack(rest, lim)|;
    } else {
      assert rest == [];
      FirstSize(cs);
    }
  }

  lemma OneMore(k: nat, d: nat)
    ensures (k + 1) * d == k * d + d
  {
  }

  /** What the first block leaves to the others. */
  lemma FirstClosing(cs: seq<Chunk>, lim: Limits)
    requires lim.Ok() && cs != [] && BlockLen(cs, 1, cs[0].size, lim) < |cs|
    ensures var n := BlockLen(cs, 1, cs[0].size, lim);
            && TagChanges(cs) >= TagChanges(cs[n..]) + (if cs[n].tag != cs[0].tag then 1 else 0)
            && TotalSize(cs) == TotalSize(cs[..n]) + TotalSize(cs[n..])
            && cs[0].size <= TotalSize(cs[..n]) && cs[n].size <= TotalSize(cs[n..])
            && (cs[n].tag == cs[0].tag && n != lim.maxChunksPerBlock ==>
                TotalSize(cs[..n]) + cs[n].size > lim.MaxSize())
  {
    hide BlockLen, TotalSize, TagChanges, Limits.MaxSize;
    var n := BlockLen(cs, 1, cs[0].size, lim);
    var first, rest := cs[..n], cs[n..];
    FirstBlock(cs, lim);
    assert cs == first + rest;
    TotalSizeConcat(first, rest);
    FirstSize(first);
    FirstSize(rest);
    TagChangesSplit(cs, n);
    assert first[n - 1].tag == first[0].tag;
  }

  lemma FirstSize(cs: seq<Chunk>)
    ensures cs == [] ==> TotalSize(cs) == 0
    ensures cs != [] ==> cs[0].size <= TotalSize(cs)
  {
  }

  /** No packing wastes more than this many blocks. */
  lemma BlockCountBound(cs: seq<Chunk>, lim: Limits)
    requires lim.Ok()
    ensures |Pack(cs, lim)| <= 1 + TagChanges(cs) + |cs| / lim.maxChunksPerBlock + 2 * TotalSize(cs) / lim.MaxSize()
  {
    if cs != [] {
      ClosingsBound(cs, lim);
      var (t, f, s) := Closings(cs, lim);
      QuotientAtLeast(f, |cs|, lim.maxChunksPerBlock);
      QuotientAtLeast(s, 2 * TotalSize(cs), lim.MaxSize());
    }
  }

  lemma QuotientAtLeast(k: nat, x: nat, d: nat)
    requires d > 0 && k * d <= x
    ensures k <= x / d
  {
    if k >= x / d + 1 {
      MulMonotone(x / d + 1, k, d);
      assert false;
    }
  }

  // ----- Building the blocks -----

  datatype BlockIndex = BlockIndex(blockHash: nat, hashIdentifier: nat, tag: nat, chunkHashes: seq<nat>,
                                   chunkSizes: seq<nat>)

  function ChunkHashes(cs: seq<Chunk>): (r: seq<nat>)
    ensures |r| == |cs| && forall k :: 0 <= k < |r| ==> r[k] == cs[k].hash
  {
    seq(|cs|, k requires 0 <= k < |cs| => cs[k].hash)
  }

  function ChunkSizes(cs: seq<Chunk>): (r: seq<nat>)
    ensures |r| == |cs| && forall k :: 0 <= k < |r| ==> r[k] == cs[k].size
  {
    seq(|cs|, k requires 0 <= k < |cs| => cs[k].size)
  }

  /** The index of a block: its hash is the hash of its chunk hashes. */
  function MakeBlock(block: seq<Chunk>, hashIdentifier: nat, hashOf: seq<nat> -> nat): BlockIndex
    requires block != []
  {
    BlockIndex(hashOf(ChunkHashes(block)), hashIdentifier, block[0].tag, ChunkHashes(block), ChunkSizes(block))
  }

  ghost predicate NoneEmpty<T>(ss: seq<seq<T>>) {
    forall b :: 0 <= b < |ss| ==> ss[b] != []
  }

  function MakeBlocks(blocks: seq<seq<Chunk>>, hashIdentifier: nat, hashOf: seq<nat> -> nat): (r: seq<BlockIndex>)
    requires NoneEmpty(blocks)
    ensures |r| == |blocks| && forall b :: 0 <= b < |r| ==> r[b] == MakeBlock(blocks[b], hashIdentifier, hashOf)
  {
    seq(|blocks|, b requires 0 <= b < |blocks| => MakeBlock(blocks[b], hashIdentifier, hashOf))
  }

  /** The chunks that are packed: the first occurrence of every hash. */
  function UniqueChunks(hashes: seq<nat>, sizes: seq<nat>, tags: seq<nat>): (cs: seq<Chunk>)
    requires |hashes| == |sizes| == |tags|
    ensures |cs| == |FirstOccurrences(hashes)|
    ensures ChunkHashes(cs) == At(hashes, FirstOccurrences(hashes))
  {
    var u := FirstOccurrences(hashes);
    seq(|u|, k requires 0 <= k < |u| => Chunk(hashes[u[k]], sizes[u[k]], tags[u[k]]))
  }

  /** The chunk has the size and the tag that the lists keep where its hash is listed first. */
  ghost predicate IsListed(c: Chunk, hashes: seq<nat>, sizes: seq<nat>, tags: seq<nat>)
    requires |hashes| == |sizes| == |tags|
  {
    exists i :: 0 <= i < |hashes| && IsListedAt(c, hashes, sizes, tags, i)
  }

  ghost predicate IsListedAt(c: Chunk, hashes: seq<nat>, sizes: seq<nat>, tags: seq<nat>, i: nat)
    requires |hashes| == |sizes| == |tags| && i < |hashes|
  {
    c == Chunk(hashes[i], sizes[i], tags[i]) && c.hash !in hashes[..i]
  }

  lemma {:induction false} OccurrenceIsFirst(hashes: seq<nat>, k: nat)
    requires k < |FirstOccurrences(hashes)|
    ensures FirstOccurrences(hashes)[k] < |hashes|
              && hashes[FirstOccurrences(hashes)[k]] !in hashes[..FirstOccurrences(hashes)[k]]
  {
    var last := |hashes| - 1;
    NextOccurrence(hashes, last);
    assert hashes[..last + 1] == hashes;
    if k < |FirstOccurrences(hashes[..last])| {
      OccurrenceIsFirst(hashes[..last], k);
      var i := FirstOccurrences(hashes)[k];
      assert hashes[..last][..i] == hashes[..i];
    }
  }

  lemma UniqueAreListed(hashes: seq<nat>, sizes: seq<nat>, tags: seq<nat>)
    requires |hashes| == |sizes| == |tags|
    ensures forall c :: c in UniqueChunks(hashes, sizes, tags) ==> IsListed(c, hashes, sizes, tags)
  {
    hide FirstOccurrences;
    var cs := UniqueChunks(hashes, sizes, tags);
    forall c | c in cs
      ensures IsListed(c, hashes, sizes, tags)
    {
      var k :| 0 <= k < |cs| && cs[k] == c;
      OccurrenceIsFirst(hashes, k);
      assert IsListedAt(c, hashes, sizes, tags, FirstOccurrences(hashes)[k]);
    }
  }

  /** Chunk sizes and limits are such that no 32-bit sum of two of them wraps. */
  ghost predicate NoWrap(sizes: seq<nat>, lim: Limits) {
    lim.MaxSize() < 0x8000_0000 && forall k :: 0 <= k < |sizes| ==> sizes[k] < 0x8000_0000
  }

  lemma PackNonEmpty(cs: seq<Chunk>, lim: Limits)
    requires lim.Ok()
    ensures NoneEmpty(Pack(cs, lim))
  {
    PackPartitions(cs, lim);
    assert forall b :: 0 <= b < |Pack(cs, lim)| ==> BlockOk(Pack(cs, lim)[b], lim);
  }

  method CreateBlockIndex(tag: nat, indexes: seq<nat>, hashes: seq<nat>, sizes: seq<nat>, hashIdentifier: nat,
                          hashOf: seq<nat> -> nat, ghost block: seq<Chunk>) returns (index: BlockIndex)
    requires |hashes| == |sizes| && |indexes| == |block| > 0 && tag == block[0].tag
    requires forall k :: 0 <= k < |indexes| ==>
               indexes[k] < |hashes| && block[k].hash == hashes[indexes[k]] && block[k].size == sizes[indexes[k]]
    ensures index == MakeBlock(block, hashIdentifier, hashOf)
  {
    var hs := seq(|indexes|, k requires 0 <= k < |indexes| && indexes[k] < |hashes| => hashes[indexes[k]]);
    var ss := seq(|indexes|, k requires 0 <= k < |indexes| && indexes[k] < |sizes| => sizes[indexes[k]]);
    assert hs == ChunkHashes(block) && ss == ChunkSizes(block);
    index := BlockIndex(hashOf(hs), hashIdentifier, tag, hs, ss);
  }

  /** Gathers one block from unique[start..] into the stored array. */
  method GatherBlock(unique: array<nat>, uniqueCount: nat, start: nat, hashes: seq<nat>, sizes: seq<nat>,
                     tags: seq<nat>, lim: Limits, stored: array<nat>, ghost cs: seq<Chunk>) returns (count: nat)
    requires |hashes| == |sizes| == |tags| && cs == UniqueChunks(hashes, sizes, tags)
    requires uniqueCount == |cs| <= unique.Length && unique[..uniqueCount] == FirstOccurrences(hashes)
    requires NoWrap(sizes, lim)
    requires start < uniqueCount && lim.Ok() && stored.Length >= lim.maxChunksPerBlock && stored != unique
    modifies stored
    ensures 0 < count <= stored.Length && start + count <= uniqueCount
    ensures count == BlockLen(cs[start..], 1, cs[start].size, lim)
    ensures stored[..count] == unique[start..start + count]
  {
    hide BlockLen, FirstOccurrences, UniqueChunks, NoWrap;
    ghost var rest := cs[start..];
    var first := unique[start];
    assert first == unique[..uniqueCount][start];
    RestAt(hashes, sizes, tags, lim, start, 0);
    var currentSize: nat, currentTag := sizes[first], tags[first];
    stored[0] := first;
    count := 1;
    var i: nat := start;
    while i + 1 < uniqueCount
      invariant i == start + count - 1 && start + count <= uniqueCount && 0 < count <= lim.maxChunksPerBlock
      invariant currentSize < 0x8000_0000 && currentTag == cs[start].tag
      invariant stored[..count] == unique[start..start + count]
      invariant BlockLen(rest, 1, cs[start].size, lim) == BlockLen(rest, count, currentSize, lim)
    {
      BlockLenStep(rest, count, currentSize, lim);
      var chunk := unique[i + 1];
      assert chunk == unique[..uniqueCount][i + 1];
      RestAt(hashes, sizes, tags, lim, start, count);
      if tags[chunk] != currentTag {
        return;
      }
      if count == lim.maxChunksPerBlock {
        return;
      }
      assert currentSize + sizes[chunk] < 0x1_0000_0000;
      if currentSize + sizes[chunk] > lim.maxBlockSize + lim.maxBlockSize / 10 {
        return;
      }
      currentSize := currentSize + sizes[chunk];
      ghost var before := stored[..count];
      stored[count] := chunk;
      count := count + 1;
      assert stored[..count] == before + [chunk];
      i := i + 1;
    }
    BlockLenStep(rest, count, currentSize, lim);
  }

  /** The chunk that is n behind the start, with sizes that do not wrap. */
  lemma RestAt(hashes: seq<nat>, sizes: seq<nat>, tags: seq<nat>, lim: Limits, start: nat, n: nat)
    requires |hashes| == |sizes| == |tags| && start + n < |FirstOccurrences(hashes)| && NoWrap(sizes, lim)
    ensures var i := FirstOccurrences(hashes)[start + n];
            && i < |hashes| && sizes[i] < 0x8000_0000 && lim.MaxSize() < 0x8000_0000
            && UniqueChunks(hashes, sizes, tags)[start..][n] == Chunk(hashes[i], sizes[i], tags[i])
  {
  }

  lemma BlockLenStep(cs: seq<Chunk>, n: nat, size: nat, lim: Limits)
    requires 0 < n <= |cs|
    ensures n == |cs| ==> BlockLen(cs, n, size, lim) == n
    ensures n < |cs| && Closes(cs, n, size, lim) ==> BlockLen(cs, n, size, lim) == n
    ensures n < |cs| && !Closes(cs, n, size, lim) ==>
              BlockLen(cs, n, size, lim) == BlockLen(cs, n + 1, size + cs[n].size, lim)
  {
  }

  /** Packs unique chunks into blocks. */
  method PackBlocks(hashes: seq<nat>, sizes: seq<nat>, tags: seq<nat>, lim: Limits, hashIdentifier: nat,
                    hashOf: seq<nat> -> nat)
    returns (blocks: seq<BlockIndex>)
    requires |hashes| == |sizes| == |tags| < NONE && lim.Ok() && NoWrap(sizes, lim)
    ensures NoneEmpty(Pack(UniqueChunks(hashes, sizes, tags), lim))
    ensures blocks == MakeBlocks(Pack(UniqueChunks(hashes, sizes, tags), lim), hashIdentifier, hashOf)
  {
    hide BlockLen, FirstOccurrences, UniqueChunks, NoWrap, MakeBlock, MakeBlocks, Pack, NoneEmpty;
    ghost var cs := UniqueChunks(hashes, sizes, tags);
    PackNonEmpty(cs, lim);
    var unique, stored := new nat[|hashes|], new nat[lim.maxChunksPerBlock];
    var uniqueCount := GetUniqueHashes(hashes, unique);
    blocks := [];
    var i := 0;
    assert cs[0..] == cs;
    while i < uniqueCount
      invariant i <= uniqueCount == |cs| && unique[..uniqueCount] == FirstOccurrences(hashes)
      invariant NoneEmpty(Pack(cs[i..], lim))
      invariant MakeBlocks(Pack(cs, lim), hashIdentifier, hashOf) ==
                  blocks + MakeBlocks(Pack(cs[i..], lim), hashIdentifier, hashOf)
    {
      var count := GatherBlock(unique, uniqueCount, i, hashes, sizes, tags, lim, stored, cs);
      PackStep(cs, i, count, lim, hashIdentifier, hashOf);
      SliceSlice(unique[..], 0, uniqueCount, i, i + count);
      assert unique[..][0..uniqueCount] == unique[..uniqueCount] && unique[..][i..i + count] == unique[i..i + count];
      StoredChunks(hashes, sizes, tags, i, count, stored[..count]);
      var block := CreateBlockIndex(tags[stored[0]], stored[..count], hashes, sizes, hashIdentifier, hashOf,
                                    cs[i..i + count]);
      blocks := blocks + [block];
      i := i + count;
    }
    NothingPacked(cs[i..], lim);
  }

  lemma NothingPacked(cs: seq<Chunk>, lim: Limits)
    ensures cs == [] ==> Pack(cs, lim) == []
  {
  }

  lemma PackStep(cs: seq<Chunk>, i: nat, n: nat, lim: Limits, hashIdentifier: nat, hashOf: seq<nat> -> nat)
    requires lim.Ok() && i < |cs| && n == BlockLen(cs[i..], 1, cs[i].size, lim)
    ensures i + n <= |cs| && NoneEmpty(Pack(cs[i + n..], lim)) && NoneEmpty(Pack(cs[i..], lim)) && n > 0
    ensures MakeBlocks(Pack(cs[i..], lim), hashIdentifier, hashOf) ==
            [MakeBlock(cs[i..i + n], hashIdentifier, hashOf)] + MakeBlocks(Pack(cs[i + n..], lim), hashIdentifier,
                    hashOf)
  {
    hide BlockLen;
    PackNonEmpty(cs[i..], lim);
    PackNonEmpty(cs[i + n..], lim);
    assert cs[i..][..n] == cs[i..i + n] && cs[i..][n..] == cs[i + n..];
    assert Pack(cs[i..], lim) == [cs[i..i + n]] + Pack(cs[i + n..], lim);
  }

  lemma StoredChunks(hashes: seq<nat>, sizes: seq<nat>, tags: seq<nat>, i: nat, n: nat, stored: seq<nat>)
    requires |hashes| == |sizes| == |tags| && i + n <= |FirstOccurrences(hashes)| && n > 0
    requires stored == FirstOccurrences(hashes)[i..i + n]
    ensures var block := UniqueChunks(hashes, sizes, tags)[i..i + n];
            forall k :: 0 <= k < n ==>
              stored[k] < |hashes| && block[k].hash == hashes[stored[k]] &&
              block[k].size == sizes[stored[k]] && block[k].tag == tags[stored[k]]
  {
  }

  // ----- Flattening blocks into a content index, and slicing it again -----

  function HashLists(blocks: seq<BlockIndex>): (r: seq<seq<nat>>)
    ensures |r| == |blocks| && forall b :: 0 <= b < |r| ==> r[b] == blocks[b].chunkHashes
  {
    seq(|blocks|, b requires 0 <= b < |blocks| => blocks[b].chunkHashes)
  }

  /** For every chunk of the blocks, the number of its block. */
  function OwnerLists<T>(lists: seq<seq<T>>): (r: seq<seq<nat>>)
    ensures |r| == |lists|
    ensures forall b :: 0 <= b < |r| ==> |r[b]| == |lists[b]| && forall k :: 0 <= k < |r[b]| ==> r[b][k] == b
  {
    seq(|lists|, b requires 0 <= b < |lists| => seq(|lists[b]|, k => b))
  }

  function BlockHashes(blocks: seq<BlockIndex>): (r: seq<nat>)
    ensures |r| == |blocks| && forall b :: 0 <= b < |r| ==> r[b] == blocks[b].blockHash
  {
    seq(|blocks|, b requires 0 <= b < |blocks| => blocks[b].blockHash)
  }

  lemma {:induction false} SameOffsets<S, T>(a: seq<seq<S>>, b: seq<seq<T>>, c: nat)
    requires |a| == |b| && c <= |a| && forall i :: 0 <= i < |a| ==> |a[i]| == |b[i]|
    ensures Offset(a, c) == Offset(b, c)
  {
    if c == 0 {
      OffsetEnds(a);
      OffsetEnds(b);
    } else {
      SameOffsets(a, b, c - 1);
      OffsetNext(a, c - 1);
      OffsetNext(b, c - 1);
    }
  }

  /** The chunk count of the blocks. */
  method CountChunks(blocks: seq<BlockIndex>) returns (count: nat)
    ensures count == |Flatten(HashLists(blocks))|
  {
    hide Offset, Flatten;
    ghost var lists := HashLists(blocks);
    OffsetEnds(lists);
    count := 0;
    for b := 0 to |blocks|
      invariant count == Offset(lists, b)
    {
      OffsetNext(lists, b);
      count := count + |blocks[b].chunkHashes|;
    }
  }

  /** Writes the chunks of block b behind those of the blocks before it. */
  method AppendBlock(ghost blocks: seq<BlockIndex>, b: nat, list: seq<nat>, at: nat, chunkHashes: array<nat>,
                     owners: array<nat>)
    requires b < |blocks| && list == blocks[b].chunkHashes
    requires at == Offset(HashLists(blocks), b) && chunkHashes != owners
    requires chunkHashes.Length == owners.Length == |Flatten(HashLists(blocks))|
    requires at <= chunkHashes.Length && chunkHashes[..at] == Flatten(HashLists(blocks)[..b])
    requires owners[..at] == Flatten(OwnerLists(HashLists(blocks))[..b])
    modifies chunkHashes, owners
    ensures at + |list| == Offset(HashLists(blocks), b + 1) <= chunkHashes.Length
    ensures chunkHashes[..at + |list|] == Flatten(HashLists(blocks)[..b + 1])
    ensures owners[..at + |list|] == Flatten(OwnerLists(HashLists(blocks))[..b + 1])
  {
    hide Offset, Flatten;
    ghost var lists, os := HashLists(blocks), OwnerLists(HashLists(blocks));
    PieceSlice(lists, b);
    ghost var hs, ow := chunkHashes[..at], owners[..at];
    for a := 0 to |list|
      invariant chunkHashes[..at + a] == hs + list[..a]
      invariant owners[..at + a] == ow + os[b][..a]
    {
      chunkHashes[at + a] := list[a];
      owners[at + a] := b;
      assert list[..a + 1] == list[..a] + [list[a]] && os[b][..a + 1] == os[b][..a] + [b];
    }
    FlattenSnoc(lists[..b], lists[b]);
    FlattenSnoc(os[..b], os[b]);
    assert lists[..b + 1] == lists[..b] + [lists[b]] && os[..b + 1] == os[..b] + [os[b]];
    assert list[..|list|] == list && os[b][..|list|] == os[b];
  }

  /** From the first block on that has a hash identifier, all have the same. */
  ghost predicate SameIdentifiers(blocks: seq<BlockIndex>) {
    forall b, c :: 0 <= b < c < |blocks| && blocks[b].hashIdentifier != 0 ==>
        blocks[c].hashIdentifier == blocks[b].hashIdentifier
  }

  /** The hash identifier of the blocks, if they agree; 0 stands for none. */
  method CommonIdentifier(blocks: seq<BlockIndex>) returns (r: Result<nat>)
    ensures r.Success? <==> SameIdentifiers(blocks)
    ensures r.Success? ==> r.value == if blocks == [] then 0 else blocks[|blocks| - 1].hashIdentifier
    ensures r.Failure? ==> r == Failure(EINVAL)
  {
    var identifier := 0;
    for b := 0 to |blocks|
      invariant SameIdentifiers(blocks[..b]) && identifier == if b == 0 then 0 else blocks[..b][b - 1].hashIdentifier
    {
      assert blocks[..b + 1] == blocks[..b] + [blocks[b]];
      if identifier == 0 {
        identifier := blocks[b].hashIdentifier;
        NoneBefore(blocks[..b]);
      } else if identifier != blocks[b].hashIdentifier {
        assert blocks[b - 1].hashIdentifier == identifier;
        return Failure(EINVAL);
      }
    }
    assert blocks[..|blocks|] == blocks;
    r := Success(identifier);
  }

  lemma NoneBefore(blocks: seq<BlockIndex>)
    requires SameIdentifiers(blocks) && (blocks != [] ==> blocks[|blocks| - 1].hashIdentifier == 0)
    ensures forall b :: 0 <= b < |blocks| ==> blocks[b].hashIdentifier == 0
  {
  }

  /** Fails exactly if the blocks do not agree on their hash function. */
  method CreateContentIndexFromBlocks(lim: Limits, blocks: seq<BlockIndex>) returns (r: Result<ContentIndex>)
    ensures r.Success? <==> SameIdentifiers(blocks)
    ensures r.Failure? ==> r == Failure(EINVAL)
    ensures r.Success? ==>
              && r.value.blockHashes == BlockHashes(blocks) && r.value.chunkHashes == Flatten(HashLists(blocks))
              && r.value.chunkBlockIndexes == Flatten(OwnerLists(HashLists(blocks)))
              && r.value.hashIdentifier == (if blocks == [] then 0 else blocks[|blocks| - 1].hashIdentifier)
              && r.value.maxBlockSize == lim.maxBlockSize && r.value.maxChunksPerBlock == lim.maxChunksPerBlock
  {
    hide SameIdentifiers, Flatten, HashLists, OwnerLists, BlockHashes;
    var identifier := CommonIdentifier(blocks);
    if identifier.Failure? {
      return Failure(identifier.errno);
    }
    var blockHashes, chunkHashes, owners := FlattenBlocks(blocks);
    r := Success(ContentIndex(identifier.value, lim.maxBlockSize, lim.maxChunksPerBlock, blockHashes, chunkHashes,
                              owners));
  }

  /** The arrays of the index, block after block. */
  method FlattenBlocks(blocks: seq<BlockIndex>) returns (hashes: seq<nat>, chunks: seq<nat>, blockIndexes: seq<nat>)
    ensures hashes == BlockHashes(blocks) && chunks == Flatten(HashLists(blocks))
    ensures blockIndexes == Flatten(OwnerLists(HashLists(blocks)))
  {
    hide Flatten, Offset;
    ghost var lists := HashLists(blocks);
    var count := CountChunks(blocks);
    var blockHashes, chunkHashes, owners := new nat[|blocks|], new nat[count], new nat[count];
    var at := 0;
    OffsetEnds(lists);
    NothingFlattened(lists, OwnerLists(lists));
    for b := 0 to |blocks|
      invariant blockHashes[..b] == BlockHashes(blocks)[..b]
      invariant at == Offset(lists, b) <= count
      invariant chunkHashes[..at] == Flatten(lists[..b]) && owners[..at] == Flatten(OwnerLists(lists)[..b])
    {
      blockHashes[b] := blocks[b].blockHash;
      AppendBlock(blocks, b, blocks[b].chunkHashes, at, chunkHashes, owners);
      at := at + |blocks[b].chunkHashes|;
    }
    assert lists[..|blocks|] == lists && OwnerLists(lists)[..|blocks|] == OwnerLists(lists);
    assert BlockHashes(blocks)[..|blocks|] == BlockHashes(blocks);
    hashes, chunks, blockIndexes := blockHashes[..], chunkHashes[..at], owners[..at];
  }

  lemma NothingFlattened<S, T>(a: seq<seq<S>>, b: seq<seq<T>>)
    ensures Flatten(a[..0]) == [] && Flatten(b[..0]) == []
  {
  }

  /** The index lists the chunks of its blocks one block after the other. */
  ghost predicate BlockByBlock(ix: ContentIndex, lists: seq<seq<nat>>) {
    && NoneEmpty(lists) && |ix.blockHashes| == |lists|
    && ix.chunkBlockIndexes == Flatten(OwnerLists(lists)) && ix.chunkHashes == Flatten(lists)
  }

  /** The hash of every block is that of its chunk hashes. */
  ghost predicate NamedBy(ix: ContentIndex, lists: seq<seq<nat>>, hashOf: seq<nat> -> nat) {
    |ix.blockHashes| == |lists| && forall b :: 0 <= b < |lists| ==> ix.blockHashes[b] == hashOf(lists[b])
  }

  /** Slices the chunks of a content index into its blocks by runs of equal block
      indexes: where the run of every block starts and how long it is. */
  method SliceRuns(ix: ContentIndex, ghost lists: seq<seq<nat>>) returns (first: seq<nat>, count: seq<nat>)
    requires BlockByBlock(ix, lists)
    ensures |first| == |count| == |lists|
    ensures forall b :: 0 <= b < |lists| ==>
              first[b] + count[b] <= |ix.chunkHashes| && ix.chunkHashes[first[b]..first[b] + count[b]] == lists[b]
  {
    hide Flatten, Offset, OwnerLists;
    first, count := [], [];
    var start := 0;
    OffsetEnds(lists);
    for b := 0 to |ix.blockHashes|
      invariant |first| == |count| == b && start == Offset(lists, b)
      invariant forall c :: 0 <= c < b ==> first[c] == Offset(lists, c) && count[c] == |lists[c]|
    {
      var n := RunLength(ix, b, start, lists);
      first, count := first + [start], count + [n];
      OffsetNext(lists, b);
      start := start + n;
    }
    forall b | 0 <= b < |lists|
      ensures first[b] + count[b] <= |ix.chunkHashes| && ix.chunkHashes[first[b]..first[b] + count[b]] == lists[b]
    {
      PieceSlice(lists, b);
    }
  }

  /** The run of block b ends where the next block index starts. */
  method RunLength(ix: ContentIndex, b: nat, start: nat, ghost lists: seq<seq<nat>>) returns (n: nat)
    requires b < |lists| && NoneEmpty(lists) && start == Offset(lists, b)
    requires ix.chunkBlockIndexes == Flatten(OwnerLists(lists)) && ix.chunkHashes == Flatten(lists)
    ensures n == |lists[b]|
  {
    hide Flatten, Offset, OwnerLists;
    OwnersOfRun(lists, b);
    var end := start + 1;
    while end < |ix.chunkHashes| && ix.chunkBlockIndexes[end] == b
      invariant start < end <= start + |lists[b]|
    {
      end := end + 1;
    }
    n := end - start;
  }

  lemma OwnersOfRun(lists: seq<seq<nat>>, b: nat)
    requires b < |lists| && NoneEmpty(lists)
    ensures |Flatten(lists)| == |Flatten(OwnerLists(lists))|
    ensures var from, to, owners := Offset(lists, b), Offset(lists, b + 1), Flatten(OwnerLists(lists));
            && from < to == from + |lists[b]| <= |owners|
            && (forall i :: from <= i < to ==> owners[i] == b)
            && (to < |owners| ==> owners[to] == b + 1)
  {
    hide Flatten, Offset;
    var os := OwnerLists(lists);
    PieceSlice(lists, b);
    PieceSlice(os, b);
    SameOffsets(lists, os, b);
    SameOffsets(lists, os, b + 1);
    SameOffsets(lists, os, |lists|);
    OffsetEnds(lists);
    OffsetEnds(os);
    forall i | Offset(os, b) <= i < Offset(os, b + 1)
      ensures Flatten(os)[i] == b
    {
      assert Flatten(os)[i] == os[b][i - Offset(os, b)];
    }
    if b + 1 < |lists| {
      PieceSlice(os, b + 1);
      assert Flatten(os)[Offset(os, b + 1)] == os[b + 1][0];
    }
  }
}

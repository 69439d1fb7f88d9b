/** Merging and adding content indexes (src/longtail.c). Where both know a chunk, a
    merge takes it from the new index. */
module MergeContent {
  import opened Prelude
  import opened LookupTables
  import opened Indexes
  import opened ContentAlgebra
  import opened MissingContent

  // ----- Splitting the search for new chunks into jobs -----

  const MIN_CHUNKS_PER_JOB: nat := 65536

  datatype FindNewChunksJob = FindNewChunksJob(start: nat, end: nat)

  /** How many chunks a job looks at. */
  function ChunksPerJob(chunkCount: nat, workerCount: nat): (per: nat)
    ensures per >= MIN_CHUNKS_PER_JOB
  {
    var share := if workerCount > 0 then chunkCount / workerCount else chunkCount;
    if share < MIN_CHUNKS_PER_JOB then MIN_CHUNKS_PER_JOB else share
  }

  /** The ranges of the jobs are adjacent and end at n. */
  ghost predicate Tiles(jobs: seq<FindNewChunksJob>, n: nat) {
    if jobs == [] then n == 0
    else
      var last := jobs[|jobs| - 1];
      last.start <= last.end == n && Tiles(jobs[..|jobs| - 1], last.start)
  }

  lemma {:induction false} TileOf(jobs: seq<FindNewChunksJob>, n: nat, c: nat) returns (j: nat)
    requires Tiles(jobs, n) && c < n
    ensures j < |jobs| && jobs[j].start <= c < jobs[j].end
  {
    j := |jobs| - 1;
    if c < jobs[j].start {
      j := TileOf(jobs[..j], jobs[j].start, c);
    }
  }

  lemma {:induction false} TileEnds(jobs: seq<FindNewChunksJob>, n: nat, j: nat)
    requires Tiles(jobs, n) && j < |jobs|
    ensures jobs[j].start <= jobs[j].end <= n
  {
    if j < |jobs| - 1 {
      TileEnds(jobs[..|jobs| - 1], jobs[|jobs| - 1].start, j);
    }
  }

  lemma TilesNext(jobs: seq<FindNewChunksJob>, n: nat, job: FindNewChunksJob)
    requires Tiles(jobs, n) && job.start == n <= job.end
    ensures Tiles(jobs + [job], job.end)
  {
    assert (jobs + [job])[..|jobs|] == jobs;
  }

  /** The start of the j-th of q ranges, and that q ranges are enough. */
  lemma RangeStart(j: nat, q: nat, per: nat, n: nat)
    requires 0 < q && (q - 1) * per < n <= q * per
    ensures j < q ==> j * per < n
    ensures j == q ==> j * per >= n
    ensures (j + 1) * per == j * per + per
  {
    if j < q {
      MulMonotone(j, q - 1, per);
    }
  }

  /** Creates jobs whose ranges cover every chunk once; their number fits into 32 bits. */
  method CreateFindJobs(chunkCount: nat, workerCount: nat) returns (jobs: seq<FindNewChunksJob>)
    requires 0 < chunkCount < 0xffff_0000_0000
    ensures Tiles(jobs, chunkCount)
  {
    var per := ChunksPerJob(chunkCount, workerCount);
    var jobCount := (chunkCount + per - 1) / per % 0x1_0000_0000;
    JobCountFits(chunkCount, per, jobCount);
    jobs := [];
    var start: nat := 0;
    var j: nat := 0;
    while j < jobCount
      invariant |jobs| == j <= jobCount && start == j * per
      invariant Tiles(jobs, if start < chunkCount then start else chunkCount)
    {
      RangeStart(j, jobCount, per, chunkCount);
      var end := start + per;
      if end > chunkCount {
        end := chunkCount;
      }
      TilesNext(jobs, start, FindNewChunksJob(start, end));
      jobs := jobs + [FindNewChunksJob(start, end)];
      start := start + per;
      j := j + 1;
    }
    RangeStart(jobCount, jobCount, per, chunkCount);
  }

  lemma JobCountFits(n: nat, per: nat, jobCount: nat)
    requires 0 < n < 0xffff_0000_0000 && per >= MIN_CHUNKS_PER_JOB
    requires jobCount == (n + per - 1) / per % 0x1_0000_0000
    ensures 0 < jobCount && (jobCount - 1) * per < n <= jobCount * per
  {
    CeilingQuotient(n, per);
    var q := (n + per - 1) / per;
    MulMonotone(MIN_CHUNKS_PER_JOB, per, q - 1);
    assert MIN_CHUNKS_PER_JOB * (q - 1) < n;
    assert q < 0x1_0000_0000;
  }

  /** Which chunks of a range the new index lacks is recorded in the shared array. */
  method FindNewChunks(local: ContentIndex, newChunks: LookupTable, job: FindNewChunksJob, found: array<nat>)
    requires newChunks.Valid() && (forall k :: 0 <= k < newChunks.count ==> newChunks.Values()[k] < NONE)
    requires job.start <= job.end <= |local.chunkHashes| == found.Length && found !in newChunks.Repr
    modifies found
    ensures forall c :: 0 <= c < found.Length ==>
              if job.start <= c < job.end then found[c] == NONE <==> local.chunkHashes[c] !in newChunks.Keys()
              else found[c] == old(found[c])
  {
    hide Lookup, LookupTable.Valid;
    for c := job.start to job.end
      invariant newChunks.Valid() && newChunks.Keys() == old(newChunks.Keys())
                  && newChunks.Values() == old(newChunks.Values())
      invariant forall i :: 0 <= i < found.Length ==>
                  if job.start <= i < c then found[i] == NONE <==> local.chunkHashes[i] !in newChunks.Keys()
                  else found[i] == old(found[i])
    {
      LookupPresent(newChunks.Keys(), newChunks.Values(), local.chunkHashes[c]);
      var blockIndex := newChunks.Get(local.chunkHashes[c]);
      found[c] := if blockIndex.Some? then blockIndex.value else NONE;
    }
  }

  /** Runs the jobs in any order: afterwards every local chunk is classified. */
  method FindAllNewChunks(local: ContentIndex, newChunks: LookupTable, workerCount: nat) returns (found: array<nat>)
    requires newChunks.Valid() && (forall k :: 0 <= k < newChunks.count ==> newChunks.Values()[k] < NONE)
    requires 0 < |local.chunkHashes| < 0xffff_0000_0000
    ensures fresh(found) && found.Length == |local.chunkHashes|
    ensures forall c :: 0 <= c < found.Length ==> (found[c] == NONE <==> local.chunkHashes[c] !in newChunks.Keys())
  {
    hide Tiles, LookupTable.Valid;
    found := new nat[|local.chunkHashes|];
    var jobs := CreateFindJobs(|local.chunkHashes|, workerCount);
    var pending := UpTo(|jobs|);
    while pending != {}
      invariant newChunks.Valid() && newChunks.Keys() == old(newChunks.Keys())
                  && newChunks.Values() == old(newChunks.Values())
      invariant forall j :: j in pending ==> 0 <= j < |jobs|
      invariant forall j :: 0 <= j < |jobs| && j !in pending ==> Classified(jobs[j], local, newChunks.Keys(), found[..])
      decreases |pending|
    {
      var j :| j in pending;
      pending := pending - {j};
      TileEnds(jobs, found.Length, j);
      ghost var before := found[..];
      FindNewChunks(local, newChunks, jobs[j], found);
      ClassifiedKept(jobs, j, local, newChunks.Keys(), before, found[..]);
    }
    forall c | 0 <= c < found.Length
      ensures found[c] == NONE <==> local.chunkHashes[c] !in newChunks.Keys()
    {
      var j := TileOf(jobs, found.Length, c);
      assert Classified(jobs[j], local, newChunks.Keys(), found[..]);
    }
  }

  ghost predicate Classified(job: FindNewChunksJob, local: ContentIndex, known: seq<nat>, found: seq<nat>) {
    && job.start <= job.end <= |found| == |local.chunkHashes|
    && forall c :: job.start <= c < job.end ==> (found[c] == NONE <==> local.chunkHashes[c] !in known)
  }

  lemma ClassifiedKept(jobs: seq<FindNewChunksJob>, j: nat, local: ContentIndex, known: seq<nat>, before: seq<nat>,
                       after: seq<nat>)
    requires j < |jobs| && jobs[j].start <= jobs[j].end <= |before| == |after| == |local.chunkHashes|
    requires forall c :: 0 <= c < |after| ==>
               if jobs[j].start <= c < jobs[j].end then after[c] == NONE <==> local.chunkHashes[c] !in known
               else after[c] == before[c]
    ensures Classified(jobs[j], local, known, after)
    ensures forall i :: 0 <= i < |jobs| && Classified(jobs[i], local, known, before) ==>
              Classified(jobs[i], local, known, after)
  {
  }

  // ----- Merging -----

  /** The block list of a merge: the new blocks, then those of the local pairs that were
      not among them. */
  ghost predicate MergedBlocks(blocks: seq<nat>, news: seq<nat>, locals: seq<nat>, ps: seq<Pair>) {
    && news <= blocks && Distinct(blocks[|news|..])
    && (forall b :: b in blocks[|news|..] ==> b in locals && b !in news)
    && Elems(blocks) == Elems(news) + BlockSet(ps)
  }

  lemma MergedBlocksStart(news: seq<nat>, locals: seq<nat>)
    ensures MergedBlocks(news, news, locals, [])
  {
  }

  lemma MergedBlocksNext(blocks: seq<nat>, news: seq<nat>, locals: seq<nat>, ps: seq<Pair>, p: Pair)
    requires MergedBlocks(blocks, news, locals, ps) && p.block in locals
    ensures MergedBlocks(if p.block in blocks then blocks else blocks + [p.block], news, locals, ps + [p])
    ensures p.block !in blocks ==> |blocks| < |news| + |locals|
  {
    var extra := blocks[|news|..];
    assert blocks == news + extra;
    HashSetSnoc(ps, p);
    ElemsSnoc(blocks, p.block);
    if p.block in blocks {
      assert p.block in Elems(blocks);
    } else {
      RoomLeft(extra, locals, p.block);
      assert (blocks + [p.block])[|news|..] == extra + [p.block];
    }
  }

  lemma MergedDistinct(blocks: seq<nat>, news: seq<nat>, locals: seq<nat>, ps: seq<Pair>)
    requires MergedBlocks(blocks, news, locals, ps) && Distinct(news)
    ensures Distinct(blocks)
  {
    var extra := blocks[|news|..];
    forall i, j | 0 <= i < j < |blocks|
      ensures blocks[i] != blocks[j]
    {
      if i < |news| <= j {
        assert extra[j - |news|] in extra && blocks[j] == extra[j - |news|] && blocks[i] == news[i];
      } else if i >= |news| {
        var k, l := i - |news|, j - |news|;
        assert blocks[i] == extra[k] && blocks[j] == extra[l];
      } else {
        assert blocks[i] == news[i] && blocks[j] == news[j];
      }
    }
  }

  /** The table of the chunks of the new index (job
      MergeContentIndex_BuildChunkHashToBlockIndex). */
  method ChunkTable(ix: ContentIndex, capacity: nat) returns (table: LookupTable)
    requires ContentOk(ix) && |ix.chunkHashes| <= capacity < NONE
    ensures table.Valid() && fresh(table) && fresh(table.Repr)
    ensures forall h :: h in table.Keys() <==> h in ix.chunkHashes
    ensures forall h :: table.Find(h) == Lookup(ix.chunkHashes, ix.chunkBlockIndexes, h)
    ensures forall k :: 0 <= k < table.count ==> table.Values()[k] < NONE
  {
    hide Lookup, FirstMatch, LookupTable.Valid;
    NothingFound();
    table := new LookupTable(capacity);
    for c := 0 to |ix.chunkHashes|
      invariant table.Valid() && fresh(table.Repr) && table.keys.Length == capacity && table.count <= c
      invariant forall h :: h in table.Keys() <==> h in ix.chunkHashes[..c]
      invariant forall h :: table.Find(h) == Lookup(ix.chunkHashes[..c], ix.chunkBlockIndexes[..c], h)
      invariant forall k :: 0 <= k < table.count ==> table.Values()[k] < NONE
    {
      FirstPutWins(ix.chunkHashes, ix.chunkBlockIndexes, c);
      assert ix.chunkHashes[..c + 1] == ix.chunkHashes[..c] + [ix.chunkHashes[c]];
      var existing := table.PutUnique(ix.chunkHashes[c], ix.chunkBlockIndexes[c]);
    }
    assert ix.chunkHashes[..|ix.chunkHashes|] == ix.chunkHashes
        && ix.chunkBlockIndexes[..|ix.chunkHashes|] == ix.chunkBlockIndexes;
  }

  lemma NothingFound()
    ensures forall h :: Lookup([], [], h) == None
  {
  }

  /** Entry c answers only for a hash that did not occur before. */
  lemma FirstPutWins(ks: seq<nat>, vs: seq<nat>, c: nat)
    requires c < |ks| == |vs|
    ensures forall h :: Lookup(ks[..c + 1], vs[..c + 1], h) ==
              LookupTable.FirstWins(Lookup(ks[..c], vs[..c], h), h, ks[c], vs[c])
  {
    assert ks[..c + 1] == ks[..c] + [ks[c]] && vs[..c + 1] == vs[..c] + [vs[c]];
    forall h
      ensures Lookup(ks[..c + 1], vs[..c + 1], h) == LookupTable.FirstWins(Lookup(ks[..c], vs[..c], h), h, ks[c], vs[c])
    {
      LookupAppend(ks[..c], vs[..c], ks[c], vs[c], h);
      LookupPresent(ks[..c], vs[..c], h);
    }
  }

  /** Adds the local chunks that were found to be missing in the new index. */
  method AddLocalChunks(local: ContentIndex, news: ContentIndex, found: array<nat>, builder: IndexBuilder)
    requires ContentOk(local) && ContentOk(news) && builder.Valid() && found !in builder.Repr
    requires builder.blocks.Length == |local.blockHashes| + |news.blockHashes|
    requires builder.hashes.Length == |local.chunkHashes| + |news.chunkHashes|
    requires builder.contents == Pairs(news) && builder.Blocks() == news.blockHashes
    requires found.Length == |local.chunkHashes|
    requires forall c :: 0 <= c < found.Length ==> (found[c] == NONE <==> local.chunkHashes[c] !in news.chunkHashes)
    modifies builder.Repr
    ensures builder.Valid()
    ensures builder.contents == Pairs(news) + Without(Pairs(local), Elems(news.chunkHashes))
    ensures MergedBlocks(builder.Blocks(), news.blockHashes, local.blockHashes,
                         Without(Pairs(local), Elems(news.chunkHashes)))
  {
    hide Without, Elems, MergedBlocks, IndexBuilder.Valid;
    ghost var known, ps, marks := Elems(news.chunkHashes), Pairs(local), found[..];
    NoPairs(ps, known);
    MergedBlocksStart(news.blockHashes, local.blockHashes);
    for c := 0 to |local.chunkHashes|
      invariant builder.Valid() && builder.count <= |news.chunkHashes| + c && found[..] == marks
      invariant builder.contents == Pairs(news) + Without(ps[..c], known)
      invariant MergedBlocks(builder.Blocks(), news.blockHashes, local.blockHashes, Without(ps[..c], known))
    {
      assert found[c] == marks[c];
      WithoutNext(local, c, known);
      InElems(news.chunkHashes, local.chunkHashes[c]);
      if found[c] == NONE {
        PairAt(local, c);
        MergedBlocksNext(builder.Blocks(), news.blockHashes, local.blockHashes, Without(ps[..c], known), ps[c]);
        builder.Add(local.chunkHashes[c], local.blockHashes[local.chunkBlockIndexes[c]]);
      }
    }
    assert ps[..|ps|] == ps;
  }

  /** All new pairs, then the local pairs of the chunks the new index does not know. */
  method MergeContentIndex(local: ContentIndex, news: ContentIndex, workerCount: nat) returns (r: Result<ContentIndex>)
    requires ContentOk(local) && ContentOk(news)
    requires |local.blockHashes| + |news.blockHashes| < NONE
               && |local.chunkHashes| + |news.chunkHashes| < 0xffff_0000_0000
    ensures r == Failure(EINVAL) <==> !Compatible(local, news)
    ensures r.Failure? ==> r.errno == EINVAL
    ensures r.Success? ==>
              && ContentOk(r.value)
              && Pairs(r.value) == Pairs(news) + Without(Pairs(local), Elems(news.chunkHashes))
              && MergedBlocks(r.value.blockHashes, news.blockHashes, local.blockHashes,
                              Without(Pairs(local), Elems(news.chunkHashes)))
              && r.value.hashIdentifier == (if local.blockHashes != [] then local else news).hashIdentifier
              && r.value.maxBlockSize == news.maxBlockSize
              && r.value.maxChunksPerBlock == news.maxChunksPerBlock
  {
    hide Without, Elems, MergedBlocks, IndexBuilder.Valid, LookupTable.Valid;
    if !Compatible(local, news) {
      return Failure(EINVAL);
    }
    var hashIdentifier := if local.blockHashes != [] then local.hashIdentifier else news.hashIdentifier;
    var builder := new IndexBuilder(|local.blockHashes| + |news.blockHashes|, |local.chunkHashes| + |news.chunkHashes|);
    builder.CopyBlocks(news);
    builder.CopyChunks(news);
    var newChunks := ChunkTable(news, |local.chunkHashes| + |news.chunkHashes|);
    if |local.chunkHashes| > 0 {
      var found := FindAllNewChunks(local, newChunks, workerCount);
      AddLocalChunks(local, news, found, builder);
    } else {
      NoPairs(Pairs(local), Elems(news.chunkHashes));
      MergedBlocksStart(news.blockHashes, local.blockHashes);
      assert Pairs(local)[..0] == Pairs(local);
    }
    var ix := builder.Finish(hashIdentifier, news.maxBlockSize, news.maxChunksPerBlock);
    r := Success(ix);
  }

  // ----- Adding -----

  method CopyBoth(dst: array<nat>, a: seq<nat>, b: seq<nat>)
    requires dst.Length == |a| + |b|
    modifies dst
    ensures dst[..] == a + b
  {
    CopyInto(dst, 0, a);
    CopyInto(dst, |a|, b);
    assert forall i :: 0 <= i < dst.Length ==> dst[i] == (a + b)[i];
  }

  /** The new block indexes follow behind the local blocks. */
  method CopyOwners(owners: array<nat>, locals: seq<nat>, news: seq<nat>, blockCount: nat)
    requires owners.Length == |locals| + |news|
    modifies owners
    ensures owners[..|locals|] == locals
    ensures forall i :: 0 <= i < |news| ==> owners[|locals| + i] == blockCount + news[i]
  {
    CopyInto(owners, 0, locals);
    for a := 0 to |news|
      invariant owners[..|locals|] == locals
      invariant forall i :: 0 <= i < a ==> owners[|locals| + i] == blockCount + news[i]
    {
      owners[|locals| + a] := blockCount + news[a];
    }
  }

  /** All local pairs, then all new pairs. */
  method AddContentIndex(local: ContentIndex, news: ContentIndex) returns (r: Result<ContentIndex>)
    requires ContentOk(local) && ContentOk(news)
    requires |local.blockHashes| + |news.blockHashes| < NONE && |local.chunkHashes| + |news.chunkHashes| < NONE
    ensures r == Failure(EINVAL) <==> !Compatible(local, news)
    ensures r.Failure? ==> r.errno == EINVAL
    ensures r.Success? ==>
              && ContentOk(r.value)
              && Pairs(r.value) == Pairs(local) + Pairs(news)
              && r.value.blockHashes == local.blockHashes + news.blockHashes
              && r.value.hashIdentifier == (if local.blockHashes != [] then local else news).hashIdentifier
              && r.value.maxBlockSize == local.maxBlockSize
              && r.value.maxChunksPerBlock == local.maxChunksPerBlock
  {
    if !Compatible(local, news) {
      return Failure(EINVAL);
    }
    var hashIdentifier := if local.blockHashes != [] then local.hashIdentifier else news.hashIdentifier;
    var blockCount, chunkCount := |local.blockHashes|, |local.chunkHashes|;
    var blockHashes := new nat[blockCount + |news.blockHashes|];
    var chunkHashes, owners := new nat[chunkCount + |news.chunkHashes|], new nat[chunkCount + |news.chunkHashes|];
    CopyBoth(blockHashes, local.blockHashes, news.blockHashes);
    CopyBoth(chunkHashes, local.chunkHashes, news.chunkHashes);
    CopyOwners(owners, local.chunkBlockIndexes, news.chunkBlockIndexes, blockCount);
    var ix := ContentIndex(hashIdentifier, local.maxBlockSize, local.maxChunksPerBlock, blockHashes[..],
                           chunkHashes[..], owners[..]);
    AddedPairs(local, news, ix);
    r := Success(ix);
  }

  lemma AddedPairs(local: ContentIndex, news: ContentIndex, ix: ContentIndex)
    requires ContentOk(local) && ContentOk(news)
    requires |local.blockHashes| + |news.blockHashes| < NONE && |local.chunkHashes| + |news.chunkHashes| < NONE
    requires ix.blockHashes == local.blockHashes + news.blockHashes
               && ix.chunkHashes == local.chunkHashes + news.chunkHashes
    requires |ix.chunkBlockIndexes| == |ix.chunkHashes|
               && ix.chunkBlockIndexes[..|local.chunkHashes|] == local.chunkBlockIndexes
    requires forall i :: 0 <= i < |news.chunkHashes| ==>
               ix.chunkBlockIndexes[|local.chunkHashes| + i] == |local.blockHashes| + news.chunkBlockIndexes[i]
    ensures ContentOk(ix) && Pairs(ix) == Pairs(local) + Pairs(news)
  {
    var n := |local.chunkHashes|;
    forall k | 0 <= k < |ix.chunkHashes|
      ensures ix.chunkBlockIndexes[k] < |ix.blockHashes|
      ensures Pair(ix.chunkHashes[k], ix.blockHashes[ix.chunkBlockIndexes[k]]) == (Pairs(local) + Pairs(news))[k]
    {
      if k < n {
        assert ix.chunkBlockIndexes[k] == ix.chunkBlockIndexes[..n][k];
      } else {
        var i := k - n;
        assert ix.chunkBlockIndexes[n + i] == |local.blockHashes| + news.chunkBlockIndexes[i];
      }
    }
  }
}

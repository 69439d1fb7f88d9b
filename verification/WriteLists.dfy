/** Which assets of a version are written from one block, and which need more
    (src/longtail.c): the lists of a write, and the jobs that each write the assets of one
    block. */
module WriteLists {
  import opened Prelude
  import opened LookupTables
  import opened Indexes
  import opened Sorting

  // ----- Which assets are written from one block -----

  ghost predicate InContent(v: VersionIndex, a: nat, ix: ContentIndex)
    requires VersionShape(v) && a < |v.names|
  {
    forall c :: 0 <= c < v.assetChunkCounts[a] ==> HashOf(v, a, c) in ix.chunkHashes
  }

  /** The asset has chunks, all in the block of the first. */
  ghost predicate SingleBlock(v: VersionIndex, a: nat, ix: ContentIndex)
    requires VersionShape(v) && a < |v.names| && ContentOk(ix)
  {
    && v.assetChunkCounts[a] > 0
    && forall c :: 0 <= c < v.assetChunkCounts[a] ==>
         Lookup(ix.chunkHashes, ix.chunkBlockIndexes, HashOf(v, a, c)) ==
             Lookup(ix.chunkHashes, ix.chunkBlockIndexes, HashOf(v, a, 0))
  }

  /** The table finds the first block of every chunk. */
  ghost predicate FindsBlocks(table: LookupTable, ix: ContentIndex)
    requires ContentOk(ix)
    reads table, table.Repr
    ensures FindsBlocks(table, ix) ==> table.Valid()
  {
    table.Valid() && forall h :: table.Find(h) == Lookup(ix.chunkHashes, ix.chunkBlockIndexes, h)
  }

  /** Looks at all chunks of an asset, also when it is clear that it needs more blocks. */
  method CheckAsset(v: VersionIndex, a: nat, table: LookupTable, ghost ix: ContentIndex)
    returns (err: Option<Errno>, single: bool)
    requires VersionShape(v) && a < |v.names| && ContentOk(ix) && FindsBlocks(table, ix) && v.assetChunkCounts[a] > 0
    ensures err == (if InContent(v, a, ix) then None else Some(ENOENT))
    ensures err == None ==> (single <==> SingleBlock(v, a, ix))
  {
    hide LookupTable.Valid, FirstMatch, Lookup;
    assert HasChunk(v, a, 0);
    var first := table.Get(ChunkHash(v, a, 0));
    LookupPresent(ix.chunkHashes, ix.chunkBlockIndexes, HashOf(v, a, 0));
    if first.None? {
      return Some(ENOENT), false;
    }
    single := true;
    for c := 1 to v.assetChunkCounts[a]
      invariant forall i :: 0 <= i < c ==> HashOf(v, a, i) in ix.chunkHashes
      invariant single <==> forall i :: 0 <= i < c ==>
                  Lookup(ix.chunkHashes, ix.chunkBlockIndexes, HashOf(v, a, i)) == first
    {
      LookupPresent(ix.chunkHashes, ix.chunkBlockIndexes, HashOf(v, a, c));
      var next := table.Get(ChunkHash(v, a, c));
      if next.None? {
        return Some(ENOENT), false;
      }
      if first.value != next.value {
        single := false;
      }
    }
    err := None;
  }

  function ChunkHash(v: VersionIndex, a: nat, c: nat): (h: nat)
    requires VersionShape(v) && a < |v.names| && c < v.assetChunkCounts[a]
    ensures h == HashOf(v, a, c)
  {
    v.chunkHashes[v.assetChunkIndexes[v.assetChunkIndexStarts[a] + c]]
  }

  /** The list splits into assets written from one block and the others. */
  ghost predicate SplitsInto(list: seq<nat>, blockJobs: seq<nat>, assetJobs: seq<nat>, v: VersionIndex,
                             ix: ContentIndex)
    requires VersionShape(v) && ContentOk(ix)
    requires forall k :: 0 <= k < |list| ==> list[k] < |v.names|
  {
    && (forall a :: a in blockJobs <==> a in list && a < |v.names| && SingleBlock(v, a, ix))
    && (forall a :: a in assetJobs <==> a in list && a < |v.names| && !SingleBlock(v, a, ix))
    && Distinct(blockJobs) && Distinct(assetJobs)
  }

  lemma SplitNext(list: seq<nat>, i: nat, blockJobs: seq<nat>, assetJobs: seq<nat>, v: VersionIndex, ix: ContentIndex)
    requires VersionShape(v) && ContentOk(ix) && Distinct(list) && i < |list|
    requires forall k :: 0 <= k < |list| ==> list[k] < |v.names|
    requires SplitsInto(list[..i], blockJobs, assetJobs, v, ix)
    ensures SingleBlock(v, list[i], ix) ==> SplitsInto(list[..i + 1], blockJobs + [list[i]], assetJobs, v, ix)
    ensures !SingleBlock(v, list[i], ix) ==> SplitsInto(list[..i + 1], blockJobs, assetJobs + [list[i]], v, ix)
  {
    hide SingleBlock, VersionShape, ContentOk;
    assert list[..i + 1] == list[..i] + [list[i]];
    assert list[i] !in list[..i];
  }

  /** The block of the first chunk of an asset. */
  function FirstBlock(v: VersionIndex, ix: ContentIndex, a: nat): nat {
    if && a < |v.assetChunkCounts| && v.assetChunkCounts[a] > 0 && a < |v.assetChunkIndexStarts|
       && v.assetChunkIndexStarts[a] < |v.assetChunkIndexes|
            && v.assetChunkIndexes[v.assetChunkIndexStarts[a]] < |v.chunkHashes|
       && |ix.chunkHashes| == |ix.chunkBlockIndexes|
    then
      match Lookup(ix.chunkHashes, ix.chunkBlockIndexes, v.chunkHashes[v.assetChunkIndexes[v.assetChunkIndexStarts[a]]])
      case Some(block) => block
      case None => 0
    else 0
  }

  function BlockOrder(v: VersionIndex, ix: ContentIndex): (nat, nat) -> bool {
    (a: nat, b: nat) => FirstBlock(v, ix, a) <= FirstBlock(v, ix, b)
  }

  /** Sorts the assets that are written from one block by that block. */
  method SortBlockJobs(v: VersionIndex, ix: ContentIndex, jobs: seq<nat>) returns (sorted: seq<nat>)
    ensures SortedBy(sorted, BlockOrder(v, ix)) && multiset(sorted) == multiset(jobs)
  {
    hide FirstBlock;
    var a := new nat[|jobs|](k requires 0 <= k < |jobs| => jobs[k]);
    assert a[..|jobs|] == jobs;
    Qsort(a, |jobs|, BlockOrder(v, ix));
    sorted := a[..|jobs|];
  }

  lemma SplitPermuted(list: seq<nat>, blockJobs: seq<nat>, sorted: seq<nat>, assetJobs: seq<nat>, v: VersionIndex,
                      ix: ContentIndex)
    requires VersionShape(v) && ContentOk(ix) && forall k :: 0 <= k < |list| ==> list[k] < |v.names|
    requires SplitsInto(list, blockJobs, assetJobs, v, ix) && multiset(blockJobs) == multiset(sorted)
    ensures SplitsInto(list, sorted, assetJobs, v, ix)
  {
    hide SingleBlock, VersionShape, ContentOk;
    SameElems(blockJobs, sorted);
    DistinctPermutation(blockJobs, sorted);
  }

  method BuildAssetWriteList(v: VersionIndex, list: seq<nat>, table: LookupTable, ix: ContentIndex)
    returns (err: Option<Errno>, blockJobs: seq<nat>, assetJobs: seq<nat>)
    requires VersionShape(v) && ContentOk(ix) && FindsBlocks(table, ix) && Distinct(list)
    requires forall k :: 0 <= k < |list| ==> list[k] < |v.names|
    ensures err == if forall k :: 0 <= k < |list| ==> InContent(v, list[k], ix) then None else Some(ENOENT)
    ensures err == None ==> SplitsInto(list, blockJobs, assetJobs, v, ix) && SortedBy(blockJobs, BlockOrder(v, ix))
  {
    hide FindsBlocks, SplitsInto, SortedBy, BlockOrder;
    blockJobs, assetJobs := [], [];
    NothingSplit(list[..0], v, ix);
    for i := 0 to |list|
      invariant forall k :: 0 <= k < i ==> InContent(v, list[k], ix)
      invariant SplitsInto(list[..i], blockJobs, assetJobs, v, ix)
    {
      SplitNext(list, i, blockJobs, assetJobs, v, ix);
      if v.assetChunkCounts[list[i]] == 0 {
        assetJobs := assetJobs + [list[i]];
        continue;
      }
      var e, single := CheckAsset(v, list[i], table, ix);
      if e.Some? {
        return e, blockJobs, assetJobs;
      }
      if single {
        blockJobs := blockJobs + [list[i]];
      } else {
        assetJobs := assetJobs + [list[i]];
      }
    }
    assert list[..|list|] == list;
    var sorted := SortBlockJobs(v, ix, blockJobs);
    SplitPermuted(list, blockJobs, sorted, assetJobs, v, ix);
    err, blockJobs := None, sorted;
  }

  lemma NothingSplit(list: seq<nat>, v: VersionIndex, ix: ContentIndex)
    requires list == [] && VersionShape(v) && ContentOk(ix)
    ensures SplitsInto(list, [], [], v, ix)
  {
  }

  // ----- One job for every block -----

  /** The job that writes `count` assets from one block, from entry `first` of the list. */
  datatype BlockJob = BlockJob(block: nat, first: nat, count: nat)

  /** The entry after those of the jobs. */
  function End(jobs: seq<BlockJob>): nat {
    if jobs == [] then 0 else jobs[|jobs| - 1].first + jobs[|jobs| - 1].count
  }

  /** The jobs take adjacent entries from the first on, each those of its block up to the
      next entry with another one. */
  ghost predicate TakesRuns(jobs: seq<BlockJob>, blockOf: seq<nat>) {
    && End(jobs) <= |blockOf|
    && (jobs != [] ==> jobs[0].first == 0)
    && (forall i, j :: 0 <= i && j == i + 1 < |jobs| ==>
        jobs[j].first == jobs[i].first + jobs[i].count && jobs[j].block != jobs[i].block)
    && (forall i :: 0 <= i < |jobs| ==> jobs[i].count > 0 && jobs[i].first + jobs[i].count <= |blockOf|)
    && (forall i, k :: 0 <= i < |jobs| && jobs[i].first <= k < jobs[i].first + jobs[i].count && k < |blockOf| ==>
        blockOf[k] == jobs[i].block)
  }

  lemma TakesNextRun(jobs: seq<BlockJob>, blockOf: seq<nat>, job: BlockJob)
    requires TakesRuns(jobs, blockOf) && job.first == End(jobs) && job.count > 0 && job.first + job.count <= |blockOf|
    requires forall k :: job.first <= k < job.first + job.count ==> blockOf[k] == job.block
    requires jobs != [] ==> jobs[|jobs| - 1].block != job.block
    ensures TakesRuns(jobs + [job], blockOf)
  {
  }

  method CreateBlockJobs(blockOf: seq<nat>) returns (jobs: seq<BlockJob>)
    ensures TakesRuns(jobs, blockOf) && End(jobs) == |blockOf| && |jobs| <= |blockOf|
  {
    hide TakesRuns;
    jobs := [];
    var j := 0;
    NoRuns(blockOf);
    while j < |blockOf|
      invariant TakesRuns(jobs, blockOf) && End(jobs) == j <= |blockOf| && |jobs| <= j
      invariant jobs != [] && j < |blockOf| ==> jobs[|jobs| - 1].block != blockOf[j]
    {
      var first, block := j, blockOf[j];
      j := j + 1;
      while j < |blockOf| && blockOf[j] == block
        invariant first < j <= |blockOf| && forall k :: first <= k < j ==> blockOf[k] == block
      {
        j := j + 1;
      }
      TakesNextRun(jobs, blockOf, BlockJob(block, first, j - first));
      jobs := jobs + [BlockJob(block, first, j - first)];
    }
  }

  lemma NoRuns(blockOf: seq<nat>)
    ensures TakesRuns([], blockOf)
  {
  }

  /** The block of each asset of a list. */
  function BlocksOfList(v: VersionIndex, ix: ContentIndex, list: seq<nat>): (r: seq<nat>)
    ensures |r| == |list| && forall k :: 0 <= k < |r| ==> r[k] == FirstBlock(v, ix, list[k])
  {
    seq(|list|, k requires 0 <= k < |list| => FirstBlock(v, ix, list[k]))
  }

  lemma {:induction false} RunsAscend(jobs: seq<BlockJob>, blockOf: seq<nat>, i: nat, j: nat)
    requires TakesRuns(jobs, blockOf) && i < j < |jobs|
    requires forall k, l :: 0 <= k < l < |blockOf| ==> blockOf[k] <= blockOf[l]
    ensures jobs[i].block < jobs[j].block
  {
    var h := j - 1;
    assert blockOf[jobs[h].first] == jobs[h].block && blockOf[jobs[j].first] == jobs[j].block;
    if i < h {
      RunsAscend(jobs, blockOf, i, h);
    }
  }

  /** Every block is read by one job only: the list was sorted by block. */
  lemma EveryBlockReadOnce(v: VersionIndex, ix: ContentIndex, blockJobs: seq<nat>, jobs: seq<BlockJob>)
    requires SortedBy(blockJobs, BlockOrder(v, ix)) && TakesRuns(jobs, BlocksOfList(v, ix, blockJobs))
    ensures forall i, j :: 0 <= i < j < |jobs| ==> jobs[i].block != jobs[j].block
  {
    hide TakesRuns, FirstBlock;
    var blockOf := BlocksOfList(v, ix, blockJobs);
    forall k, l | 0 <= k < l < |blockOf|
      ensures blockOf[k] <= blockOf[l]
    {
      assert BlockOrder(v, ix)(blockJobs[k], blockJobs[l]);
    }
    forall i, j | 0 <= i < j < |jobs|
      ensures jobs[i].block != jobs[j].block
    {
      RunsAscend(jobs, blockOf, i, j);
    }
  }

  /** All chunks of an asset are in the block of its job. */
  lemma JobBlockHoldsAsset(v: VersionIndex, ix: ContentIndex, list: seq<nat>, blockJobs: seq<nat>, assetJobs: seq<nat>,
                           jobs: seq<BlockJob>, i: nat, k: nat, c: nat)
    requires VersionShape(v) && ContentOk(ix) && forall n :: 0 <= n < |list| ==>
               list[n] < |v.names| && InContent(v, list[n], ix)
    requires SplitsInto(list, blockJobs, assetJobs, v, ix)
    requires TakesRuns(jobs, BlocksOfList(v, ix, blockJobs))
    requires i < |jobs| && jobs[i].first <= k < jobs[i].first + jobs[i].count
    ensures k < |blockJobs| && blockJobs[k] in list && blockJobs[k] < |v.names|
    ensures c < v.assetChunkCounts[blockJobs[k]] ==>
              Lookup(ix.chunkHashes, ix.chunkBlockIndexes, HashOf(v, blockJobs[k], c)) == Some(jobs[i].block)
  {
    hide Lookup;
    var a := blockJobs[k];
    assert a in blockJobs;
    var n :| 0 <= n < |list| && list[n] == a;
    assert InContent(v, a, ix) && SingleBlock(v, a, ix);
    LookupPresent(ix.chunkHashes, ix.chunkBlockIndexes, HashOf(v, a, 0));
    assert BlocksOfList(v, ix, blockJobs)[k] == jobs[i].block;
  }

  /** Every entry of the list belongs to a job. */
  lemma {:induction false} EntryHasJob(jobs: seq<BlockJob>, blockOf: seq<nat>, k: nat) returns (i: nat)
    requires TakesRuns(jobs, blockOf) && k < End(jobs)
    ensures i < |jobs| && jobs[i].first <= k < jobs[i].first + jobs[i].count
  {
    var last := |jobs| - 1;
    if jobs[last].first <= k {
      i := last;
    } else {
      i := EntryHasJob(jobs[..last], blockOf, k);
    }
  }
}

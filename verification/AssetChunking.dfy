/** Chunking the files of a version (src/longtail.c): large files are split into parts
    that jobs chunk side by side, each into its own slots of shared arrays; the results
    are then compacted and chunks that repeat are listed once. */
module AssetChunking {
  import opened Prelude
  import opened RollingHash
  import opened Chunking
  import opened LookupTables
  import opened Packing
  import Storages

  datatype SourceFile = SourceFile(path: string, data: seq<byte>, tag: nat)

  // ----- What the chunks of a file are -----

  /** The chunks of a part: a part that is not longer than a window is one chunk. */
  function PartChunks(p: Params, part: seq<byte>): (cs: seq<seq<byte>>)
    requires Ok(p)
  {
    if part == [] then [] else if |part| <= WINDOW then [part] else Chunks(p, part)
  }

  /** The chunks of a part concatenate to it, none is empty or too long, and they fit into
      the slots that are set aside. */
  lemma PartChunksCover(p: Params, part: seq<byte>)
    requires Ok(p)
    ensures Flatten(PartChunks(p, part)) == part && |PartChunks(p, part)| <= MaxChunkCount(|part|)
    ensures forall i :: 0 <= i < |PartChunks(p, part)| ==> 0 < |PartChunks(p, part)[i]| <= p.max
  {
    hide Chunks;
    ChunksCover(p, part);
    ChunkCountBound(p, part);
    assert [part][1..] == [] && part + [] == part;
  }

  function PartSize(rest: nat, max: nat): nat {
    if rest > max then max else rest
  }

  /** The chunks of a file from a part on. */
  function ChunksFrom(p: Params, data: seq<byte>, start: nat, max: nat): seq<seq<byte>>
    requires Ok(p) && start <= |data| && max > 0
    decreases |data| - start
  {
    var n := PartSize(|data| - start, max);
    PartChunks(p, data[start..start + n]) + if |data| - start < max then [] else ChunksFrom(p, data, start + max, max)
  }

  /** The chunks of a file; a directory has none. */
  function FileChunks(p: Params, f: SourceFile, max: nat): seq<seq<byte>>
    requires Ok(p) && max > 0
  {
    if Storages.IsDirPath(f.path) then [] else ChunksFrom(p, f.data, 0, max)
  }

  lemma {:induction false} ChunksFromCover(p: Params, data: seq<byte>, start: nat, max: nat)
    requires Ok(p) && start <= |data| && max > 0
    ensures Flatten(ChunksFrom(p, data, start, max)) == data[start..]
    decreases |data| - start
  {
    hide PartChunks, Flatten, Ok;
    var n := PartSize(|data| - start, max);
    var part := data[start..start + n];
    PartChunksCover(p, part);
    if |data| - start < max {
      assert PartChunks(p, part) + [] == PartChunks(p, part);
    } else {
      ChunksFromCover(p, data, start + max, max);
      FlattenConcat(PartChunks(p, part), ChunksFrom(p, data, start + max, max));
      assert data[start..] == part + data[start + max..];
    }
  }

  /** The chunks of a file concatenate to its content. */
  lemma FileChunksCover(p: Params, f: SourceFile, max: nat)
    requires Ok(p) && max > 0 && !Storages.IsDirPath(f.path)
    ensures Flatten(FileChunks(p, f, max)) == f.data
  {
    ChunksFromCover(p, f.data, 0, max);
  }

  // ----- Where the chunks of a file end -----

  /** What is left of the part that the position lies in; parts have max bytes. */
  ghost function PartRest(data: seq<byte>, at: nat, max: nat): (rest: seq<byte>)
    requires at < |data| && max > 0
    ensures 0 < |rest| <= |data| - at
  {
    DivFits(at, max);
    data[at..Min(|data|, (at / max + 1) * max)]
  }

  lemma DivFits(at: nat, max: nat)
    requires max > 0
    ensures at / max * max <= at < (at / max + 1) * max
  {
  }

  lemma DivIs(at: nat, k: nat, max: nat)
    requires max > 0 && k * max <= at < (k + 1) * max
    ensures at / max == k
  {
    DivFits(at, max);
    if at / max < k {
      MulMonotone(at / max + 1, k, max);
    } else if at / max > k {
      MulMonotone(k + 1, at / max, max);
    }
  }

  /** Behind the rest of the data, the chunk ends where what is left of its part is cut. */
  ghost predicate CutAt(p: Params, data: seq<byte>, max: nat, left: nat, n: nat)
    requires Ok(p) && max > 0
  {
    0 < left <= |data| && n > 0 && CutsAt(p, PartRest(data, |data| - left, max), n)
  }

  /** Every chunk ends at the first boundary, or where a chunk or a part must end. */
  ghost predicate CutInParts(p: Params, data: seq<byte>, max: nat, cs: seq<seq<byte>>)
    requires Ok(p) && max > 0
  {
    forall i :: 0 <= i < |cs| ==> CutAt(p, data, max, |Flatten(cs[i..])|, |cs[i]|)
  }

  lemma PartChunksCut(p: Params, part: seq<byte>)
    requires Ok(p)
    ensures var cs := PartChunks(p, part);
            forall i :: 0 <= i < |cs| ==> cs[i] != [] && CutsAt(p, Flatten(cs[i..]), |cs[i]|)
  {
    hide Chunks, BoundaryAt;
    if |part| > WINDOW {
      ChunksIff(p, part, Chunks(p, part));
    } else if part != [] {
      assert [part][0..] == [part] && [part][1..] == [];
    }
  }

  /** What is left of a part, inside it. */
  lemma RestOfPart(data: seq<byte>, k: nat, max: nat, part: seq<byte>, done: seq<byte>, left: seq<byte>)
    requires max > 0 && k * max + |part| <= |data| && part == data[k * max..Min(|data|, (k + 1) * max)]
    requires part == done + left && left != []
    ensures k * max + |done| < |data| && PartRest(data, k * max + |done|, max) == left
  {
    DivIs(k * max + |done|, k, max);
  }

  /** The chunks of one part, and those of the parts behind it. */
  lemma PartThenRest(p: Params, data: seq<byte>, k: nat, max: nat, part: seq<byte>, cs: seq<seq<byte>>,
                     tail: seq<seq<byte>>)
    requires Ok(p) && max > 0 && k * max + |part| <= |data|
    requires part == data[k * max..Min(|data|, (k + 1) * max)]
    requires Flatten(cs) == part && forall i :: 0 <= i < |cs| ==> cs[i] != [] && CutsAt(p, Flatten(cs[i..]), |cs[i]|)
    requires Flatten(tail) == data[k * max + |part|..] && CutInParts(p, data, max, tail)
    ensures CutInParts(p, data, max, cs + tail)
  {
    hide CutsAt, Ok, Flatten, PartRest;
    forall i | 0 <= i < |cs + tail|
      ensures CutAt(p, data, max, |Flatten((cs + tail)[i..])|, |(cs + tail)[i]|)
    {
      if i < |cs| {
        ChunkOfPart(p, data, k, max, part, cs, tail, i);
      } else {
        assert (cs + tail)[i..] == tail[i - |cs|..];
      }
    }
  }

  lemma ChunkOfPart(p: Params, data: seq<byte>, k: nat, max: nat, part: seq<byte>, cs: seq<seq<byte>>,
                    tail: seq<seq<byte>>, i: nat)
    requires Ok(p) && max > 0 && k * max + |part| <= |data| && i < |cs|
    requires part == data[k * max..Min(|data|, (k + 1) * max)]
    requires Flatten(cs) == part && cs[i] != [] && CutsAt(p, Flatten(cs[i..]), |cs[i]|)
    requires Flatten(tail) == data[k * max + |part|..]
    ensures CutAt(p, data, max, |Flatten((cs + tail)[i..])|, |cs[i]|)
  {
    hide CutsAt, Ok, Flatten, PartRest;
    var left := Flatten(cs[i..]);
    assert (cs + tail)[i..] == cs[i..] + tail;
    FlattenConcat(cs[i..], tail);
    assert cs == cs[..i] + cs[i..];
    FlattenConcat(cs[..i], cs[i..]);
    HeadFlattens(cs[i..]);
    RestOfPart(data, k, max, part, Flatten(cs[..i]), left);
  }

  lemma HeadFlattens(cs: seq<seq<byte>>)
    requires cs != [] && cs[0] != []
    ensures |Flatten(cs)| > 0
  {
  }

  lemma {:induction false} ChunksFromCut(p: Params, data: seq<byte>, k: nat, max: nat)
    requires Ok(p) && max > 0 && k * max <= |data|
    ensures CutInParts(p, data, max, ChunksFrom(p, data, k * max, max))
    decreases |data| - k * max
  {
    hide CutsAt, Ok, Flatten, PartChunks, CutInParts;
    var start := k * max;
    var n := PartSize(|data| - start, max);
    var part := data[start..start + n];
    assert (k + 1) * max == start + max;
    PartChunksCut(p, part);
    PartChunksCover(p, part);
    if |data| - start < max {
      NothingCut(p, data, max);
      PartThenRest(p, data, k, max, part, PartChunks(p, part), []);
      assert PartChunks(p, part) + [] == PartChunks(p, part);
    } else {
      ChunksFromCut(p, data, k + 1, max);
      ChunksFromCover(p, data, start + max, max);
      PartThenRest(p, data, k, max, part, PartChunks(p, part), ChunksFrom(p, data, start + max, max));
    }
  }

  lemma NothingCut(p: Params, data: seq<byte>, max: nat)
    requires Ok(p) && max > 0
    ensures CutInParts(p, data, max, []) && Flatten<byte>([]) == []
  {
  }

  /** There is one way to cut the same bytes. */
  lemma {:induction false} OneCutting(p: Params, data: seq<byte>, max: nat, a: seq<seq<byte>>, b: seq<seq<byte>>)
    requires Ok(p) && max > 0 && Flatten(a) == Flatten(b) && CutInParts(p, data, max, a) && CutInParts(p, data, max, b)
    ensures a == b
    decreases |a|
  {
    hide CutsAt, Ok, PartRest;
    if a != [] && b != [] {
      assert a[0..] == a && b[0..] == b;
      assert CutAt(p, data, max, |Flatten(a)|, |a[0]|) && CutAt(p, data, max, |Flatten(b)|, |b[0]|);
      var rest := PartRest(data, |data| - |Flatten(a)|, max);
      ChunkLenIff(p, rest, |a[0]|);
      ChunkLenIff(p, rest, |b[0]|);
      assert a[0] == Flatten(a)[..|a[0]|] == b[0];
      assert Flatten(a[1..]) == Flatten(a)[|a[0]|..] == Flatten(b[1..]);
      forall i | 0 <= i < |a[1..]|
        ensures CutAt(p, data, max, |Flatten(a[1..][i..])|, |a[1..][i]|)
      {
        assert a[1..][i..] == a[i + 1..];
      }
      forall i | 0 <= i < |b[1..]|
        ensures CutAt(p, data, max, |Flatten(b[1..][i..])|, |b[1..][i]|)
      {
        assert b[1..][i..] == b[i + 1..];
      }
      OneCutting(p, data, max, a[1..], b[1..]);
      assert a == [a[0]] + a[1..] && b == [b[0]] + b[1..];
    }
  }

  /** The chunks of a file are the one way to cut its bytes at the first boundaries, with
      every part cut on its own. */
  lemma FileChunksIff(p: Params, f: SourceFile, max: nat, cs: seq<seq<byte>>)
    requires Ok(p) && max > 0 && !Storages.IsDirPath(f.path)
    ensures cs == FileChunks(p, f, max) <==> Flatten(cs) == f.data && CutInParts(p, f.data, max, cs)
  {
    hide CutInParts, ChunksFrom, Ok, Flatten;
    FileChunksCover(p, f, max);
    ChunksFromCut(p, f.data, 0, max);
    if Flatten(cs) == f.data && CutInParts(p, f.data, max, cs) {
      OneCutting(p, f.data, max, cs, FileChunks(p, f, max));
    }
  }

  // ----- Planning the jobs -----

  /** A job: the part of an asset it chunks, and the slots its results go to. */
  datatype HashJob = HashJob(asset: nat, start: nat, size: nat, maxCount: nat, at: nat)

  function SlotsOf(jobs: seq<HashJob>): nat {
    if jobs == [] then 0 else SlotsOf(jobs[..|jobs| - 1]) + jobs[|jobs| - 1].maxCount
  }

  /** The parts of an asset from `start` on. */
  function PartsFrom(a: nat, size: nat, start: nat, at: nat, max: nat): (jobs: seq<HashJob>)
    requires start <= size && max > 0
    ensures |jobs| > 0
    decreases size - start
  {
    var n := PartSize(size - start, max);
    [HashJob(a, start, n, MaxChunkCount(n), at)]
    + if size - start < max then [] else PartsFrom(a, size, start + max, at + MaxChunkCount(n), max)
  }

  function JobsOf(files: seq<SourceFile>, max: nat): seq<HashJob>
    requires max > 0
  {
    if files == [] then []
    else
      var a := |files| - 1;
      var before := JobsOf(files[..a], max);
      before + PartsFrom(a, |files[a].data|, 0, SlotsOf(before), max)
  }

  /** Jobs use adjacent slots, in order. */
  ghost predicate Laid(jobs: seq<HashJob>) {
    forall j :: 0 <= j < |jobs| ==> jobs[j].at == SlotsOf(jobs[..j])
  }

  lemma SlotsNext(jobs: seq<HashJob>, j: nat)
    requires j < |jobs|
    ensures SlotsOf(jobs[..j + 1]) == SlotsOf(jobs[..j]) + jobs[j].maxCount
  {
    assert jobs[..j + 1][..j] == jobs[..j];
  }

  lemma {:induction false} SlotsMonotone(jobs: seq<HashJob>, i: nat, j: nat)
    requires i <= j <= |jobs|
    ensures SlotsOf(jobs[..i]) <= SlotsOf(jobs[..j])
    decreases j - i
  {
    if i < j {
      SlotsMonotone(jobs, i, j - 1);
      SlotsNext(jobs, j - 1);
    }
  }

  lemma LaidSnoc(jobs: seq<HashJob>, job: HashJob)
    requires Laid(jobs) && job.at == SlotsOf(jobs)
    ensures Laid(jobs + [job]) && SlotsOf(jobs + [job]) == SlotsOf(jobs) + job.maxCount
  {
    var all := jobs + [job];
    assert all[..|jobs|] == jobs;
    forall j | 0 <= j < |all|
      ensures all[j].at == SlotsOf(all[..j])
    {
      if j < |jobs| {
        assert all[..j] == jobs[..j];
      }
    }
  }

  lemma PartsCons(a: nat, size: nat, start: nat, at: nat, max: nat)
    requires start <= size && max > 0
    ensures var n := PartSize(size - start, max);
            var job := HashJob(a, start, n, MaxChunkCount(n), at);
            PartsFrom(a, size, start, at, max) ==
            if size - start < max then [job] else [job] + PartsFrom(a, size, start + max, at + MaxChunkCount(n), max)
  {
    hide MaxChunkCount;
  }

  lemma {:induction false} PartsLaid(before: seq<HashJob>, a: nat, size: nat, start: nat, max: nat)
    requires start <= size && max > 0 && Laid(before)
    ensures Laid(before + PartsFrom(a, size, start, SlotsOf(before), max))
    decreases size - start
  {
    hide Laid, SlotsOf, PartsFrom, MaxChunkCount;
    var n, at := PartSize(size - start, max), SlotsOf(before);
    var job := HashJob(a, start, n, MaxChunkCount(n), at);
    LaidSnoc(before, job);
    PartsCons(a, size, start, at, max);
    if size - start >= max {
      PartsLaid(before + [job], a, size, start + max, max);
      var rest := PartsFrom(a, size, start + max, at + MaxChunkCount(n), max);
      assert before + ([job] + rest) == before + [job] + rest;
    }
  }

  lemma {:induction false} JobsLaid(files: seq<SourceFile>, max: nat)
    requires max > 0
    ensures Laid(JobsOf(files, max))
  {
    hide PartsFrom, SlotsOf;
    if files != [] {
      var a := |files| - 1;
      JobsLaid(files[..a], max);
      PartsLaid(JobsOf(files[..a], max), a, |files[a].data|, 0, max);
    }
  }

  /** No two jobs share a slot, and the slots of all end at their sum. */
  lemma SlotsDisjoint(jobs: seq<HashJob>, i: nat, j: nat)
    requires Laid(jobs) && i < j < |jobs|
    ensures jobs[i].at + jobs[i].maxCount <= jobs[j].at
    ensures jobs[j].at + jobs[j].maxCount <= SlotsOf(jobs)
  {
    SlotsNext(jobs, i);
    SlotsMonotone(jobs, i + 1, j);
    SlotEnds(jobs, j);
  }

  lemma SlotEnds(jobs: seq<HashJob>, j: nat)
    requires Laid(jobs) && j < |jobs|
    ensures jobs[j].at + jobs[j].maxCount <= SlotsOf(jobs)
  {
    SlotsNext(jobs, j);
    SlotsMonotone(jobs, j + 1, |jobs|);
    assert jobs[..|jobs|] == jobs;
  }

  /** Where part k starts. */
  function PartStart(k: nat, max: nat): nat {
    k * max
  }

  /** There are 1 + size / max parts, and the last is the one that is not full. */
  lemma PartStartFits(k: nat, size: nat, max: nat)
    requires max > 0 && k <= size / max
    ensures PartStart(0, max) == 0 && PartStart(k, max) <= size && PartStart(k + 1, max) == PartStart(k, max) + max
    ensures k == size / max <==> size - PartStart(k, max) < max
  {
    MulMonotone(k, size / max, max);
    assert (k + 1) * max == k * max + max;
    if k < size / max {
      MulMonotone(k + 1, size / max, max);
    }
  }

  /** The parts of an asset from part k on. */
  function RestOfParts(a: nat, size: nat, k: nat, at: nat, max: nat): seq<HashJob>
    requires max > 0
  {
    if PartStart(k, max) <= size then PartsFrom(a, size, PartStart(k, max), at, max) else []
  }

  /** One round of the loops over the parts. */
  lemma RestNext(a: nat, size: nat, k: nat, at: nat, max: nat)
    requires max > 0 && k <= size / max
    ensures PartStart(k, max) <= size
    ensures var n := PartSize(size - PartStart(k, max), max);
            var job := HashJob(a, PartStart(k, max), n, MaxChunkCount(n), at);
            RestOfParts(a, size, k, at, max) == [job] + RestOfParts(a, size, k + 1, at + MaxChunkCount(n), max)
  {
    hide PartStart, MaxChunkCount;
    PartStartFits(k, size, max);
    if k < size / max {
      PartStartFits(k + 1, size, max);
    }
  }

  lemma RestEnds(a: nat, size: nat, at: nat, max: nat)
    requires max > 0
    ensures RestOfParts(a, size, 0, at, max) == PartsFrom(a, size, 0, at, max)
    ensures RestOfParts(a, size, 1 + size / max, at, max) == []
  {
    hide PartsFrom, PartStart;
    PartStartFits(0, size, max);
    PartStartFits(size / max, size, max);
  }

  lemma {:induction false} SlotsConcat(a: seq<HashJob>, b: seq<HashJob>)
    ensures SlotsOf(a + b) == SlotsOf(a) + SlotsOf(b)
  {
    if b == [] {
      assert a + b == a;
    } else {
      SlotsConcat(a, b[..|b| - 1]);
      assert (a + b)[..|a + b| - 1] == a + b[..|b| - 1];
    }
  }

  /** The number of jobs and slots of one asset. */
  method CountParts(ghost a: nat, size: nat, ghost at: nat, max: nat) returns (jobCount: nat, slots: nat)
    requires max > 0
    ensures jobCount == |PartsFrom(a, size, 0, at, max)| && slots == SlotsOf(PartsFrom(a, size, 0, at, max))
  {
    hide RestOfParts, PartsFrom, SlotsOf, PartStart, PartSize, MaxChunkCount;
    var partCount := 1 + size / max;
    jobCount, slots := 0, 0;
    RestEnds(a, size, at, max);
    NoSlots();
    for k := 0 to partCount
      invariant jobCount == k
      invariant |PartsFrom(a, size, 0, at, max)| == k + |RestOfParts(a, size, k, at + slots, max)|
      invariant SlotsOf(PartsFrom(a, size, 0, at, max)) == slots + SlotsOf(RestOfParts(a, size, k, at + slots, max))
    {
      RestNext(a, size, k, at + slots, max);
      var start := PartStart(k, max);
      var n := PartSize(size - start, max);
      OneJob(HashJob(a, start, n, MaxChunkCount(n), at + slots),
             RestOfParts(a, size, k + 1, at + slots + MaxChunkCount(n), max));
      jobCount, slots := jobCount + 1, slots + MaxChunkCount(n);
    }
    RestEnds(a, size, at + slots, max);
  }

  lemma OneJob(job: HashJob, rest: seq<HashJob>)
    ensures SlotsOf([job] + rest) == job.maxCount + SlotsOf(rest)
  {
    SlotsConcat([job], rest);
    assert [job][..0] == [];
  }

  /** The number of jobs and slots of all assets. */
  method CountJobs(files: seq<SourceFile>, max: nat) returns (jobCount: nat, slots: nat)
    requires max > 0
    ensures jobCount == |JobsOf(files, max)| && slots == SlotsOf(JobsOf(files, max))
  {
    hide PartsFrom, SlotsOf;
    jobCount, slots := 0, 0;
    NoJobs(files, max);
    for a := 0 to |files|
      invariant jobCount == |JobsOf(files[..a], max)| && slots == SlotsOf(JobsOf(files[..a], max))
    {
      assert files[..a + 1][..a] == files[..a];
      var n, m := CountParts(a, |files[a].data|, slots, max);
      SlotsConcat(JobsOf(files[..a], max), PartsFrom(a, |files[a].data|, 0, SlotsOf(JobsOf(files[..a], max)), max));
      jobCount, slots := jobCount + n, slots + m;
    }
    assert files[..|files|] == files;
  }

  lemma NoJobs(files: seq<SourceFile>, max: nat)
    requires max > 0
    ensures JobsOf(files[..0], max) == [] && SlotsOf([]) == 0
  {
  }

  /** The jobs of one asset, and where the next slots are. */
  method CreateParts(a: nat, size: nat, at: nat, max: nat) returns (jobs: seq<HashJob>, next: nat)
    requires max > 0
    ensures jobs == PartsFrom(a, size, 0, at, max) && next == at + SlotsOf(jobs)
  {
    hide RestOfParts, PartsFrom, SlotsOf, PartStart, PartSize, MaxChunkCount;
    var partCount := 1 + size / max;
    jobs, next := [], at;
    RestEnds(a, size, at, max);
    NoSlots();
    for k := 0 to partCount
      invariant next == at + SlotsOf(jobs)
      invariant PartsFrom(a, size, 0, at, max) == jobs + RestOfParts(a, size, k, next, max)
    {
      RestNext(a, size, k, next, max);
      var start := PartStart(k, max);
      var n := PartSize(size - start, max);
      var job := HashJob(a, start, n, MaxChunkCount(n), next);
      LastJob(jobs, job);
      jobs, next := jobs + [job], next + MaxChunkCount(n);
    }
    RestEnds(a, size, next, max);
  }

  lemma LastJob(jobs: seq<HashJob>, job: HashJob)
    ensures SlotsOf(jobs + [job]) == SlotsOf(jobs) + job.maxCount
  {
    assert (jobs + [job])[..|jobs|] == jobs;
  }

  lemma NoSlots()
    ensures SlotsOf([]) == 0
  {
  }

  method CreateHashJobs(files: seq<SourceFile>, max: nat) returns (jobs: seq<HashJob>)
    requires max > 0
    ensures jobs == JobsOf(files, max)
  {
    hide PartsFrom, SlotsOf;
    jobs := [];
    var offset := 0;
    NoJobs(files, max);
    for a := 0 to |files|
      invariant jobs == JobsOf(files[..a], max) && offset == SlotsOf(jobs)
    {
      assert files[..a + 1][..a] == files[..a];
      var parts;
      parts, offset := CreateParts(a, |files[a].data|, offset, max);
      SlotsConcat(jobs, parts);
      jobs := jobs + parts;
    }
    assert files[..|files|] == files;
  }

  // ----- Running the jobs -----

  /** What the arrays hold for a chunk: its hash, size and tag. */
  function Describe(cs: seq<seq<byte>>, tag: nat, hashOf: seq<byte> -> nat): (r: seq<Chunk>)
    ensures |r| == |cs| && forall i :: 0 <= i < |r| ==> r[i] == Chunk(hashOf(cs[i]), |cs[i]|, tag)
  {
    seq(|cs|, i requires 0 <= i < |cs| => Chunk(hashOf(cs[i]), |cs[i]|, tag))
  }

  ghost predicate JobFits(files: seq<SourceFile>, job: HashJob) {
    && job.asset < |files| && job.start + job.size <= |files[job.asset].data|
    && job.maxCount == MaxChunkCount(job.size)
  }

  /** The results of a job. */
  function JobOutput(files: seq<SourceFile>, job: HashJob, p: Params, hashOf: seq<byte> -> nat): (out: seq<Chunk>)
    requires Ok(p) && JobFits(files, job)
  {
    var f := files[job.asset];
    if Storages.IsDirPath(f.path) then []
    else Describe(PartChunks(p, f.data[job.start..job.start + job.size]), f.tag, hashOf)
  }

  lemma OutputFits(files: seq<SourceFile>, job: HashJob, p: Params, hashOf: seq<byte> -> nat)
    requires Ok(p) && JobFits(files, job)
    ensures |JobOutput(files, job, p, hashOf)| <= job.maxCount
  {
    hide PartChunks, MaxChunkCount, Ok;
    PartChunksCover(p, files[job.asset].data[job.start..job.start + job.size]);
  }

  /** The slots of a job hold its results. */
  ghost predicate JobDone(files: seq<SourceFile>, job: HashJob, p: Params, hashOf: seq<byte> -> nat, slots: seq<Chunk>,
                          count: nat)
    requires Ok(p) && JobFits(files, job)
  {
    var out := JobOutput(files, job, p, hashOf);
    count == |out| && job.at + count <= |slots| && slots[job.at..job.at + count] == out
  }

  /** Chunks one part and writes the results to its slots; nothing else is written. */
  method DynamicChunking(files: seq<SourceFile>, job: HashJob, p: Params, hashOf: seq<byte> -> nat, slots: array<Chunk>)
    returns (count: nat)
    requires Ok(p) && JobFits(files, job) && job.at + job.maxCount <= slots.Length
    modifies slots
    ensures JobDone(files, job, p, hashOf, slots[..], count)
    ensures forall i :: 0 <= i < slots.Length && !(job.at <= i < job.at + job.maxCount) ==> slots[i] == old(slots[i])
  {
    hide Ok, PartChunks, MaxChunkCount;
    OutputFits(files, job, p, hashOf);
    var f := files[job.asset];
    count := 0;
    if Storages.IsDirPath(f.path) {
      return;
    }
    var part := f.data[job.start..job.start + job.size];
    if part == [] {
      NoPart(p);
      return;
    }
    if |part| <= WINDOW {
      SmallPart(p, part);
      slots[job.at] := Chunk(hashOf(part), |part|, f.tag);
      assert slots[..][job.at..job.at + 1] == [slots[job.at]];
      return 1;
    }
    LargePart(p, part);
    count := ChunkPart(part, f.tag, p, hashOf, slots, job.at, job.maxCount);
  }

  lemma NoPart(p: Params)
    requires Ok(p)
    ensures PartChunks(p, []) == []
  {
  }

  lemma SmallPart(p: Params, part: seq<byte>)
    requires Ok(p) && 0 < |part| <= WINDOW
    ensures PartChunks(p, part) == [part]
  {
  }

  lemma LargePart(p: Params, part: seq<byte>)
    requires Ok(p) && |part| > WINDOW
    ensures PartChunks(p, part) == Chunks(p, part)
  {
  }

  /** The bytes of the next chunk; none at the end. */
  method NextBytes(chunker: Chunker, feeder: Feeder) returns (chunk: seq<byte>)
    requires chunker.Valid() && feeder.Valid()
    modifies chunker, chunker.buf, chunker.window, feeder
    ensures chunker.Valid() && feeder.Valid()
    ensures chunk == old(chunker.Rest(feeder))[..ChunkLen(chunker.p, old(chunker.Rest(feeder)))]
    ensures chunker.Rest(feeder) == old(chunker.Rest(feeder))[|chunk|..]
  {
    hide Ok, ChunkLen;
    var r := chunker.NextChunk(feeder);
    chunk := chunker.buf[r.pos..r.pos + r.len];
  }

  /** Feeds a part through a chunker until it has no more chunks. */
  method ChunkPart(part: seq<byte>, tag: nat, p: Params, hashOf: seq<byte> -> nat, slots: array<Chunk>, at: nat,
                   ghost maxCount: nat)
    returns (count: nat)
    requires Ok(p) && |Chunks(p, part)| <= maxCount && at + maxCount <= slots.Length
    modifies slots
    ensures count == |Chunks(p, part)| && slots[at..at + count] == Describe(Chunks(p, part), tag, hashOf)
    ensures forall i :: 0 <= i < slots.Length && !(at <= i < at + count) ==> slots[i] == old(slots[i])
  {
    hide Ok, ChunkLen, Chunks, Chunker.Valid, Chunker.Rest;
    ghost var cs := Chunks(p, part);
    var chunker := new Chunker(p);
    var feeder := new Feeder(part);
    count := 0;
    StartOf(p, part, chunker, feeder);
    ghost var rest := part;
    var chunk := NextBytes(chunker, feeder);
    while |chunk| > 0
      invariant chunker.Valid() && feeder.Valid() && fresh(chunker) && fresh(feeder) && fresh(chunker.buf)
                  && fresh(chunker.window)
      invariant chunker.p == p && count <= |cs| && cs[count..] == Chunks(p, rest)
      invariant chunk == rest[..ChunkLen(p, rest)] && chunker.Rest(feeder) == rest[|chunk|..]
      invariant slots[at..at + count] == Describe(cs[..count], tag, hashOf)
      invariant forall i :: 0 <= i < slots.Length && !(at <= i < at + count) ==> slots[i] == old(slots[i])
      decreases |rest|
    {
      FirstChunk(p, rest, cs, count);
      StoreChunk(slots, at, count, Chunk(hashOf(chunk), |chunk|, tag));
      assert cs[..count + 1] == cs[..count] + [chunk];
      count := count + 1;
      rest := rest[|chunk|..];
      chunk := NextBytes(chunker, feeder);
    }
    NoneLeft(p, rest);
    assert cs[..count] == cs;
  }

  method StoreChunk(slots: array<Chunk>, at: nat, count: nat, c: Chunk)
    requires at + count < slots.Length
    modifies slots
    ensures slots[at..at + count + 1] == old(slots[at..at + count]) + [c]
    ensures forall i :: 0 <= i < slots.Length && i != at + count ==> slots[i] == old(slots[i])
  {
    slots[at + count] := c;
  }

  lemma StartOf(p: Params, part: seq<byte>, chunker: Chunker, feeder: Feeder)
    requires Ok(p) && chunker.Valid() && feeder.Valid() && chunker.off == chunker.len == 0 && feeder.offset == 0
               && feeder.data == part
    ensures chunker.Rest(feeder) == part && Chunks(p, part)[0..] == Chunks(p, part)
  {
  }

  lemma FirstChunk(p: Params, rest: seq<byte>, cs: seq<seq<byte>>, count: nat)
    requires Ok(p) && count <= |cs| && cs[count..] == Chunks(p, rest) && ChunkLen(p, rest) > 0
    ensures count < |cs| && cs[count] == rest[..ChunkLen(p, rest)] && rest != []
    ensures cs[count + 1..] == Chunks(p, rest[ChunkLen(p, rest)..])
  {
    hide ChunkLen;
    assert cs[count..][0] == cs[count] && cs[count + 1..] == cs[count..][1..];
  }

  lemma NoneLeft(p: Params, rest: seq<byte>)
    requires Ok(p) && ChunkLen(p, rest) == 0
    ensures Chunks(p, rest) == []
  {
  }

  ghost predicate AllFit(files: seq<SourceFile>, jobs: seq<HashJob>) {
    forall j :: 0 <= j < |jobs| ==> JobFits(files, jobs[j])
  }

  lemma {:induction false} PartsFit(a: nat, size: nat, start: nat, at: nat, max: nat)
    requires start <= size && max > 0
    ensures forall job :: job in PartsFrom(a, size, start, at, max) ==>
              job.asset == a && job.start + job.size <= size && job.maxCount == MaxChunkCount(job.size)
    decreases size - start
  {
    if size - start >= max {
      PartsFit(a, size, start + max, at + MaxChunkCount(PartSize(size - start, max)), max);
    }
  }

  lemma {:induction false} JobsFit(files: seq<SourceFile>, max: nat)
    requires max > 0
    ensures AllFit(files, JobsOf(files, max))
  {
    hide PartsFrom, SlotsOf, MaxChunkCount;
    if files != [] {
      var a := |files| - 1;
      var before := JobsOf(files[..a], max);
      JobsFit(files[..a], max);
      PartsFit(a, |files[a].data|, 0, SlotsOf(before), max);
      forall j | 0 <= j < |JobsOf(files, max)|
        ensures JobFits(files, JobsOf(files, max)[j])
      {
        if j < |before| {
          assert JobFits(files[..a], before[j]);
        } else {
          assert JobsOf(files, max)[j] in PartsFrom(a, |files[a].data|, 0, SlotsOf(before), max);
        }
      }
    }
  }

  /** Writing the slots of one job leaves the results of another. */
  lemma JobStaysDone(files: seq<SourceFile>, jobs: seq<HashJob>, i: nat, j: nat, p: Params, hashOf: seq<byte> -> nat,
                     before: seq<Chunk>, after: seq<Chunk>, count: nat)
    requires Ok(p) && AllFit(files, jobs) && Laid(jobs) && i < |jobs| && j < |jobs| && i != j
               && |before| == |after| == SlotsOf(jobs)
    requires forall k :: 0 <= k < |after| && !(jobs[j].at <= k < jobs[j].at + jobs[j].maxCount) ==>
               after[k] == before[k]
    requires JobDone(files, jobs[i], p, hashOf, before, count)
    ensures JobDone(files, jobs[i], p, hashOf, after, count)
  {
    hide JobOutput, Laid, Ok, MaxChunkCount;
    OutputFits(files, jobs[i], p, hashOf);
    if i < j {
      SlotsDisjoint(jobs, i, j);
    } else {
      SlotsDisjoint(jobs, j, i);
    }
    assert after[jobs[i].at..jobs[i].at + count] == before[jobs[i].at..jobs[i].at + count];
  }

  /** Runs the jobs in any order: each leaves its results in its own slots. */
  method RunHashJobs(files: seq<SourceFile>, jobs: seq<HashJob>, p: Params, hashOf: seq<byte> -> nat,
                     slots: array<Chunk>, counts: array<nat>)
    requires Ok(p) && AllFit(files, jobs) && Laid(jobs) && slots.Length == SlotsOf(jobs) && counts.Length == |jobs|
    modifies slots, counts
    ensures forall j :: 0 <= j < |jobs| ==> JobDone(files, jobs[j], p, hashOf, slots[..], counts[j])
  {
    hide JobOutput, Laid, Ok, JobDone, SlotsOf, JobFits;
    var pending := UpTo(|jobs|);
    while pending != {}
      invariant forall j :: j in pending ==> 0 <= j < |jobs|
      invariant forall j :: 0 <= j < |jobs| && j !in pending ==>
                  JobDone(files, jobs[j], p, hashOf, slots[..], counts[j])
      decreases |pending|
    {
      var j :| j in pending;
      pending := pending - {j};
      ghost var before, done := slots[..], counts[..];
      SlotEnds(jobs, j);
      counts[j] := DynamicChunking(files, jobs[j], p, hashOf, slots);
      forall i | 0 <= i < |jobs| && i !in pending && i != j
        ensures JobDone(files, jobs[i], p, hashOf, slots[..], counts[i])
      {
        assert counts[i] == done[i];
        JobStaysDone(files, jobs, i, j, p, hashOf, before, slots[..], counts[i]);
      }
    }
  }

  // ----- Compacting the results -----

  ghost function Outputs(files: seq<SourceFile>, jobs: seq<HashJob>, p: Params, hashOf: seq<byte> -> nat)
    : (r: seq<seq<Chunk>>)
    requires Ok(p) && AllFit(files, jobs)
    ensures |r| == |jobs| && forall j :: 0 <= j < |r| ==> r[j] == JobOutput(files, jobs[j], p, hashOf)
  {
    seq(|jobs|, j requires 0 <= j < |jobs| => JobOutput(files, jobs[j], p, hashOf))
  }

  /** Where the jobs of an asset begin. */
  ghost function FirstJob(files: seq<SourceFile>, a: nat, max: nat): nat
    requires a <= |files| && max > 0
  {
    |JobsOf(files[..a], max)|
  }

  /** The jobs of the first assets come first. */
  lemma {:induction false} JobsPrefix(files: seq<SourceFile>, a: nat, max: nat)
    requires a <= |files| && max > 0
    ensures JobsOf(files[..a], max) <= JobsOf(files, max)
    decreases |files| - a
  {
    hide PartsFrom;
    if a == |files| {
      assert files[..a] == files;
    } else {
      JobsPrefix(files, a + 1, max);
      assert files[..a + 1][..a] == files[..a];
    }
  }

  /** The jobs of asset a, in the list of all jobs. */
  lemma JobsOfAsset(files: seq<SourceFile>, a: nat, max: nat)
    requires a < |files| && max > 0
    ensures var from, to := FirstJob(files, a, max), FirstJob(files, a + 1, max);
            && from < to <= |JobsOf(files, max)|
            && JobsOf(files, max)[from..to] ==
                 PartsFrom(a, |files[a].data|, 0, SlotsOf(JobsOf(files, max)[..from]), max)
  {
    hide PartsFrom, SlotsOf;
    JobsPrefix(files, a, max);
    JobsPrefix(files, a + 1, max);
    var some := files[..a + 1];
    assert some[..a] == files[..a] && some[a] == files[a];
    var before, all := JobsOf(files[..a], max), JobsOf(files, max);
    var parts := PartsFrom(a, |files[a].data|, 0, SlotsOf(before), max);
    assert JobsOf(some, max) == before + parts;
    assert all[..|before|] == before;
    assert all[..|before + parts|] == before + parts;
    assert all[|before|..|before + parts|] == parts;
  }

  /** Only the first part of an asset starts at 0. */
  lemma {:induction false} PartsStart(a: nat, size: nat, start: nat, at: nat, max: nat, k: nat)
    requires start <= size && max > 0 && k < |PartsFrom(a, size, start, at, max)|
    ensures var job := PartsFrom(a, size, start, at, max)[k];
            job.asset == a && job.start >= start && (job.start == start <==> k == 0)
    decreases size - start
  {
    if k > 0 {
      PartsStart(a, size, start + max, at + MaxChunkCount(PartSize(size - start, max)), max, k - 1);
    }
  }

  /** Which asset a job belongs to. */
  lemma JobOfAsset(files: seq<SourceFile>, max: nat, i: nat) returns (a: nat)
    requires max > 0 && i < |JobsOf(files, max)|
    ensures a < |files| && FirstJob(files, a, max) <= i < FirstJob(files, a + 1, max)
    ensures JobsOf(files, max)[i].asset == a && (JobsOf(files, max)[i].start == 0 <==> i == FirstJob(files, a, max))
  {
    hide PartsFrom, SlotsOf, JobsOf;
    NoJobs(files, max);
    assert files[..|files|] == files;
    a := 0;
    while FirstJob(files, a + 1, max) <= i
      invariant a < |files| && FirstJob(files, a, max) <= i
      decreases |files| - a
    {
      if a + 1 == |files| {
        assert false;
      }
      a := a + 1;
    }
    JobsOfAsset(files, a, max);
    var from := FirstJob(files, a, max);
    PartsStart(a, |files[a].data|, 0, SlotsOf(JobsOf(files, max)[..from]), max, i - from);
    assert JobsOf(files, max)[from..FirstJob(files, a + 1, max)][i - from] == JobsOf(files, max)[i];
  }

  /** How many jobs of asset a are among the first i. */
  ghost function JobsSeen(files: seq<SourceFile>, a: nat, max: nat, i: nat): nat
    requires a < |files| && max > 0
  {
    var to := FirstJob(files, a + 1, max);
    if i < to then i else to
  }

  /** The start and count of an asset cover the results of its jobs so far. */
  ghost predicate AssetCompacted(files: seq<SourceFile>, outs: seq<seq<Chunk>>, a: nat, max: nat, i: nat, start: nat,
                                 count: nat)
    requires a < |files| && max > 0 && |outs| == |JobsOf(files, max)| && i <= |outs|
  {
    FirstJob(files, a, max) < i ==>
      && FirstJob(files, a, max) <= JobsSeen(files, a, max, i) <= |outs|
      && start == Offset(outs, FirstJob(files, a, max))
      && start + count == Offset(outs, JobsSeen(files, a, max, i))
  }

  /** Copies the results together, and notes where those of every asset start. */
  method Compact(files: seq<SourceFile>, jobs: seq<HashJob>, p: Params, ghost hashOf: seq<byte> -> nat,
                 slots: array<Chunk>, counts: array<nat>, ghost max: nat, starts: array<nat>, chunkCounts: array<nat>)
    returns (chunks: seq<Chunk>)
    requires Ok(p) && max > 0 && jobs == JobsOf(files, max) && AllFit(files, jobs) && counts.Length == |jobs|
    requires forall j :: 0 <= j < |jobs| ==> JobDone(files, jobs[j], p, hashOf, slots[..], counts[j])
    requires starts.Length == chunkCounts.Length == |files|
    requires starts != chunkCounts && starts != counts && chunkCounts != counts
    modifies starts, chunkCounts
    ensures chunks == Flatten(Outputs(files, jobs, p, hashOf))
    ensures forall a :: 0 <= a < |files| ==>
              AssetCompacted(files, Outputs(files, jobs, p, hashOf), a, max, |jobs|, starts[a], chunkCounts[a])
  {
    hide Flatten, Offset, JobOutput, Ok, JobsOf, FirstJob, JobFits, AssetCompacted;
    ghost var outs := Outputs(files, jobs, p, hashOf);
    ghost var all, done := slots[..], counts[..];
    chunks := [];
    OffsetEnds(outs);
    StartCompacting(files, outs, max, starts[..], chunkCounts[..]);
    for i := 0 to |jobs|
      invariant slots[..] == all && counts[..] == done
      invariant chunks == Flatten(outs[..i])
      invariant forall a :: 0 <= a < |files| ==> AssetCompacted(files, outs, a, max, i, starts[a], chunkCounts[a])
    {
      ghost var a := JobOfAsset(files, max, i);
      ghost var starts0, counts0 := starts[..], chunkCounts[..];
      var asset := jobs[i].asset;
      if jobs[i].start == 0 {
        starts[asset] := |chunks|;
        chunkCounts[asset] := 0;
      }
      assert counts[i] == done[i];
      assert JobDone(files, jobs[i], p, hashOf, slots[..], counts[i]);
      chunkCounts[asset] := chunkCounts[asset] + counts[i];
      FlattenSnoc(outs[..i], outs[i]);
      assert outs[..i + 1] == outs[..i] + [outs[i]];
      CompactNext(files, outs, max, i, a, starts0, counts0, starts[..], chunkCounts[..]);
      chunks := chunks + slots[..][jobs[i].at..jobs[i].at + counts[i]];
    }
    assert outs[..|jobs|] == outs;
  }

  lemma StartCompacting(files: seq<SourceFile>, outs: seq<seq<Chunk>>, max: nat, starts: seq<nat>, counts: seq<nat>)
    requires max > 0 && |outs| == |JobsOf(files, max)| && |starts| == |counts| == |files|
    ensures Flatten(outs[..0]) == []
    ensures forall a :: 0 <= a < |files| ==> AssetCompacted(files, outs, a, max, 0, starts[a], counts[a])
  {
  }

  lemma CompactNext(files: seq<SourceFile>, outs: seq<seq<Chunk>>, max: nat, i: nat, a: nat, starts0: seq<nat>,
                    counts0: seq<nat>, starts: seq<nat>, counts: seq<nat>)
    requires max > 0 && |outs| == |JobsOf(files, max)| && i < |outs| && a < |files|
    requires |starts0| == |counts0| == |starts| == |counts| == |files|
    requires FirstJob(files, a, max) <= i < FirstJob(files, a + 1, max)
    requires forall b :: 0 <= b < |files| ==> AssetCompacted(files, outs, b, max, i, starts0[b], counts0[b])
    requires var fresh' := i == FirstJob(files, a, max);
             starts == (if fresh' then starts0[a := |Flatten(outs[..i])|] else starts0)
             && counts == counts0[a := (if fresh' then 0 else counts0[a]) + |outs[i]|]
    ensures forall b :: 0 <= b < |files| ==> AssetCompacted(files, outs, b, max, i + 1, starts[b], counts[b])
  {
    hide JobsOf, Flatten;
    OffsetNext(outs, i);
    forall b | 0 <= b < |files|
      ensures AssetCompacted(files, outs, b, max, i + 1, starts[b], counts[b])
    {
      if b < a {
        JobsOfAsset(files, b, max);
        FirstJobOrder(files, b + 1, a, max);
      } else if b > a {
        FirstJobOrder(files, a + 1, b, max);
      }
      FirstJobOrder(files, b + 1, |files|, max);
      assert files[..|files|] == files;
    }
  }

  lemma FirstJobOrder(files: seq<SourceFile>, a: nat, b: nat, max: nat)
    requires a <= b <= |files| && max > 0
    ensures FirstJob(files, a, max) <= FirstJob(files, b, max)
  {
    hide PartsFrom, JobsOf;
    JobsPrefix(files[..b], a, max);
    assert files[..b][..a] == files[..a];
  }

  // ----- All assets -----

  /** The results of the parts of an asset are the chunks of the asset. */
  lemma {:induction false} PartOutputs(files: seq<SourceFile>, a: nat, start: nat, at: nat, max: nat, p: Params,
                                       hashOf: seq<byte> -> nat)
    requires Ok(p) && a < |files| && start <= |files[a].data| && max > 0 && !Storages.IsDirPath(files[a].path)
    requires AllFit(files, PartsFrom(a, |files[a].data|, start, at, max))
    ensures Flatten(Outputs(files, PartsFrom(a, |files[a].data|, start, at, max), p, hashOf)) ==
            Describe(ChunksFrom(p, files[a].data, start, max), files[a].tag, hashOf)
    decreases |files[a].data| - start
  {
    hide Ok, PartChunks, Flatten, PartsFrom, ChunksFrom, MaxChunkCount, AllFit, Describe, Outputs, JobFits;
    var f := files[a];
    var n := PartSize(|f.data| - start, max);
    var job := HashJob(a, start, n, MaxChunkCount(n), at);
    var cs := PartChunks(p, f.data[start..start + n]);
    PartsCons(a, |f.data|, start, at, max);
    ChunksCons(p, f.data, start, max);
    var jobs := PartsFrom(a, |f.data|, start, at, max);
    OutputsCons(files, jobs, p, hashOf);
    OutputOf(files, job, p, hashOf);
    if |f.data| - start < max {
      OutputsNone(files, p, hashOf);
      assert jobs[1..] == [];
      assert Describe(cs, f.tag, hashOf) + [] == Describe(cs, f.tag, hashOf);
    } else {
      var rest := PartsFrom(a, |f.data|, start + max, at + MaxChunkCount(n), max);
      assert jobs[1..] == rest;
      PartOutputs(files, a, start + max, at + MaxChunkCount(n), max, p, hashOf);
      DescribeConcat(cs, ChunksFrom(p, f.data, start + max, max), f.tag, hashOf);
    }
  }

  lemma ChunksCons(p: Params, data: seq<byte>, start: nat, max: nat)
    requires Ok(p) && start <= |data| && max > 0
    ensures var cs := PartChunks(p, data[start..start + PartSize(|data| - start, max)]);
            ChunksFrom(p, data, start, max) == if |data| - start < max then cs
                else cs + ChunksFrom(p, data, start + max, max)
  {
    hide PartChunks, Ok;
  }

  lemma OutputOf(files: seq<SourceFile>, job: HashJob, p: Params, hashOf: seq<byte> -> nat)
    requires Ok(p) && job.asset < |files| && job.start + job.size <= |files[job.asset].data|
               && job.maxCount == MaxChunkCount(job.size)
    requires !Storages.IsDirPath(files[job.asset].path)
    ensures JobFits(files, job)
    ensures JobOutput(files, job, p, hashOf) ==
            Describe(PartChunks(p, files[job.asset].data[job.start..job.start + job.size]), files[job.asset].tag,
                     hashOf)
  {
    hide Ok, PartChunks, Describe, MaxChunkCount;
  }

  lemma OutputsNone(files: seq<SourceFile>, p: Params, hashOf: seq<byte> -> nat)
    requires Ok(p)
    ensures AllFit(files, []) && Flatten(Outputs(files, [], p, hashOf)) == []
  {
  }

  lemma OutputsCons(files: seq<SourceFile>, jobs: seq<HashJob>, p: Params, hashOf: seq<byte> -> nat)
    requires Ok(p) && AllFit(files, jobs) && jobs != []
    ensures AllFit(files, jobs[1..])
    ensures Flatten(Outputs(files, jobs, p, hashOf)) ==
            JobOutput(files, jobs[0], p, hashOf) + Flatten(Outputs(files, jobs[1..], p, hashOf))
  {
    hide JobOutput, Ok;
    assert Outputs(files, jobs, p, hashOf)[1..] == Outputs(files, jobs[1..], p, hashOf);
  }

  lemma DescribeConcat(a: seq<seq<byte>>, b: seq<seq<byte>>, tag: nat, hashOf: seq<byte> -> nat)
    ensures Describe(a + b, tag, hashOf) == Describe(a, tag, hashOf) + Describe(b, tag, hashOf)
  {
  }

  /** A directory yields nothing. */
  lemma {:induction false} DirOutputs(files: seq<SourceFile>, jobs: seq<HashJob>, a: nat, p: Params,
                                      hashOf: seq<byte> -> nat)
    requires Ok(p) && a < |files| && Storages.IsDirPath(files[a].path) && AllFit(files, jobs)
    requires forall j :: 0 <= j < |jobs| ==> jobs[j].asset == a
    ensures Flatten(Outputs(files, jobs, p, hashOf)) == []
  {
    hide Ok;
    if jobs != [] {
      OutputsCons(files, jobs, p, hashOf);
      DirOutputs(files, jobs[1..], a, p, hashOf);
    }
  }

  /** The slice of an asset in the compacted results describes its chunks. */
  lemma AssetSlice(files: seq<SourceFile>, max: nat, p: Params, hashOf: seq<byte> -> nat, a: nat)
    requires Ok(p) && max > 0 && a < |files| && AllFit(files, JobsOf(files, max))
    ensures var outs := Outputs(files, JobsOf(files, max), p, hashOf);
            var from, to := FirstJob(files, a, max), FirstJob(files, a + 1, max);
            && from < to <= |outs| && Offset(outs, from) <= Offset(outs, to) <= |Flatten(outs)|
            && Flatten(outs)[Offset(outs, from)..Offset(outs, to)] ==
                 Describe(FileChunks(p, files[a], max), files[a].tag, hashOf)
  {
    hide Ok, Flatten, Offset, PartsFrom, JobsOf, JobOutput, ChunksFrom, FirstJob, SlotsOf;
    var jobs := JobsOf(files, max);
    var outs := Outputs(files, jobs, p, hashOf);
    var from, to := FirstJob(files, a, max), FirstJob(files, a + 1, max);
    JobsOfAsset(files, a, max);
    PiecesSlice(outs, from, to);
    var mine := jobs[from..to];
    assert AllFit(files, mine);
    assert outs[from..to] == Outputs(files, mine, p, hashOf);
    if Storages.IsDirPath(files[a].path) {
      AssetOfParts(a, |files[a].data|, SlotsOf(jobs[..from]), max);
      DirOutputs(files, mine, a, p, hashOf);
    } else {
      PartOutputs(files, a, 0, SlotsOf(jobs[..from]), max, p, hashOf);
    }
  }

  lemma AssetOfParts(a: nat, size: nat, at: nat, max: nat)
    requires max > 0
    ensures forall j :: 0 <= j < |PartsFrom(a, size, 0, at, max)| ==> PartsFrom(a, size, 0, at, max)[j].asset == a
  {
    hide PartsFrom;
    PartsFit(a, size, 0, at, max);
    assert forall j :: 0 <= j < |PartsFrom(a, size, 0, at, max)| ==>
        PartsFrom(a, size, 0, at, max)[j] in PartsFrom(a, size, 0, at, max);
  }

  // ----- The parameters of the chunker -----

  function AtLeast(least: nat, n: nat): nat {
    if n < least then least else n
  }

  function ChunkerParams(target: nat, discriminator: bv32, table: seq<bv32>): Params {
    Params(AtLeast(WINDOW, target / 8), AtLeast(WINDOW, target / 2), AtLeast(WINDOW, target * 2), discriminator, table)
  }

  /** The target chunk sizes with which no 32-bit product wraps. */
  ghost predicate TargetOk(target: nat, discriminator: bv32, table: seq<bv32>) {
    0 < target < 0x40_0000 && discriminator >= 1 && |table| == 256
  }

  /** Every file is described by the slice that its start and count give; the slices are
      adjacent and make up the whole list. */
  ghost predicate DescribesFiles(files: seq<SourceFile>, p: Params, max: nat, hashOf: seq<byte> -> nat,
                                 chunks: seq<Chunk>, starts: seq<nat>, counts: seq<nat>)
    requires Ok(p) && max > 0
  {
    && |starts| == |counts| == |files|
    && (forall a :: 0 <= a < |files| ==> starts[a] + counts[a] <= |chunks|
                                         && chunks[starts[a]..starts[a] + counts[a]] ==
                                         Describe(FileChunks(p, files[a], max), files[a].tag, hashOf))
    && (files != [] ==> starts[0] == 0 && starts[|files| - 1] + counts[|files| - 1] == |chunks|)
    && (forall a, b :: 0 <= a && b == a + 1 < |files| ==> starts[a] + counts[a] == starts[b])
    && (files == [] ==> chunks == [])
  }

  /** Chunks all files with jobs that run in any order. */
  method ChunkAssets(files: seq<SourceFile>, target: nat, discriminator: bv32, table: seq<bv32>,
                     hashOf: seq<byte> -> nat)
    returns (chunks: seq<Chunk>, starts: seq<nat>, counts: seq<nat>)
    requires TargetOk(target, discriminator, table)
    ensures var p := ChunkerParams(target, discriminator, table);
            Ok(p) && DescribesFiles(files, p, target * 1024, hashOf, chunks, starts, counts)
  {
    hide Ok, JobsOf, PartsFrom, SlotsOf, Laid, AllFit, JobFits, JobDone, Flatten, Offset, JobOutput;
    var max := target * 1024;
    var p := ChunkerParams(target, discriminator, table);
    ParamsOk(target, discriminator, table);
    var jobCount, slotCount := CountJobs(files, max);
    SomeFiles(files, max);
    if jobCount == 0 {
      return [], [], [];
    }
    var jobs := CreateHashJobs(files, max);
    JobsLaid(files, max);
    JobsFit(files, max);
    var slots, jobCounts := new Chunk[slotCount](_ => Chunk(0, 0, 0)), new nat[jobCount];
    RunHashJobs(files, jobs, p, hashOf, slots, jobCounts);
    var startArray, countArray := new nat[|files|], new nat[|files|];
    chunks := Compact(files, jobs, p, hashOf, slots, jobCounts, max, startArray, countArray);
    starts, counts := startArray[..], countArray[..];
    AllDescribed(files, p, max, hashOf, chunks, starts, counts);
  }

  /** Chunks have between an eighth and twice of the target size, but not less than a window. */
  lemma ParamsOk(target: nat, discriminator: bv32, table: seq<bv32>)
    requires TargetOk(target, discriminator, table)
    ensures var p := ChunkerParams(target, discriminator, table);
            && Ok(p)
            && (if target < 8 * WINDOW then p.min == WINDOW else 8 * p.min <= target < 8 * (p.min + 1))
            && (if target < 2 * WINDOW then p.avg == WINDOW else 2 * p.avg <= target < 2 * (p.avg + 1))
            && (if 2 * target < WINDOW then p.max == WINDOW else p.max == 2 * target)
  {
  }

  lemma SomeFiles(files: seq<SourceFile>, max: nat)
    requires max > 0
    ensures JobsOf(files, max) == [] <==> files == []
  {
  }

  /** The slice covers the results of all jobs of an asset. */
  ghost predicate CoversJobs(files: seq<SourceFile>, outs: seq<seq<Chunk>>, a: nat, max: nat, start: nat, count: nat)
    requires a < |files| && max > 0
  {
    && FirstJob(files, a, max) <= FirstJob(files, a + 1, max) <= |outs|
    && start == Offset(outs, FirstJob(files, a, max)) && start + count == Offset(outs, FirstJob(files, a + 1, max))
  }

  lemma AllDescribed(files: seq<SourceFile>, p: Params, max: nat, hashOf: seq<byte> -> nat, chunks: seq<Chunk>,
                     starts: seq<nat>, counts: seq<nat>)
    requires Ok(p) && max > 0 && AllFit(files, JobsOf(files, max)) && |starts| == |counts| == |files| && files != []
    requires var outs := Outputs(files, JobsOf(files, max), p, hashOf);
             && chunks == Flatten(outs)
             && forall a :: 0 <= a < |files| ==> AssetCompacted(files, outs, a, max, |outs|, starts[a], counts[a])
    ensures DescribesFiles(files, p, max, hashOf, chunks, starts, counts)
  {
    hide Ok, JobsOf, AllFit, Flatten, Offset, FileChunks, FirstJob;
    var outs := Outputs(files, JobsOf(files, max), p, hashOf);
    OffsetEnds(outs);
    FirstAndLast(files, max);
    forall a | 0 <= a < |files|
      ensures CoversJobs(files, outs, a, max, starts[a], counts[a])
      ensures starts[a] + counts[a] <= |chunks|
      ensures chunks[starts[a]..starts[a] + counts[a]] == Describe(FileChunks(p, files[a], max), files[a].tag, hashOf)
    {
      AssetSlice(files, max, p, hashOf, a);
    }
  }

  lemma FirstAndLast(files: seq<SourceFile>, max: nat)
    requires max > 0
    ensures FirstJob(files, 0, max) == 0 && FirstJob(files, |files|, max) == |JobsOf(files, max)|
  {
    assert files[..|files|] == files;
  }

  /** The sizes of the chunks of a file add up to the size of the file. */
  lemma SizesAddUp(files: seq<SourceFile>, p: Params, max: nat, hashOf: seq<byte> -> nat, chunks: seq<Chunk>,
                   starts: seq<nat>, counts: seq<nat>, a: nat)
    requires Ok(p) && max > 0 && DescribesFiles(files, p, max, hashOf, chunks, starts, counts)
    requires a < |files| && !Storages.IsDirPath(files[a].path)
    ensures Sum(ChunkSizes(chunks[starts[a]..starts[a] + counts[a]])) == |files[a].data|
  {
    hide Ok, FileChunks;
    var cs := FileChunks(p, files[a], max);
    FileChunksCover(p, files[a], max);
    DescribedSizes(cs, files[a].tag, hashOf);
  }

  lemma {:induction false} DescribedSizes(cs: seq<seq<byte>>, tag: nat, hashOf: seq<byte> -> nat)
    ensures Sum(ChunkSizes(Describe(cs, tag, hashOf))) == |Flatten(cs)|
  {
    if cs != [] {
      DescribedSizes(cs[1..], tag, hashOf);
      assert ChunkSizes(Describe(cs, tag, hashOf))[1..] == ChunkSizes(Describe(cs[1..], tag, hashOf));
    }
  }

  // ----- Listing every chunk once -----

  /** Lists every hash once, in the order of first occurrence, and replaces each chunk by
      the index of its hash in that list. */
  method Deduplicate(chunks: seq<Chunk>) returns (unique: seq<Chunk>, indexes: seq<nat>)
    requires |chunks| < NONE
    ensures Distinct(ChunkHashes(unique)) && |indexes| == |chunks|
    ensures forall c :: 0 <= c < |chunks| ==> indexes[c] < |unique| && unique[indexes[c]].hash == chunks[c].hash
    ensures forall k :: 0 <= k < |unique| ==> unique[k] in chunks
    ensures ChunkHashes(unique) == At(ChunkHashes(chunks), FirstOccurrences(ChunkHashes(chunks)))
  {
    hide Lookup, LookupTable.Valid, FirstOccurrences, Distinct, Numbers, Listed, UniqueSoFar;
    ghost var hashes := ChunkHashes(chunks);
    var table := new LookupTable(|chunks|);
    var compact := new Chunk[|chunks|](_ => Chunk(0, 0, 0));
    var count := 0;
    indexes := [];
    StartListing(table, hashes, compact[..0], chunks);
    for c := 0 to |chunks|
      invariant fresh(table.Repr) && table.keys.Length == |chunks| && count <= c && compact !in table.Repr
      invariant Numbers(table, count) && table.Keys() == ChunkHashes(compact[..count])
      invariant UniqueSoFar(compact[..count], hashes, c)
      invariant |indexes| == c && Listed(indexes, compact[..count], chunks)
    {
      ghost var before := compact[..count];
      UniqueNext(before, hashes, c, chunks[c]);
      var index;
      index, count := ListChunk(table, compact, count, chunks[c]);
      ListedNext(indexes, before, compact[..count], chunks, index);
      indexes := indexes + [index];
    }
    unique := compact[..count];
    UniqueAll(unique, hashes);
    ListedAll(indexes, unique, chunks);
  }

  /** The list has the first occurrences among the first c hashes. */
  ghost predicate UniqueSoFar(list: seq<Chunk>, hashes: seq<nat>, c: nat) {
    c <= |hashes| && |list| <= c && ChunkHashes(list) == At(hashes[..c], FirstOccurrences(hashes[..c]))
  }

  /** A hash that was not listed is the next first occurrence. */
  lemma UniqueNext(list: seq<Chunk>, hashes: seq<nat>, c: nat, x: Chunk)
    requires UniqueSoFar(list, hashes, c) && c < |hashes| && x.hash == hashes[c]
    ensures UniqueSoFar(if x.hash in ChunkHashes(list) then list else list + [x], hashes, c + 1)
    ensures |list| <= c
  {
    FirstOccurrencesUnique(hashes[..c]);
    assert hashes[..c + 1][..c] == hashes[..c];
    assert x.hash in ChunkHashes(list) <==> x.hash in Elems(ChunkHashes(list));
  }

  lemma UniqueAll(list: seq<Chunk>, hashes: seq<nat>)
    requires UniqueSoFar(list, hashes, |hashes|)
    ensures ChunkHashes(list) == At(hashes, FirstOccurrences(hashes)) && Distinct(ChunkHashes(list))
  {
    assert hashes[..|hashes|] == hashes;
    FirstOccurrencesUnique(hashes);
  }

  /** The indexes lead to the hashes of the chunks looked at so far. */
  ghost predicate Listed(indexes: seq<nat>, list: seq<Chunk>, chunks: seq<Chunk>) {
    && |indexes| <= |chunks|
    && (forall i :: 0 <= i < |indexes| ==> indexes[i] < |list| && list[indexes[i]].hash == chunks[i].hash)
    && (forall k :: 0 <= k < |list| ==> list[k] in chunks)
  }

  lemma ListedNext(indexes: seq<nat>, list: seq<Chunk>, list': seq<Chunk>, chunks: seq<Chunk>, index: nat)
    requires Listed(indexes, list, chunks) && |indexes| < |chunks| && index < |list'|
               && list'[index].hash == chunks[|indexes|].hash
    requires list' == list || list' == list + [chunks[|indexes|]]
    ensures Listed(indexes + [index], list', chunks)
  {
  }

  lemma ListedAll(indexes: seq<nat>, list: seq<Chunk>, chunks: seq<Chunk>)
    requires Listed(indexes, list, chunks) && |indexes| == |chunks|
    ensures forall c :: 0 <= c < |chunks| ==> indexes[c] < |list| && list[indexes[c]].hash == chunks[c].hash
    ensures forall k :: 0 <= k < |list| ==> list[k] in chunks
  {
  }

  /** The index of a chunk; one with a new hash is appended. */
  method ListChunk(table: LookupTable, compact: array<Chunk>, count: nat, c: Chunk) returns (index: nat, count': nat)
    requires count < compact.Length == table.keys.Length && compact !in table.Repr
    requires Numbers(table, count) && table.Keys() == ChunkHashes(compact[..count])
    modifies table.Repr, compact
    ensures count <= count' <= compact.Length && index < count' && compact[index].hash == c.hash
    ensures Numbers(table, count') && table.Keys() == ChunkHashes(compact[..count'])
    ensures compact[..count'] == if c.hash in old(table.Keys()) then old(compact[..count])
              else old(compact[..count]) + [c]
  {
    hide LookupTable.Valid, FirstMatch;
    FirstMatchNone(table.Keys(), c.hash);
    var existing := table.PutUnique(c.hash, count);
    if existing.Some? {
      assert ChunkHashes(compact[..count])[existing.value] == compact[existing.value].hash;
      return existing.value, count;
    }
    ghost var before := compact[..count];
    compact[count] := c;
    index, count' := count, count + 1;
    assert compact[..count'] == before + [c];
    assert ChunkHashes(compact[..count']) == ChunkHashes(before) + [c.hash];
  }

  ghost predicate Numbers(table: LookupTable, n: nat)
    reads table, table.Repr
    ensures Numbers(table, n) ==> table.Valid() && table.count == n
  {
    table.Valid() && table.count == n && forall k :: 0 <= k < n ==> table.Values()[k] == k
  }

  lemma StartListing(table: LookupTable, hashes: seq<nat>, list: seq<Chunk>, chunks: seq<Chunk>)
    requires table.Valid() && table.count == 0 && table.Keys() == [] && list == []
    ensures Listed([], list, chunks)
    ensures Numbers(table, 0) && UniqueSoFar(list, hashes, 0)
  {
  }
}

/** Writing one asset from many blocks (src/longtail.c): partial writes that read ahead
    into the job context they have just copied, and the number of jobs this takes. */
module AssetWriting {
  import opened Prelude
  import opened Indexes
  import opened BlockWriting
  import Storages
  import HashDiff

  const MAX_BLOCKS_PER_PARTIAL_ASSET_WRITE: nat := 64

  // ----- Planning partial writes -----

  /** How many blocks a partial write may read. */
  function MaxReads(workerCount: nat): (m: nat)
    ensures 1 <= m <= MAX_BLOCKS_PER_PARTIAL_ASSET_WRITE && m <= workerCount + 1
    ensures m == workerCount + 1 || m == MAX_BLOCKS_PER_PARTIAL_ASSET_WRITE
  {
    if workerCount + 1 < MAX_BLOCKS_PER_PARTIAL_ASSET_WRITE then workerCount + 1 else MAX_BLOCKS_PER_PARTIAL_ASSET_WRITE
  }

  /** A partial write: the blocks it reads, each once, and where it ends. */
  datatype Batch = Batch(readers: seq<nat>, end: nat)

  /** Takes chunks from `at` on until the reads are used up; `blocks` gives the block of
      every chunk of the asset. */
  function Gather(blocks: seq<nat>, at: nat, max: nat, readers: seq<nat>): (b: Batch)
    requires at <= |blocks|
    ensures at <= b.end <= |blocks| && (at < |blocks| && |readers| < max ==> at < b.end)
    ensures readers <= b.readers && |b.readers| <= |readers| + (b.end - at)
    ensures |readers| <= max ==> |b.readers| <= max
    decreases |blocks| - at
  {
    if at == |blocks| || |readers| >= max then Batch(readers, at)
    else Gather(blocks, at + 1, max, if blocks[at] in readers then readers else readers + [blocks[at]])
  }

  lemma GatherNext(blocks: seq<nat>, at: nat, max: nat, readers: seq<nat>)
    requires at <= |blocks|
    ensures Gather(blocks, at, max, readers) ==
            if at == |blocks| || |readers| >= max then Batch(readers, at)
            else Gather(blocks, at + 1, max, if blocks[at] in readers then readers else readers + [blocks[at]])
  {
  }

  lemma PrefixHas(a: seq<nat>, b: seq<nat>, x: nat)
    requires a <= b && x in a
    ensures x in b
  {
    var i :| 0 <= i < |a| && a[i] == x;
    assert b[i] == x;
  }

  /** Every chunk of a partial write is in one of the blocks it reads. */
  lemma {:induction false} GatherCovers(blocks: seq<nat>, at: nat, max: nat, readers: seq<nat>, c: nat)
    requires at <= |blocks| && at <= c < Gather(blocks, at, max, readers).end
    ensures c < |blocks| && blocks[c] in Gather(blocks, at, max, readers).readers
    decreases |blocks| - at
  {
    GatherNext(blocks, at, max, readers);
    var readers' := if blocks[at] in readers then readers else readers + [blocks[at]];
    if c == at {
      PrefixHas(readers', Gather(blocks, at, max, readers).readers, blocks[c]);
    } else {
      GatherCovers(blocks, at + 1, max, readers', c);
    }
  }

  /** A partial write reads the blocks of its chunks once each, and takes chunks until it may
      read no more, but not longer: it needs all its reads exactly for its last chunk. */
  lemma {:induction false} GatherMax(blocks: seq<nat>, at: nat, max: nat, readers: seq<nat>)
    requires at <= |blocks| && Distinct(readers) && |readers| <= max
    ensures var b := Gather(blocks, at, max, readers);
            && Distinct(b.readers) && Elems(b.readers) == Elems(readers) + Elems(blocks[at..b.end])
            && (b.end < |blocks| ==> |b.readers| == max)
            && forall e :: at <= e < b.end ==> |Elems(readers) + Elems(blocks[at..e])| < max
    decreases |blocks| - at
  {
    hide Gather, Elems, Distinct;
    GatherNext(blocks, at, max, readers);
    HashDiff.DistinctCount(readers);
    NoElems(readers, blocks, at);
    if at < |blocks| && |readers| < max {
      var now := if blocks[at] in readers then readers else readers + [blocks[at]];
      OneMoreReader(readers, blocks[at]);
      GatherMax(blocks, at + 1, max, now);
      forall e | at < e <= |blocks|
        ensures Elems(readers) + Elems(blocks[at..e]) == Elems(now) + Elems(blocks[at + 1..e])
      {
        ElemsCons(blocks, at, e);
      }
    }
  }

  lemma NoElems(readers: seq<nat>, blocks: seq<nat>, at: nat)
    requires at <= |blocks|
    ensures Elems(readers) + Elems(blocks[at..at]) == Elems(readers)
  {
  }

  lemma OneMoreReader(readers: seq<nat>, h: nat)
    requires Distinct(readers)
    ensures var now := if h in readers then readers else readers + [h];
            Distinct(now) && Elems(now) == Elems(readers) + {h}
  {
  }

  lemma ElemsCons(blocks: seq<nat>, at: nat, e: nat)
    requires at < e <= |blocks|
    ensures Elems(blocks[at..e]) == {blocks[at]} + Elems(blocks[at + 1..e])
  {
    assert blocks[at..e] == [blocks[at]] + blocks[at + 1..e];
  }

  /** The jobs of a partial write: the write, and with blocks to read, the reads and a
      synchronization job. */
  function BatchJobs(b: Batch): nat {
    1 + if b.readers == [] then 0 else |b.readers| + 1
  }

  /** The jobs of all partial writes from chunk `at` on. */
  function JobsFrom(blocks: seq<nat>, at: nat, max: nat): nat
    requires at <= |blocks| && max > 0
    decreases |blocks| - at
  {
    if at == |blocks| then 0
    else
      var b := Gather(blocks, at, max, []);
      BatchJobs(b) + JobsFrom(blocks, b.end, max)
  }

  /** The jobs of an asset. */
  function AssetJobs(blocks: seq<nat>, max: nat): nat
    requires max > 0
  {
    var b := Gather(blocks, 0, max, []);
    BatchJobs(b) + JobsFrom(blocks, b.end, max)
  }

  function AllJobs(assets: seq<seq<nat>>, max: nat): nat
    requires max > 0
  {
    if assets == [] then 0 else AllJobs(assets[..|assets| - 1], max) + AssetJobs(assets[|assets| - 1], max)
  }

  method HasBlock(hashes: array<nat>, count: nat, hash: nat) returns (found: bool)
    requires count <= hashes.Length
    ensures found <==> hash in hashes[..count]
  {
    found := false;
    for d := 0 to count
      invariant hash !in hashes[..d]
    {
      if hashes[d] == hash {
        return true;
      }
    }
  }

  /** One partial write, as both the counting loop and CreatePartialAssetWriteJob gather
      it. */
  method GatherBlocks(blocks: seq<nat>, at: nat, max: nat, hashes: array<nat>) returns (end: nat, count: nat)
    requires at <= |blocks| && max <= hashes.Length
    modifies hashes
    ensures count <= max && Gather(blocks, at, max, []) == Batch(hashes[..count], end)
  {
    hide Gather;
    end, count := at, 0;
    assert hashes[..count] == [];
    while end != |blocks| && count < max
      invariant at <= end <= |blocks| && count <= max
      invariant Gather(blocks, at, max, []) == Gather(blocks, end, max, hashes[..count])
      decreases |blocks| - end
    {
      GatherNext(blocks, end, max, hashes[..count]);
      var found := HasBlock(hashes, count, blocks[end]);
      if !found {
        ghost var before := hashes[..count];
        hashes[count] := blocks[end];
        count := count + 1;
        assert hashes[..count] == before + [blocks[end]];
      }
      end := end + 1;
    }
    GatherNext(blocks, end, max, hashes[..count]);
  }

  /** The number of jobs to reserve for the assets. */
  method CountAssetJobs(assets: seq<seq<nat>>, workerCount: nat) returns (jobCount: nat)
    ensures jobCount == AllJobs(assets, MaxReads(workerCount))
  {
    var max := MaxReads(workerCount);
    var hashes := new nat[MAX_BLOCKS_PER_PARTIAL_ASSET_WRITE];
    jobCount := 0;
    for a := 0 to |assets|
      invariant jobCount == AllJobs(assets[..a], max)
    {
      assert assets[..a + 1][..a] == assets[..a];
      var before := jobCount;
      if |assets[a]| == 0 {
        jobCount := jobCount + 1;
        continue;
      }
      FirstBatchReads(assets[a], max);
      var offset: nat := 0;
      while offset != |assets[a]|
        invariant offset <= |assets[a]|
        invariant before + JobsFrom(assets[a], 0, max) == jobCount + JobsFrom(assets[a], offset, max)
        decreases |assets[a]| - offset
      {
        var count;
        BatchReads(assets[a], offset, max);
        offset, count := GatherBlocks(assets[a], offset, max, hashes);
        jobCount := jobCount + 2 + count;
      }
    }
    assert assets[..|assets|] == assets;
  }

  /** A partial write of a chunk reads at least one block. */
  lemma BatchReads(blocks: seq<nat>, at: nat, max: nat)
    requires at < |blocks| && max > 0
    ensures Gather(blocks, at, max, []).readers != []
  {
    GatherCovers(blocks, at, max, [], at);
  }

  lemma FirstBatchReads(blocks: seq<nat>, max: nat)
    requires blocks != [] && max > 0
    ensures AssetJobs(blocks, max) == JobsFrom(blocks, 0, max)
  {
  }

  // ----- The pipeline of one asset -----

  /** An asset as the indexes give it: the hash, the size and the block of each chunk, the
      size of the file, and how many blocks a partial write may read. */
  datatype Asset = Asset(hashes: seq<nat>, sizes: seq<nat>, blocks: seq<nat>, size: nat, max: nat)

  ghost predicate AssetOk(a: Asset) {
    |a.hashes| == |a.sizes| == |a.blocks| && a.max > 0
  }

  /** What the chunks of the asset are. */
  ghost function Contents(a: Asset, bytes: nat -> seq<byte>): (ps: seq<seq<byte>>)
    ensures |ps| == |a.hashes| && forall c :: 0 <= c < |ps| ==> ps[c] == bytes(a.hashes[c])
  {
    seq(|a.hashes|, c requires 0 <= c < |a.hashes| => bytes(a.hashes[c]))
  }

  /** Sizes are those of the bytes behind the hashes, and blocks hold these bytes. That the
      store has the blocks, and the blocks the chunks, is not asked. */
  ghost predicate Described(a: Asset, store: BlockStore, bytes: nat -> seq<byte>) {
    && AssetOk(a) && a.size == |Flatten(Contents(a, bytes))|
    && (forall c :: 0 <= c < |a.sizes| ==> a.sizes[c] == |bytes(a.hashes[c])|)
    && forall h :: h in store ==> BlockDescribes(store[h], bytes)
  }

  datatype Fetch = Idle | Reading | Fetched(block: StoredBlock) | ReadFailed(err: Errno)

  /** The job context, reused by every partial write. `pending` is set while a write job
      created for it has not started; `synced` once its synchronization job is ready. */
  datatype Context = Context(offset: nat, count: nat, readers: seq<nat>, fetched: seq<Fetch>, pending: bool,
                             synced: bool)

  /** How far a write job is. It has copied what it needs from the context, opened the file,
      set up the next write, released that, stored its success; or it failed. */
  datatype Stage = Copied | Opened | Writing | Released | Finished | Failed

  /** A write job with its own copies, the chunk it writes next, and where in the file. */
  datatype Writer = Writer(from: nat, to: nat, readers: seq<nat>, copies: seq<StoredBlock>, pos: nat, at: nat,
                           next: bool, stage: Stage)

  datatype File = NotOpen | Open(content: seq<byte>) | Closed(content: seq<byte>)

  /** `err` is the error field of the context, which all write jobs of the asset share. */
  datatype Pipeline = Pipeline(ctx: Context, writers: seq<Writer>, file: File, opens: nat, closes: nat, created: nat,
                               err: Option<Errno>)

  /** The context that CreatePartialAssetWriteJob leaves. */
  function Planned(a: Asset, at: nat): Context
    requires AssetOk(a) && at <= |a.blocks|
  {
    var b := Gather(a.blocks, at, a.max, []);
    Context(at, b.end - at, b.readers, seq(|b.readers|, d => Idle), true, false)
  }

  /** WriteAssets creates the first partial write and makes its synchronization job ready. */
  function Begin(a: Asset): Pipeline
    requires AssetOk(a)
  {
    Pipeline(Planned(a, 0).(synced := true), [], NotOpen, 0, 0, BatchJobs(Gather(a.blocks, 0, a.max, [])), Some(EINVAL))
  }

  datatype WriteEvent =
    | StartRead(d: nat)
    | FinishRead(d: nat)
    | FailRead(d: nat, err: Errno)
    | StartWrite
    | OpenFile(k: nat, content: seq<byte>)
    | OpenFails(k: nat, err: Errno)
    | PlanNext(k: nat)
    | WriteChunk(k: nat, b: nat, c: nat)
    | LookupFails(k: nat)
    | WriteFails(k: nat, err: Errno)
    | Release(k: nat)
    | Finish(k: nat)
    | Close(k: nat)
    | CloseFails(k: nat, err: Errno)

  /** The event is a step of a write job that has started. */
  predicate OfWriter(e: WriteEvent) {
    !e.StartRead? && !e.FinishRead? && !e.FailRead? && !e.StartWrite?
  }

  function FirstError(fs: seq<Fetch>): (err: Option<Errno>)
    ensures err.None? <==> forall d :: 0 <= d < |fs| ==> !fs[d].ReadFailed?
  {
    if fs == [] then None else if fs[0].ReadFailed? then Some(fs[0].err) else FirstError(fs[1..])
  }

  predicate AllRead(fs: seq<Fetch>) {
    forall d :: 0 <= d < |fs| ==> fs[d].Fetched? || fs[d].ReadFailed?
  }

  function Blocks(fs: seq<Fetch>): (bs: seq<StoredBlock>)
    requires AllRead(fs) && FirstError(fs).None?
    ensures |bs| == |fs| && forall d :: 0 <= d < |fs| ==> fs[d] == Fetched(bs[d])
  {
    seq(|fs|, d requires 0 <= d < |fs| => fs[d].block)
  }

  function CloseIfOpen(file: File): File {
    if file.Open? then Closed(file.content) else file
  }

  /** The write job of the context starts: it does nothing if the one before it failed, fails
      if a block could not be read, and takes copies of the blocks otherwise. */
  function StartWriter(a: Asset, s: Pipeline): Pipeline
    requires AssetOk(a) && AllRead(s.ctx.fetched) && s.ctx.offset <= |a.sizes|
  {
    var w := Writer(s.ctx.offset, s.ctx.offset + s.ctx.count, s.ctx.readers, [], s.ctx.offset,
                    Sum(a.sizes[..s.ctx.offset]), false, Copied);
    var started := s.(ctx := s.ctx.(pending := false));
    if !s.file.Open? && s.ctx.offset > 0 then started
    else
      match FirstError(s.ctx.fetched)
      case Some(err) =>
        started.(writers := s.writers + [w.(stage := Failed)], file := CloseIfOpen(s.file),
                 closes := s.closes + if s.file.Open? then 1 else 0, err := Some(err))
      case None => started.(writers := s.writers + [w.(copies := Blocks(s.ctx.fetched))])
  }

  /** Write job k gives up with its file open: it closes the file and releases the next. */
  function GiveUp(s: Pipeline, k: nat, err: Errno): Option<Pipeline> {
    if k < |s.writers| && s.writers[k].stage == Writing && s.file.Open?
    then Some(s.(writers := s.writers[k := s.writers[k].(stage := Failed)], file := Closed(s.file.content),
                 closes := s.closes + 1,
                 ctx := s.ctx.(synced := s.ctx.synced || s.writers[k].next), err := Some(err)))
    else None
  }

  ghost predicate HasChunkIn(blocks: seq<StoredBlock>, h: nat) {
    exists b :: 0 <= b < |blocks| && h in blocks[b].chunkHashes
  }

  ghost function Step(a: Asset, store: BlockStore, s: Pipeline, e: WriteEvent): Option<Pipeline>
    requires AssetOk(a)
  {
    match e
    case StartRead(d) =>
      if d < |s.ctx.fetched| && s.ctx.fetched[d] == Idle
      then Some(s.(ctx := s.ctx.(fetched := s.ctx.fetched[d := Reading]))) else None
    case FinishRead(d) =>
      if d < |s.ctx.fetched| == |s.ctx.readers| && s.ctx.fetched[d] == Reading && s.ctx.readers[d] in store
      then Some(s.(ctx := s.ctx.(fetched := s.ctx.fetched[d := Fetched(store[s.ctx.readers[d]])]))) else None
    case FailRead(d, err) =>
      if d < |s.ctx.fetched| && s.ctx.fetched[d] == Reading
      then Some(s.(ctx := s.ctx.(fetched := s.ctx.fetched[d := ReadFailed(err)]))) else None
    case StartWrite =>
      // runs when its reads and its synchronization job are complete
      if s.ctx.pending && s.ctx.synced && AllRead(s.ctx.fetched)
          && s.ctx.offset <= |a.sizes| then Some(StartWriter(a, s)) else None
    case OpenFile(k, content) =>
      if k < |s.writers| && s.writers[k].stage == Copied && !s.file.Closed?
          && (s.file == NotOpen ==> |content| == a.size)
      then Some(s.(writers := s.writers[k := s.writers[k].(stage := Opened)],
                   file := if s.file == NotOpen then Open(content) else s.file,
                   opens := s.opens + if s.file == NotOpen then 1 else 0))
      else None
    case OpenFails(k, err) =>
      if k < |s.writers| && s.writers[k].stage == Copied && s.file == NotOpen
      then Some(s.(writers := s.writers[k := s.writers[k].(stage := Failed)], err := Some(err))) else None
    case PlanNext(k) =>
      if k < |s.writers| && s.writers[k].stage == Opened
      then if s.writers[k].to < |a.blocks|
           then Some(s.(ctx := Planned(a, s.writers[k].to), err := Some(EINVAL),
                        writers := s.writers[k := s.writers[k].(stage := Writing, next := true)],
                        created := s.created + BatchJobs(Gather(a.blocks, s.writers[k].to, a.max, []))))
           else Some(s.(writers := s.writers[k := s.writers[k].(stage := Writing)]))
      else None
    case WriteChunk(k, b, c) =>
      // an entry of the copied blocks with the hash of the chunk, whichever the table gives
      if k < |s.writers| && s.writers[k].stage == Writing && s.writers[k].pos < s.writers[k].to <= |a.hashes|
         && b < |s.writers[k].copies| && c < |s.writers[k].copies[b].chunkHashes| == |s.writers[k].copies[b].chunkSizes|
         && s.writers[k].copies[b].chunkHashes[c] == a.hashes[s.writers[k].pos]
         && s.file.Open? && s.writers[k].at <= |s.file.content|
      then var w := s.writers[k];
           Some(s.(writers := s.writers[k := w.(pos := w.pos + 1, at := w.at + w.copies[b].chunkSizes[c])],
                   file := Open(Storages.Overwrite(s.file.content, s.writers[k].at,
                                                   ChunkData(s.writers[k].copies[b], c)))))
      else None
    case LookupFails(k) =>
      if k < |s.writers| && s.writers[k].pos < s.writers[k].to <= |a.hashes|
          && !HasChunkIn(s.writers[k].copies, a.hashes[s.writers[k].pos])
      then GiveUp(s, k, EINVAL) else None
    case WriteFails(k, err) => if k < |s.writers| && s.writers[k].pos < s.writers[k].to then GiveUp(s, k, err) else None
    case Release(k) =>
      if k < |s.writers| && s.writers[k].stage == Writing && s.writers[k].pos == s.writers[k].to && s.writers[k].next
      then Some(s.(ctx := s.ctx.(synced := true), writers := s.writers[k := s.writers[k].(stage := Released)]))
          else None
    case Finish(k) =>
      // the next write job may have run meanwhile
      if k < |s.writers| && s.writers[k].stage == Released
      then Some(s.(writers := s.writers[k := s.writers[k].(stage := Finished)], err := None)) else None
    case Close(k) =>
      if k < |s.writers| && s.writers[k].stage == Writing && s.writers[k].pos == s.writers[k].to && !s.writers[k].next
          && s.file.Open?
      then Some(s.(writers := s.writers[k := s.writers[k].(stage := Finished)], file := Closed(s.file.content),
                   closes := s.closes + 1,
                   err := None))
      else None
    case CloseFails(k, err) =>
      // the file is closed, but its permissions cannot be set
      if k < |s.writers| && s.writers[k].pos == s.writers[k].to && !s.writers[k].next then GiveUp(s, k, err) else None
  }

  // ----- What every step keeps -----

  /** The write job that started last. */
  function Last(ws: seq<Writer>): Option<Writer> {
    if ws == [] then None else Some(ws[|ws| - 1])
  }

  /** The write job can be doing something with the file. */
  predicate Active(w: Writer) {
    w.stage in {Copied, Opened, Writing}
  }

  /** A write job failed; it is the last that did anything. */
  predicate GoneWrong(last: Option<Writer>) {
    last.Some? && last.value.stage == Failed
  }

  /** Up to which chunk the file is written. */
  function Position(last: Option<Writer>): nat {
    if last.None? then 0 else last.value.pos
  }

  /** The write job has written all its chunks. */
  predicate IsComplete(w: Writer) {
    w.stage in {Released, Finished} && w.pos == w.to
  }

  /** The partial writes so far are adjacent, from the first chunk on; all but the last
      are complete and leave chunks to write. */
  ghost predicate WritesInOrder(a: Asset, ws: seq<Writer>) {
    && (ws != [] ==> ws[0].from == 0)
    && (forall j, k :: 0 <= j && k == j + 1 < |ws| ==> ws[j].to == ws[k].from)
    && (forall k :: 0 <= k < |ws| ==> ws[k].from <= ws[k].pos <= ws[k].to <= |a.blocks|)
    && (forall k :: 0 <= k < |ws| - 1 ==> IsComplete(ws[k]) && ws[k].to < |a.blocks|)
  }

  /** The fetched blocks are those of the store. */
  ghost predicate CopiesOf(store: BlockStore, readers: seq<nat>, copies: seq<StoredBlock>) {
    |copies| == |readers| && forall d :: 0 <= d < |copies| ==> readers[d] in store && copies[d] == store[readers[d]]
  }

  /** A write job that did not fail has copies of exactly the blocks of its chunks. */
  ghost predicate CopiesOk(a: Asset, store: BlockStore, ws: seq<Writer>) {
    forall k :: 0 <= k < |ws| ==>
      && ws[k].from <= |a.blocks| && Batch(ws[k].readers, ws[k].to) == Gather(a.blocks, ws[k].from, a.max, [])
      && (ws[k].stage != Failed ==> CopiesOf(store, ws[k].readers, ws[k].copies))
  }

  ghost predicate FetchesOk(store: BlockStore, ctx: Context) {
    |ctx.fetched| == |ctx.readers|
    && forall d :: 0 <= d < |ctx.fetched| && ctx.fetched[d].Fetched? ==>
         ctx.readers[d] in store && ctx.fetched[d].block == store[ctx.readers[d]]
  }

  /** A write job that is pending in the context is planned for the chunks after those
      of the last writer, and waits for that to release it. */
  ghost predicate ContextOk(a: Asset, ctx: Context, last: Option<Writer>) {
    && (ctx.pending ==>
          && ctx.offset == (if last.None? then 0 else last.value.to)
          && ctx.offset <= |a.blocks|
          && Batch(ctx.readers, ctx.offset + ctx.count) == Gather(a.blocks, ctx.offset, a.max, []))
    && (last.None? ==> ctx.pending && ctx.synced)
    && (last.Some? ==>
          var w := last.value;
          && (if w.stage == Failed then ctx.pending ==> w.next else ctx.pending <==> w.next)
          && (w.next ==>
                && 0 < w.to < |a.blocks| && w.stage in {Writing, Released, Finished, Failed}
                && (ctx.synced <==> w.stage != Writing))
          && (!w.next && w.stage in {Writing, Finished} ==> w.to == |a.blocks|)
          && (w.stage == Released ==> w.next)
          && (w.stage in {Released, Finished} ==> w.pos == w.to)
          && (w.stage in {Copied, Opened} ==> w.pos == w.from))
  }

  /** The last write job is one that finds, or leaves, the file open. */
  predicate KeepsOpen(ws: seq<Writer>) {
    ws != [] &&
    var w := ws[|ws| - 1];
    w.stage in {Opened, Writing, Released} || (w.stage == Finished && w.next) || (w.stage == Copied && |ws| > 1)
  }

  /** The file is opened once, by the first write job, and closed once, by the last or by one
      that fails. */
  ghost predicate HandleOk(s: Pipeline) {
    && (s.file.Open? <==> KeepsOpen(s.writers))
    && (s.file.Closed? ==> s.writers != [] && (GoneWrong(Last(s.writers)) || Last(s.writers).value.stage == Finished))
    && (s.file == NotOpen ==> s.writers == [] || (|s.writers| == 1 && Last(s.writers).value.stage in {Copied, Failed}))
    && s.opens == (if s.file == NotOpen then 0 else 1) && s.closes == (if s.file.Closed? then 1 else 0)
  }

  /** The last write job writes its next chunk where it belongs. */
  ghost predicate PlaceOk(a: Asset, bytes: nat -> seq<byte>, last: Option<Writer>) {
    last.Some? && Active(last.value) && last.value.pos <= |a.hashes| ==>
        last.value.at == Offset(Contents(a, bytes), last.value.pos)
  }

  /** Unless a write job failed, an open or closed file holds the chunks written so far. */
  ghost predicate FileOk(pieces: seq<seq<byte>>, file: File, last: Option<Writer>) {
    file != NotOpen && !GoneWrong(last) ==>
      var pos := Position(last);
      && pos <= |pieces| && |file.content| == |Flatten(pieces)| && Offset(pieces, pos) <= |file.content|
      && file.content[..Offset(pieces, pos)] == Flatten(pieces[..pos])
  }

  /** Up to which chunk writes are planned. */
  function PlannedTo(ctx: Context, last: Option<Writer>): nat {
    if last.None? || last.value.next then ctx.offset + ctx.count else last.value.to
  }

  /** The jobs created and those still to come are the jobs that were counted. */
  ghost predicate JobsOk(a: Asset, created: nat, planned: nat)
    requires AssetOk(a)
  {
    planned <= |a.blocks| && created + JobsFrom(a.blocks, planned, a.max) == AssetJobs(a.blocks, a.max)
  }

  /** The last of all write jobs has stored its success. */
  ghost predicate ErrOk(s: Pipeline) {
    s.writers != [] && Last(s.writers).value.stage == Finished && !Last(s.writers).value.next ==> s.err == None
  }

  ghost predicate PipelineOk(a: Asset, store: BlockStore, bytes: nat -> seq<byte>, s: Pipeline) {
    && Described(a, store, bytes) && WritesInOrder(a, s.writers) && CopiesOk(a, store, s.writers)
    && FetchesOk(store, s.ctx) && ContextOk(a, s.ctx, Last(s.writers)) && HandleOk(s) && ErrOk(s)
    && PlaceOk(a, bytes, Last(s.writers)) && FileOk(Contents(a, bytes), s.file, Last(s.writers))
    && JobsOk(a, s.created, PlannedTo(s.ctx, Last(s.writers)))
  }

  lemma BeginOk(a: Asset, store: BlockStore, bytes: nat -> seq<byte>)
    requires Described(a, store, bytes)
    ensures PipelineOk(a, store, bytes, Begin(a))
  {
    hide Flatten, Offset, BlockDescribes;
  }

  /** Only the last write job can be doing anything with the file. */
  lemma OneWriter(a: Asset, ws: seq<Writer>, k: nat)
    requires WritesInOrder(a, ws) && k < |ws| && Active(ws[k])
    ensures k == |ws| - 1
  {
  }

  /** A write job that has started acts only if it is the last, but for storing its
      success; it changes only itself. */
  lemma WriterActs(a: Asset, store: BlockStore, s: Pipeline, e: WriteEvent)
    requires AssetOk(a) && WritesInOrder(a, s.writers) && Step(a, store, s, e).Some? && OfWriter(e)
    ensures e.k < |s.writers| == |Step(a, store, s, e).value.writers|
    ensures Step(a, store, s, e).value.writers == s.writers[e.k := Step(a, store, s, e).value.writers[e.k]]
    ensures if e.Finish? then s.writers[e.k].stage == Released else Active(s.writers[e.k]) && e.k == |s.writers| - 1
  {
    hide Gather, JobsFrom, Planned, ChunkData, Storages.Overwrite, HasChunkIn, WritesInOrder, BatchJobs;
    if !e.Finish? {
      OneWriter(a, s.writers, e.k);
    }
  }

  /** What a step makes of the write job that acts. */
  lemma WriterMoves(a: Asset, store: BlockStore, s: Pipeline, e: WriteEvent)
    requires AssetOk(a) && WritesInOrder(a, s.writers) && Step(a, store, s, e).Some? && OfWriter(e)
    ensures e.k < |s.writers| == |Step(a, store, s, e).value.writers|
    ensures var w, w' := s.writers[e.k], Step(a, store, s, e).value.writers[e.k];
            && w'.from == w.from && w'.to == w.to && w'.readers == w.readers && w'.copies == w.copies
            && w.pos <= w'.pos && (w.pos <= w.to ==> w'.pos <= w.to) && (w'.pos != w.pos ==> e.WriteChunk?)
            && (Active(w') ==> Active(w)) && w'.stage != Copied && w.stage != Failed
            && (e.Finish? ==> w' == w.(stage := Finished))
            && (w'.stage in {Released, Finished} ==> w'.pos == w'.to || e.Finish?)
            && (w'.stage != Failed ==> w'.stage != Finished || e.Finish? || e.Close?)
  {
    hide Gather, JobsFrom, Planned, ChunkData, Storages.Overwrite, HasChunkIn, WritesInOrder, BatchJobs;
  }

  lemma ReleasedIsComplete(a: Asset, ctx: Context, ws: seq<Writer>, k: nat)
    requires WritesInOrder(a, ws) && ContextOk(a, ctx, Last(ws)) && k < |ws| && ws[k].stage == Released
    ensures IsComplete(ws[k])
  {
    hide Gather;
  }

  lemma WriterKeepsOrder(a: Asset, store: BlockStore, bytes: nat -> seq<byte>, s: Pipeline, e: WriteEvent)
    requires PipelineOk(a, store, bytes, s) && Step(a, store, s, e).Some? && OfWriter(e)
    ensures WritesInOrder(a, Step(a, store, s, e).value.writers)
              && CopiesOk(a, store, Step(a, store, s, e).value.writers)
  {
    hide Gather, FileOk, JobsOk, PlaceOk, ErrOk, WritesInOrder, CopiesOk, Described, Step, HandleOk, ContextOk,
         FetchesOk, IsComplete;
    AssetIsOk(a, store, bytes);
    var ws, s' := s.writers, Step(a, store, s, e).value;
    WriterActs(a, store, s, e);
    WriterMoves(a, store, s, e);
    if e.Finish? {
      ReleasedIsComplete(a, s.ctx, ws, e.k);
      StaysComplete(ws[e.k], s'.writers[e.k]);
    } else {
      NotComplete(ws[e.k]);
    }
    WriterMoved(a, store, ws, e.k, s'.writers[e.k]);
  }

  lemma StaysComplete(w: Writer, w': Writer)
    requires IsComplete(w) && w' == w.(stage := Finished)
    ensures IsComplete(w') && !Active(w')
  {
  }

  lemma NotComplete(w: Writer)
    requires Active(w)
    ensures !IsComplete(w)
  {
  }

  lemma StartKeepsOrder(a: Asset, store: BlockStore, bytes: nat -> seq<byte>, s: Pipeline)
    requires PipelineOk(a, store, bytes, s) && Step(a, store, s, StartWrite).Some?
    ensures var ws := Step(a, store, s, StartWrite).value.writers; WritesInOrder(a, ws) && CopiesOk(a, store, ws)
  {
    hide Gather, JobsFrom, FileOk, JobsOk, PlaceOk, ErrOk, Flatten, Offset, WritesInOrder, CopiesOk, Described,
         FirstError, Sum;
    AssetIsOk(a, store, bytes);
    var ws, s' := s.writers, Step(a, store, s, StartWrite).value;
    if s'.writers != ws {
      assert Gather(a.blocks, s.ctx.offset, a.max, []).end == s.ctx.offset + s.ctx.count;
      if ws != [] {
        LastInOrder(a, ws);
      }
      WriterAdded(a, store, ws, s'.writers[|ws|]);
    }
  }

  lemma AssetIsOk(a: Asset, store: BlockStore, bytes: nat -> seq<byte>)
    requires Described(a, store, bytes)
    ensures AssetOk(a)
  {
  }

  lemma LastInOrder(a: Asset, ws: seq<Writer>)
    requires WritesInOrder(a, ws) && ws != []
    ensures ws[|ws| - 1].from <= ws[|ws| - 1].pos <= ws[|ws| - 1].to <= |a.blocks|
  {
  }

  lemma WriterAdded(a: Asset, store: BlockStore, ws: seq<Writer>, w: Writer)
    requires WritesInOrder(a, ws) && CopiesOk(a, store, ws) && w.from == w.pos <= w.to <= |a.blocks|
    requires Batch(w.readers, w.to) == Gather(a.blocks, w.from, a.max, [])
    requires w.stage != Failed ==> CopiesOf(store, w.readers, w.copies)
    requires if ws == [] then w.from == 0
             else ws[|ws| - 1].to == w.from < |a.blocks| && IsComplete(ws[|ws| - 1])
    ensures WritesInOrder(a, ws + [w]) && CopiesOk(a, store, ws + [w])
  {
    hide Gather, CopiesOf;
  }

  lemma WriterMoved(a: Asset, store: BlockStore, ws: seq<Writer>, k: nat, w: Writer)
    requires WritesInOrder(a, ws) && CopiesOk(a, store, ws) && k < |ws| && (IsComplete(ws[k]) || k == |ws| - 1)
    requires w.from == ws[k].from && ws[k].pos <= w.pos && w.to == ws[k].to && w.readers == ws[k].readers
               && w.copies == ws[k].copies
    requires ws[k].pos <= ws[k].to ==> w.pos <= w.to
    requires ws[k].stage != Failed && (IsComplete(ws[k]) ==> IsComplete(w))
    ensures WritesInOrder(a, ws[k := w]) && CopiesOk(a, store, ws[k := w])
  {
    hide Gather, CopiesOf;
  }

  lemma StepKeepsFetches(a: Asset, store: BlockStore, s: Pipeline, e: WriteEvent)
    requires AssetOk(a) && FetchesOk(store, s.ctx) && Step(a, store, s, e).Some?
    ensures FetchesOk(store, Step(a, store, s, e).value.ctx)
  {
    hide Gather, JobsFrom, ChunkData, Storages.Overwrite, HasChunkIn, BatchJobs, FirstError, Sum;
  }

  /** A step of a write job that has started, other than storing its success, is one of the
      last write job. */
  lemma LastActs(a: Asset, store: BlockStore, s: Pipeline, e: WriteEvent)
    requires AssetOk(a) && WritesInOrder(a, s.writers) && Step(a, store, s, e).Some? && OfWriter(e) && !e.Finish?
    ensures s.writers != [] && e.k == |s.writers| - 1 && Active(Last(s.writers).value)
    ensures Step(a, store, s, e).value.writers != []
    ensures Last(Step(a, store, s, e).value.writers).value == Step(a, store, s, e).value.writers[e.k]
  {
    hide Step, WritesInOrder;
    WriterActs(a, store, s, e);
  }

  /** Storing a success only turns Released into Finished. */
  lemma LastAfterFinish(a: Asset, store: BlockStore, s: Pipeline, k: nat)
    requires AssetOk(a) && Step(a, store, s, Finish(k)).Some?
    ensures var s' := Step(a, store, s, Finish(k)).value;
            && s'.writers != [] && s.writers != [] && s' == s.(writers := s'.writers, err := None)
            && (if k == |s.writers| - 1
                then Last(s.writers).value.stage == Released
                && Last(s'.writers).value == Last(s.writers).value.(stage := Finished)
                else Last(s'.writers) == Last(s.writers))
            && |s'.writers| == |s.writers|
  {
  }

  lemma ActKeepsContext(a: Asset, store: BlockStore, bytes: nat -> seq<byte>, s: Pipeline, e: WriteEvent)
    requires PipelineOk(a, store, bytes, s) && Step(a, store, s, e).Some? && OfWriter(e) && !e.Finish?
    ensures ContextOk(a, Step(a, store, s, e).value.ctx, Last(Step(a, store, s, e).value.writers))
  {
    hide Gather, JobsFrom, FileOk, JobsOk, PlaceOk, ErrOk, FetchesOk, WritesInOrder, CopiesOk, Described, Sum,
         ChunkData, Storages.Overwrite, HasChunkIn, BatchJobs, HandleOk;
    AssetIsOk(a, store, bytes);
    LastActs(a, store, s, e);
    LastInOrder(a, s.writers);
    BatchAdvances(a, store, s.writers, e.k);
  }

  /** A write job with chunks left after it has some itself. */
  lemma BatchAdvances(a: Asset, store: BlockStore, ws: seq<Writer>, k: nat)
    requires AssetOk(a) && CopiesOk(a, store, ws) && k < |ws|
    ensures ws[k].to < |a.blocks| ==> ws[k].to > 0
  {
    assert Gather(a.blocks, ws[k].from, a.max, []).end == ws[k].to;
  }

  lemma ActKeepsHandle(a: Asset, store: BlockStore, bytes: nat -> seq<byte>, s: Pipeline, e: WriteEvent)
    requires PipelineOk(a, store, bytes, s) && Step(a, store, s, e).Some? && OfWriter(e) && !e.Finish?
    ensures HandleOk(Step(a, store, s, e).value) && ErrOk(Step(a, store, s, e).value)
  {
    hide Gather, JobsFrom, FileOk, JobsOk, PlaceOk, FetchesOk, WritesInOrder, CopiesOk, Described, Sum, ChunkData,
         Storages.Overwrite, HasChunkIn, BatchJobs, Planned;
    AssetIsOk(a, store, bytes);
    WriterActs(a, store, s, e);
    LastActs(a, store, s, e);
  }

  lemma ActKeepsPlace(a: Asset, store: BlockStore, bytes: nat -> seq<byte>, s: Pipeline, e: WriteEvent)
    requires PipelineOk(a, store, bytes, s) && Step(a, store, s, e).Some? && OfWriter(e) && !e.Finish?
    ensures PlaceOk(a, bytes, Last(Step(a, store, s, e).value.writers))
  {
    hide Gather, JobsFrom, FileOk, JobsOk, FetchesOk, WritesInOrder, CopiesOk, Sum, ChunkData, Storages.Overwrite,
         HasChunkIn, BatchJobs, Offset, Flatten, HandleOk, ErrOk, ContextOk, BlockDescribes, Contents, Planned;
    LastActs(a, store, s, e);
    if e.WriteChunk? {
      ChunkFound(a, store, bytes, s.writers, e.k, e.b, e.c);
      OffsetNext(Contents(a, bytes), s.writers[e.k].pos);
    }
  }

  /** An entry with the hash of the chunk has the bytes of the chunk. */
  lemma ChunkFound(a: Asset, store: BlockStore, bytes: nat -> seq<byte>, ws: seq<Writer>, k: nat, b: nat, c: nat)
    requires Described(a, store, bytes) && CopiesOk(a, store, ws) && k < |ws| && Active(ws[k])
    requires b < |ws[k].copies| && c < |ws[k].copies[b].chunkHashes| && ws[k].pos < |a.hashes|
    requires ws[k].copies[b].chunkHashes[c] == a.hashes[ws[k].pos]
    ensures c < |ws[k].copies[b].chunkSizes|
    ensures ws[k].copies[b].chunkSizes[c] == |Contents(a, bytes)[ws[k].pos]|
    ensures ChunkData(ws[k].copies[b], c) == Contents(a, bytes)[ws[k].pos]
  {
    hide ChunkData, BlockDescribes, Gather;
    assert ws[k].copies[b] == store[ws[k].readers[b]];
    ChunkDataIs(ws[k].copies[b], c, bytes);
  }

  lemma ActKeepsFile(a: Asset, store: BlockStore, bytes: nat -> seq<byte>, s: Pipeline, e: WriteEvent)
    requires PipelineOk(a, store, bytes, s) && Step(a, store, s, e).Some? && OfWriter(e) && !e.Finish?
    ensures FileOk(Contents(a, bytes), Step(a, store, s, e).value.file, Last(Step(a, store, s, e).value.writers))
  {
    hide Gather, JobsFrom, JobsOk, FetchesOk, WritesInOrder, CopiesOk, Sum, ChunkData, Storages.Overwrite, HasChunkIn,
         BatchJobs, Offset, Flatten, HandleOk, ErrOk, ContextOk, BlockDescribes, Contents, PlaceOk, Planned;
    var pieces := Contents(a, bytes);
    LastActs(a, store, s, e);
    match e
    case OpenFile(k, content) =>
      NothingWritten(pieces, content);
      if s.file == NotOpen {
        FirstFrom(a, s);
      }
    case WriteChunk(k, b, c) =>
      ChunkFound(a, store, bytes, s.writers, k, b, c);
      WritesHere(a, bytes, s.writers[k]);
      ChunkWritten(pieces, s.file.content, s.writers[k].pos);
    case _ =>
  }

  lemma WritesHere(a: Asset, bytes: nat -> seq<byte>, w: Writer)
    requires PlaceOk(a, bytes, Some(w)) && Active(w) && w.pos <= |a.hashes|
    ensures w.at == Offset(Contents(a, bytes), w.pos)
  {
  }

  lemma FirstFrom(a: Asset, s: Pipeline)
    requires WritesInOrder(a, s.writers) && HandleOk(s) && ContextOk(a, s.ctx, Last(s.writers)) && s.writers != []
    requires s.file == NotOpen && Last(s.writers).value.stage == Copied
    ensures Last(s.writers).value.pos == 0
  {
    hide Gather;
    assert s.writers[0].from == 0;
  }

  lemma NothingWritten(pieces: seq<seq<byte>>, content: seq<byte>)
    ensures Offset(pieces, 0) == 0 && content[..0] == Flatten(pieces[..0])
  {
  }

  /** Writing the next chunk behind the chunks that are there. */
  lemma ChunkWritten(pieces: seq<seq<byte>>, content: seq<byte>, pos: nat)
    requires pos < |pieces| && |content| == |Flatten(pieces)| && Offset(pieces, pos) <= |content|
    requires content[..Offset(pieces, pos)] == Flatten(pieces[..pos])
    ensures Offset(pieces, pos) + |pieces[pos]| == Offset(pieces, pos + 1) <= |content|
    ensures var after := Storages.Overwrite(content, Offset(pieces, pos), pieces[pos]);
            |after| == |content| && after[..Offset(pieces, pos + 1)] == Flatten(pieces[..pos + 1])
  {
    hide Flatten, Offset;
    PieceSlice(pieces, pos);
    FlattenSnoc(pieces[..pos], pieces[pos]);
    assert pieces[..pos + 1] == pieces[..pos] + [pieces[pos]];
  }

  lemma ActKeepsJobs(a: Asset, store: BlockStore, bytes: nat -> seq<byte>, s: Pipeline, e: WriteEvent)
    requires PipelineOk(a, store, bytes, s) && Step(a, store, s, e).Some? && OfWriter(e) && !e.Finish?
    ensures var s' := Step(a, store, s, e).value; JobsOk(a, s'.created, PlannedTo(s'.ctx, Last(s'.writers)))
  {
    hide Gather, FileOk, FetchesOk, WritesInOrder, CopiesOk, Sum, ChunkData, Storages.Overwrite, HasChunkIn, Offset,
         Flatten, HandleOk, ErrOk, BlockDescribes, Contents, PlaceOk, AssetJobs, BatchJobs;
    LastActs(a, store, s, e);
  }

  lemma ActOk(a: Asset, store: BlockStore, bytes: nat -> seq<byte>, s: Pipeline, e: WriteEvent)
    requires PipelineOk(a, store, bytes, s) && Step(a, store, s, e).Some? && OfWriter(e) && !e.Finish?
    ensures PipelineOk(a, store, bytes, Step(a, store, s, e).value)
  {
    hide Step, WritesInOrder, CopiesOk, ContextOk, HandleOk, FileOk, JobsOk, PlaceOk, ErrOk, FetchesOk, Described,
         GoneWrong, OfWriter;
    AssetIsOk(a, store, bytes);
    WriterKeepsOrder(a, store, bytes, s, e);
    StepKeepsFetches(a, store, s, e);
    ActKeepsContext(a, store, bytes, s, e);
    ActKeepsHandle(a, store, bytes, s, e);
    ActKeepsPlace(a, store, bytes, s, e);
    ActKeepsFile(a, store, bytes, s, e);
    ActKeepsJobs(a, store, bytes, s, e);
  }

  lemma FinishOk(a: Asset, store: BlockStore, bytes: nat -> seq<byte>, s: Pipeline, k: nat)
    requires PipelineOk(a, store, bytes, s) && Step(a, store, s, Finish(k)).Some?
    ensures PipelineOk(a, store, bytes, Step(a, store, s, Finish(k)).value)
  {
    hide Gather, JobsFrom, JobsOk, Described, WritesInOrder, CopiesOk, FetchesOk, Contents, Flatten, Offset, Step;
    AssetIsOk(a, store, bytes);
    WriterKeepsOrder(a, store, bytes, s, Finish(k));
    LastAfterFinish(a, store, s, k);
  }

  /** The write job that is pending finds the file open, unless it is the first or the one
      before it failed. */
  lemma OffsetOfNext(a: Asset, s: Pipeline)
    requires ContextOk(a, s.ctx, Last(s.writers)) && HandleOk(s) && s.ctx.pending
    ensures s.writers == [] ==> s.ctx.offset == 0 && s.file == NotOpen
    ensures s.writers != [] ==> s.ctx.offset > 0 && s.ctx.offset == Last(s.writers).value.to
    ensures GoneWrong(Last(s.writers)) ==> !s.file.Open?
    ensures s.writers != [] && s.ctx.synced && !GoneWrong(Last(s.writers)) ==>
              s.file.Open? && Last(s.writers).value.pos == s.ctx.offset
  {
    hide Gather;
  }

  lemma StartsWriter(a: Asset, store: BlockStore, s: Pipeline)
    requires AssetOk(a) && ContextOk(a, s.ctx, Last(s.writers)) && HandleOk(s) && Step(a, store, s, StartWrite).Some?
    ensures var s' := Step(a, store, s, StartWrite).value;
            && s.ctx.pending && s.ctx.synced && s'.ctx == s.ctx.(pending := false) && s'.created == s.created
            && (GoneWrong(Last(s.writers)) ==> s' == s.(ctx := s'.ctx))
            && (!GoneWrong(Last(s.writers)) ==>
                  && |s'.writers| == |s.writers| + 1 && s'.opens == s.opens
                  && var w := s'.writers[|s.writers|];
                  && Last(s'.writers) == Some(w) && w.from == w.pos == s.ctx.offset
                  && w.to == s.ctx.offset + s.ctx.count && !w.next
                  && w.at == Sum(a.sizes[..w.pos]) && w.pos <= |a.sizes|
                  && (w.stage == Copied || (w.stage == Failed && s'.err.Some?))
                  && s'.file == (if w.stage == Copied then s.file else CloseIfOpen(s.file))
                  && s'.closes == s.closes + if w.stage == Failed && s.file.Open? then 1 else 0)
  {
    hide Gather, FirstError, Sum;
    OffsetOfNext(a, s);
  }

  lemma StartOk(a: Asset, store: BlockStore, bytes: nat -> seq<byte>, s: Pipeline)
    requires PipelineOk(a, store, bytes, s) && Step(a, store, s, StartWrite).Some?
    ensures PipelineOk(a, store, bytes, Step(a, store, s, StartWrite).value)
  {
    hide Gather, JobsFrom, AssetJobs, WritesInOrder, CopiesOk, FetchesOk, Contents, Flatten, Offset, Step,
         BlockDescribes, Sum;
    StartKeepsOrder(a, store, bytes, s);
    StepKeepsFetches(a, store, s, StartWrite);
    StartsWriter(a, store, s);
    OffsetOfNext(a, s);
    var s' := Step(a, store, s, StartWrite).value;
    if s'.writers != [] {
      var w := s'.writers[|s'.writers| - 1];
      if w.pos <= |a.sizes| {
        SumIsOffset(Contents(a, bytes), a.sizes, w.pos);
      }
    }
  }

  lemma ReadOk(a: Asset, store: BlockStore, bytes: nat -> seq<byte>, s: Pipeline, e: WriteEvent)
    requires PipelineOk(a, store, bytes, s) && Step(a, store, s, e).Some? && !OfWriter(e) && e != StartWrite
    ensures PipelineOk(a, store, bytes, Step(a, store, s, e).value)
    ensures Step(a, store, s, e).value == s.(ctx := s.ctx.(fetched := Step(a, store, s, e).value.ctx.fetched))
  {
    hide Gather, JobsFrom, AssetJobs, Described, WritesInOrder, CopiesOk, FetchesOk, Contents, Flatten, Offset, FileOk,
         PlaceOk, KeepsOpen;
    AssetIsOk(a, store, bytes);
    StepKeepsFetches(a, store, s, e);
  }

  lemma StepOk(a: Asset, store: BlockStore, bytes: nat -> seq<byte>, s: Pipeline, e: WriteEvent)
    requires PipelineOk(a, store, bytes, s) && Step(a, store, s, e).Some?
    ensures PipelineOk(a, store, bytes, Step(a, store, s, e).value)
  {
    hide Step, PipelineOk;
    if e.Finish? {
      FinishOk(a, store, bytes, s, e.k);
    } else if OfWriter(e) {
      ActOk(a, store, bytes, s, e);
    } else if e == StartWrite {
      StartOk(a, store, bytes, s);
    } else {
      ReadOk(a, store, bytes, s, e);
    }
  }

  // ----- Over every run -----

  ghost function RunFrom(a: Asset, store: BlockStore, s: Pipeline, es: seq<WriteEvent>): Option<Pipeline>
    requires AssetOk(a)
  {
    if es == [] then Some(s)
    else
      match RunFrom(a, store, s, es[..|es| - 1])
      case None => None
      case Some(before) => Step(a, store, before, es[|es| - 1])
  }

  ghost function Run(a: Asset, store: BlockStore, es: seq<WriteEvent>): Option<Pipeline>
    requires AssetOk(a)
  {
    RunFrom(a, store, Begin(a), es)
  }

  lemma {:induction false} RunKeepsOk(a: Asset, store: BlockStore, bytes: nat -> seq<byte>, s: Pipeline,
                                      es: seq<WriteEvent>)
    requires AssetOk(a) && PipelineOk(a, store, bytes, s) && RunFrom(a, store, s, es).Some?
    ensures PipelineOk(a, store, bytes, RunFrom(a, store, s, es).value)
  {
    hide Step, PipelineOk;
    if es != [] {
      RunKeepsOk(a, store, bytes, s, es[..|es| - 1]);
      StepOk(a, store, bytes, RunFrom(a, store, s, es[..|es| - 1]).value, es[|es| - 1]);
    }
  }

  lemma RunOk(a: Asset, store: BlockStore, bytes: nat -> seq<byte>, es: seq<WriteEvent>)
    requires Described(a, store, bytes) && Run(a, store, es).Some?
    ensures PipelineOk(a, store, bytes, Run(a, store, es).value)
  {
    hide Step, PipelineOk, Begin, RunFrom;
    BeginOk(a, store, bytes);
    RunKeepsOk(a, store, bytes, Begin(a), es);
  }

  /** All jobs of the asset are over. */
  predicate IsOver(s: Pipeline) {
    !s.ctx.pending && s.writers != [] && forall k :: 0 <= k < |s.writers| ==> s.writers[k].stage in {Finished, Failed}
  }

  /** The partial writes cover the chunks from 0 up to the end of the last, each once. */
  ghost predicate Covers(ws: seq<Writer>, end: nat) {
    && ws != [] && ws[0].from == 0 && ws[|ws| - 1].to == end
    && (forall j, k :: 0 <= j && k == j + 1 < |ws| ==> ws[j].to == ws[k].from)
    && (forall k :: 0 <= k < |ws| ==> ws[k].from <= ws[k].pos == ws[k].to)
  }

  /** However reads and writes interleave, and whatever fails: at most one write job can
      touch the file; the file is opened and closed at most once, and not left open; no more
      jobs are created than were counted. Unless a write job failed, the file that is closed
      has the concatenation of the chunks, found in the blocks of the store and written by
      adjacent partial writes, with exactly the jobs that were counted. */
  lemma EveryRunWritesTheAsset(a: Asset, store: BlockStore, bytes: nat -> seq<byte>, es: seq<WriteEvent>)
    requires Described(a, store, bytes) && Run(a, store, es).Some?
    ensures var s := Run(a, store, es).value;
            && (forall k :: 0 <= k < |s.writers| && Active(s.writers[k]) ==> k == |s.writers| - 1)
            && s.created <= AssetJobs(a.blocks, a.max) && s.closes <= s.opens <= 1
                 && (IsOver(s) ==> s.opens == s.closes)
            && (IsOver(s) && !GoneWrong(Last(s.writers)) ==> s.file.Closed? && s.err == None)
            && (s.file.Closed? && !GoneWrong(Last(s.writers)) ==>
                  && s.file.content == Flatten(Contents(a, bytes)) && s.opens == s.closes == 1
                  && Covers(s.writers, |a.hashes|) && s.created == AssetJobs(a.blocks, a.max))
  {
    hide Gather, JobsFrom, Flatten, Offset, CopiesOk, Run, FetchesOk, PlaceOk, Contents, BlockDescribes;
    RunOk(a, store, bytes, es);
    var s := Run(a, store, es).value;
    if s.file.Closed? && !GoneWrong(Last(s.writers)) {
      NoJobsAfterTheEnd(a);
      var pieces := Contents(a, bytes);
      OffsetEnds(pieces);
      assert pieces[..|pieces|] == pieces;
      assert s.file.content[..|s.file.content|] == s.file.content;
    }
  }

  lemma NoJobsAfterTheEnd(a: Asset)
    requires AssetOk(a)
    ensures JobsFrom(a.blocks, |a.blocks|, a.max) == 0
  {
  }

  /** Every chunk of the asset is in the block that is to hold it, if the store has that. */
  ghost predicate BlocksHold(a: Asset, store: BlockStore)
    requires AssetOk(a)
  {
    forall c :: 0 <= c < |a.blocks| && a.blocks[c] in store ==> a.hashes[c] in store[a.blocks[c]].chunkHashes
  }

  lemma {:induction false} CopiesHold(a: Asset, store: BlockStore, w: Writer, c: nat)
    requires AssetOk(a) && BlocksHold(a, store) && w.from <= c < w.to && w.from <= |a.blocks|
    requires Batch(w.readers, w.to) == Gather(a.blocks, w.from, a.max, []) && CopiesOf(store, w.readers, w.copies)
    ensures c < |a.hashes| && HasChunkIn(w.copies, a.hashes[c])
  {
    hide Gather;
    GatherCovers(a.blocks, w.from, a.max, [], c);
    var d :| 0 <= d < |w.readers| && w.readers[d] == a.blocks[c];
    assert w.copies[d] == store[a.blocks[c]];
  }

  /** The blocks a write job copied hold every chunk it writes. */
  lemma LookupNeverFails(a: Asset, store: BlockStore, bytes: nat -> seq<byte>, s: Pipeline, k: nat)
    requires PipelineOk(a, store, bytes, s) && BlocksHold(a, store)
    ensures Step(a, store, s, LookupFails(k)) == None
  {
    hide JobsFrom, FileOk, JobsOk, HandleOk, ContextOk, Gather, PlaceOk, ErrOk, FetchesOk, BlockDescribes, Flatten,
         BlocksHold, HasChunkIn, CopiesOf;
    if k < |s.writers| && Active(s.writers[k]) && s.writers[k].pos < s.writers[k].to {
      CopiesHold(a, store, s.writers[k], s.writers[k].pos);
    }
  }

  /** Until all jobs are over some job can go on: the pipeline never waits for itself. */
  lemma NeverStuck(a: Asset, store: BlockStore, bytes: nat -> seq<byte>, s: Pipeline) returns (e: WriteEvent)
    requires PipelineOk(a, store, bytes, s) && !IsOver(s)
    ensures Step(a, store, s, e).Some?
  {
    hide JobsFrom, JobsOk, Gather, Flatten, Offset, CopiesOk, Step, FileOk, PlaceOk, FetchesOk, Described, HandleOk;
    e := StartWrite;
    if k :| 0 <= k < |s.writers| && s.writers[k].stage == Released {
      e := Finish(k);
      FinishPossible(a, store, bytes, s, k);
    } else if s.writers != [] && Active(Last(s.writers).value) {
      e := WriterGoesOn(a, store, bytes, s);
    } else if d :| 0 <= d < |s.ctx.fetched| && (s.ctx.fetched[d] == Idle || s.ctx.fetched[d] == Reading) {
      e := ReadGoesOn(a, store, bytes, s, d);
    } else {
      StartPossible(a, store, bytes, s);
    }
  }

  lemma FinishPossible(a: Asset, store: BlockStore, bytes: nat -> seq<byte>, s: Pipeline, k: nat)
    requires PipelineOk(a, store, bytes, s) && k < |s.writers| && s.writers[k].stage == Released
    ensures Step(a, store, s, Finish(k)).Some?
  {
    hide JobsOk, Gather, WritesInOrder, CopiesOk, FileOk, PlaceOk, FetchesOk, HandleOk, ContextOk;
  }

  lemma ReadGoesOn(a: Asset, store: BlockStore, bytes: nat -> seq<byte>, s: Pipeline, d: nat) returns (e: WriteEvent)
    requires PipelineOk(a, store, bytes, s) && d < |s.ctx.fetched|
               && (s.ctx.fetched[d] == Idle || s.ctx.fetched[d] == Reading)
    ensures Step(a, store, s, e).Some?
  {
    hide JobsOk, Gather, WritesInOrder, CopiesOk, FileOk, PlaceOk, HandleOk, ContextOk;
    e := if s.ctx.fetched[d] == Idle then StartRead(d)
         else if s.ctx.readers[d] in store then FinishRead(d) else FailRead(d, ENOENT);
  }

  lemma StartPossible(a: Asset, store: BlockStore, bytes: nat -> seq<byte>, s: Pipeline)
    requires PipelineOk(a, store, bytes, s) && !IsOver(s)
    requires forall k :: 0 <= k < |s.writers| ==> s.writers[k].stage != Released
    requires s.writers != [] ==> !Active(Last(s.writers).value)
    requires forall d :: 0 <= d < |s.ctx.fetched| ==> s.ctx.fetched[d] != Idle && s.ctx.fetched[d] != Reading
    ensures Step(a, store, s, StartWrite).Some?
  {
    hide JobsOk, Gather, CopiesOk, FileOk, PlaceOk, HandleOk, FetchesOk, BlockDescribes, Flatten, Contents,
         WritesInOrder;
    assert AllRead(s.ctx.fetched);
    forall k | 0 <= k < |s.writers|
      ensures s.writers[k].stage in {Finished, Failed}
    {
      if Active(s.writers[k]) {
        OneWriter(a, s.writers, k);
      }
    }
  }

  lemma WriterGoesOn(a: Asset, store: BlockStore, bytes: nat -> seq<byte>, s: Pipeline) returns (e: WriteEvent)
    requires PipelineOk(a, store, bytes, s) && s.writers != [] && Active(Last(s.writers).value)
    ensures Step(a, store, s, e).Some?
  {
    hide JobsOk, Gather, Flatten, Offset, CopiesOk, FetchesOk, BlockDescribes, Contents, PlaceOk, WritesInOrder, ErrOk;
    var k := |s.writers| - 1;
    var w := s.writers[k];
    LastInOrder(a, s.writers);
    match w.stage
    case Copied =>
      var content := AnyContent(a.size);
      e := OpenFile(k, content);
    case Opened => e := PlanNext(k);
    case Writing =>
      if w.pos < w.to {
        e := ChunkGoesOn(a, store, bytes, s);
      } else {
        e := if w.next then Release(k) else Close(k);
      }
  }

  /** The next chunk is written, or is not in any of the copied blocks. */
  lemma ChunkGoesOn(a: Asset, store: BlockStore, bytes: nat -> seq<byte>, s: Pipeline) returns (e: WriteEvent)
    requires PipelineOk(a, store, bytes, s) && s.writers != []
    requires Last(s.writers).value.stage == Writing && Last(s.writers).value.pos < Last(s.writers).value.to
    ensures Step(a, store, s, e).Some?
  {
    hide JobsOk, Gather, Flatten, Offset, CopiesOk, FetchesOk, BlockDescribes, Contents, WritesInOrder, ErrOk,
         ContextOk, Sum;
    var k := |s.writers| - 1;
    var w := s.writers[k];
    LastInOrder(a, s.writers);
    e := LookupFails(k);
    if HasChunkIn(w.copies, a.hashes[w.pos]) {
      var b :| 0 <= b < |w.copies| && a.hashes[w.pos] in w.copies[b].chunkHashes;
      var c :| 0 <= c < |w.copies[b].chunkHashes| && w.copies[b].chunkHashes[c] == a.hashes[w.pos];
      e := WriteChunk(k, b, c);
      CopiesMatch(a, store, bytes, s.writers, k, b);
    }
  }

  lemma CopiesMatch(a: Asset, store: BlockStore, bytes: nat -> seq<byte>, ws: seq<Writer>, k: nat, b: nat)
    requires Described(a, store, bytes) && CopiesOk(a, store, ws) && k < |ws| && Active(ws[k]) && b < |ws[k].copies|
    ensures |ws[k].copies[b].chunkHashes| == |ws[k].copies[b].chunkSizes|
  {
    hide Gather;
    assert ws[k].copies[b] == store[ws[k].readers[b]];
  }

  lemma AnyContent(n: nat) returns (content: seq<byte>)
    ensures |content| == n
  {
    content := seq(n, i => 0);
  }

  // ----- Whether a failure is reported -----

  /** Every write job that released the next one has stored its success. */
  predicate AllStored(s: Pipeline) {
    forall k :: 0 <= k < |s.writers| ==> s.writers[k].stage != Released
  }

  /** A write job that fails stores its error. */
  lemma FailureStores(a: Asset, store: BlockStore, bytes: nat -> seq<byte>, s: Pipeline, e: WriteEvent)
    requires PipelineOk(a, store, bytes, s) && Step(a, store, s, e).Some?
    requires !GoneWrong(Last(s.writers)) && GoneWrong(Last(Step(a, store, s, e).value.writers))
    ensures Step(a, store, s, e).value.err.Some?
  {
    hide JobsOk, Gather, CopiesOk, FileOk, PlaceOk, FetchesOk, Described, JobsFrom, ChunkData, Storages.Overwrite,
         HasChunkIn, Sum, WritesInOrder, BatchJobs;
    AssetIsOk(a, store, bytes);
    if e.Finish? {
      LastAfterFinish(a, store, s, e.k);
    } else if OfWriter(e) {
      LastActs(a, store, s, e);
    } else if e == StartWrite {
      StartsWriter(a, store, s);
    } else {
      ReadOk(a, store, bytes, s, e);
    }
  }

  /** After a failure only stored successes change the error field. */
  lemma AfterFailure(a: Asset, store: BlockStore, bytes: nat -> seq<byte>, s: Pipeline, e: WriteEvent)
    requires PipelineOk(a, store, bytes, s) && Step(a, store, s, e).Some? && GoneWrong(Last(s.writers))
    ensures var s' := Step(a, store, s, e).value;
            && GoneWrong(Last(s'.writers))
            && (if e.Finish? then s'.err == None && !AllStored(s) else s'.err == s.err && s'.writers == s.writers)
  {
    hide JobsOk, Gather, CopiesOk, FileOk, PlaceOk, FetchesOk, Described, JobsFrom, Sum, WritesInOrder, Step;
    AssetIsOk(a, store, bytes);
    if e.Finish? {
      LastAfterFinish(a, store, s, e.k);
      WriterActs(a, store, s, e);
    } else if OfWriter(e) {
      LastActs(a, store, s, e);
    } else if e == StartWrite {
      StartsWriter(a, store, s);
    } else {
      ReadOk(a, store, bytes, s, e);
    }
  }

  lemma {:induction false} RunAfterFailure(a: Asset, store: BlockStore, bytes: nat -> seq<byte>, s: Pipeline,
                                           es: seq<WriteEvent>)
    requires AssetOk(a) && PipelineOk(a, store, bytes, s) && GoneWrong(Last(s.writers))
               && RunFrom(a, store, s, es).Some?
    ensures var s' := RunFrom(a, store, s, es).value;
            && GoneWrong(Last(s'.writers)) && (AllStored(s) ==> s'.err == s.err && AllStored(s'))
            && (!AllStored(s) ==> s'.err == None || !AllStored(s'))
  {
    hide Step, PipelineOk, GoneWrong, AllStored;
    if es != [] {
      var front := es[..|es| - 1];
      RunAfterFailure(a, store, bytes, s, front);
      RunKeepsOk(a, store, bytes, s, front);
      var before, after := RunFrom(a, store, s, front).value, RunFrom(a, store, s, es).value;
      AfterFailure(a, store, bytes, before, es[|es| - 1]);
      SameWritersStored(before, after);
    }
  }

  lemma SameWritersStored(s: Pipeline, s': Pipeline)
    ensures s.writers == s'.writers ==> (AllStored(s) <==> AllStored(s'))
  {
  }

  /** When all jobs are over, the failure of a write job is reported exactly if the write
      jobs before it had all stored their success when it failed. One that had not then
      overwrites the error. */
  lemma FailureReportedIff(a: Asset, store: BlockStore, bytes: nat -> seq<byte>, es: seq<WriteEvent>, e: WriteEvent,
                           more: seq<WriteEvent>)
    requires Described(a, store, bytes) && Run(a, store, es).Some? && !GoneWrong(Last(Run(a, store, es).value.writers))
    requires Step(a, store, Run(a, store, es).value, e).Some?
    requires var failed := Step(a, store, Run(a, store, es).value, e).value;
             && GoneWrong(Last(failed.writers)) && RunFrom(a, store, failed, more).Some?
             && IsOver(RunFrom(a, store, failed, more).value)
    ensures var failed := Step(a, store, Run(a, store, es).value, e).value;
            RunFrom(a, store, failed, more).value.err.Some? <==> AllStored(failed)
  {
    hide Step, PipelineOk, Run, RunFrom, Begin, GoneWrong;
    RunOk(a, store, bytes, es);
    var s := Run(a, store, es).value;
    var failed := Step(a, store, s, e).value;
    FailureStores(a, store, bytes, s, e);
    StepOk(a, store, bytes, s, e);
    RunAfterFailure(a, store, bytes, failed, more);
  }

  lemma Then(a: Asset, store: BlockStore, es: seq<WriteEvent>, s: Pipeline, e: WriteEvent)
    returns (es': seq<WriteEvent>, s': Pipeline)
    requires AssetOk(a) && Run(a, store, es) == Some(s) && Step(a, store, s, e).Some?
    ensures es' == es + [e] && Some(s') == Step(a, store, s, e) && Run(a, store, es') == Some(s')
  {
    es', s' := es + [e], Step(a, store, s, e).value;
    assert es'[..|es|] == es;
  }

  lemma RunNothing(a: Asset, store: BlockStore)
    requires AssetOk(a)
    ensures Run(a, store, []) == Some(Begin(a))
  {
  }

  // ----- When a failure can be lost -----

  /** All jobs are over, a write job has failed, and the error field says that none has. */
  ghost predicate LosesFailure(a: Asset, store: BlockStore, es: seq<WriteEvent>)
    requires AssetOk(a)
  {
    && Run(a, store, es).Some?
    && var s := Run(a, store, es).value;
       IsOver(s) && GoneWrong(Last(s.writers)) && s.err == None
  }

  /** The failure of the first write job is in the error field. */
  lemma {:induction false} FirstFailureStays(a: Asset, store: BlockStore, bytes: nat -> seq<byte>, es: seq<WriteEvent>)
    requires Described(a, store, bytes) && Run(a, store, es).Some?
    ensures var s := Run(a, store, es).value; GoneWrong(Last(s.writers)) && |s.writers| == 1 ==> s.err.Some?
  {
    hide Step, PipelineOk, Described, GoneWrong;
    AssetIsOk(a, store, bytes);
    if es == [] {
      NoneGoneWrong(a);
    } else {
      var front := es[..|es| - 1];
      FirstFailureStays(a, store, bytes, front);
      RunOk(a, store, bytes, front);
      var before, after := Run(a, store, front).value, Run(a, store, es).value;
      if GoneWrong(Last(before.writers)) {
        AfterFailure(a, store, bytes, before, es[|es| - 1]);
        if es[|es| - 1].Finish? {
          LastAfterFinish(a, store, before, es[|es| - 1].k);
        }
        if |before.writers| == 1 {
          OnlyWriterStored(before);
        }
      } else if GoneWrong(Last(after.writers)) {
        FailureStores(a, store, bytes, before, es[|es| - 1]);
      }
    }
  }

  lemma NoneGoneWrong(a: Asset)
    requires AssetOk(a)
    ensures !GoneWrong(Last(Begin(a).writers))
  {
  }

  lemma OnlyWriterStored(s: Pipeline)
    requires GoneWrong(Last(s.writers)) && |s.writers| == 1
    ensures AllStored(s)
  {
  }

  /** What a lost failure takes: the first partial write read its blocks, and left chunks to
      write. */
  lemma LostAfterFirst(a: Asset, store: BlockStore, bytes: nat -> seq<byte>, es: seq<WriteEvent>)
    requires Described(a, store, bytes) && LosesFailure(a, store, es)
    ensures var first := Gather(a.blocks, 0, a.max, []);
            first.end < |a.blocks| && forall h :: h in first.readers ==> h in store
  {
    hide Run, Step, Gather, JobsFrom, JobsOk, FileOk, HandleOk, ContextOk, PlaceOk, FetchesOk, ErrOk, Flatten,
         BlockDescribes;
    FirstFailureStays(a, store, bytes, es);
    RunOk(a, store, bytes, es);
    var s := Run(a, store, es).value;
    assert |s.writers| >= 2 && IsComplete(s.writers[0]);
    assert CopiesOf(store, s.writers[0].readers, s.writers[0].copies);
  }

  /** The blocks of the first partial write are in the store and hold its chunks. */
  ghost predicate FirstHeld(a: Asset, store: BlockStore)
    requires AssetOk(a)
  {
    forall c :: 0 <= c < Gather(a.blocks, 0, a.max, []).end ==>
      a.blocks[c] in store && a.hashes[c] in store[a.blocks[c]].chunkHashes
  }

  /** The block that a batch reads is that of one of its chunks. */
  lemma {:induction false} ReaderOfChunk(blocks: seq<nat>, at: nat, max: nat, readers: seq<nat>, h: nat)
    returns (c: nat)
    requires at <= |blocks| && h in Gather(blocks, at, max, readers).readers && h !in readers
    ensures at <= c < Gather(blocks, at, max, readers).end && blocks[c] == h
    decreases |blocks| - at
  {
    GatherNext(blocks, at, max, readers);
    if at < |blocks| && blocks[at] == h && |readers| < max {
      c := at;
    } else {
      c := ReaderOfChunk(blocks, at + 1, max, if blocks[at] in readers then readers else readers + [blocks[at]], h);
    }
  }

  /** The next job is a read that succeeds, or fails, for all reads of the context. */
  lemma AllReadsEnd(a: Asset, store: BlockStore, es: seq<WriteEvent>, s: Pipeline, succeed: bool)
    returns (es': seq<WriteEvent>, s': Pipeline)
    requires AssetOk(a) && Run(a, store, es) == Some(s) && |s.ctx.fetched| == |s.ctx.readers|
    requires forall d :: 0 <= d < |s.ctx.fetched| ==>
               s.ctx.fetched[d] == Idle && (succeed ==> s.ctx.readers[d] in store)
    ensures Run(a, store, es') == Some(s') && s' == s.(ctx := s.ctx.(fetched := s'.ctx.fetched))
    ensures |s'.ctx.fetched| == |s.ctx.readers|
    ensures forall d :: 0 <= d < |s'.ctx.fetched| ==>
              s'.ctx.fetched[d] == if succeed then Fetched(store[s.ctx.readers[d]]) else ReadFailed(ENOENT)
  {
    hide Run, Gather;
    es', s' := es, s;
    for d := 0 to |s.ctx.readers|
      invariant Run(a, store, es') == Some(s') && s' == s.(ctx := s.ctx.(fetched := s'.ctx.fetched))
      invariant |s'.ctx.fetched| == |s.ctx.readers|
      invariant forall i :: 0 <= i < d ==>
                  s'.ctx.fetched[i] == if succeed then Fetched(store[s.ctx.readers[i]]) else ReadFailed(ENOENT)
      invariant forall i :: d <= i < |s'.ctx.fetched| ==> s'.ctx.fetched[i] == Idle
    {
      es', s' := Then(a, store, es', s', StartRead(d));
      es', s' := Then(a, store, es', s', if succeed then FinishRead(d) else FailRead(d, ENOENT));
    }
  }

  /** The first write job has started, with copies of its blocks. */
  lemma FirstWriteStarts(a: Asset, store: BlockStore) returns (es: seq<WriteEvent>, s: Pipeline)
    requires AssetOk(a) && FirstHeld(a, store)
    ensures var end := Gather(a.blocks, 0, a.max, []).end;
            && Run(a, store, es) == Some(s) && s.file == NotOpen && |s.writers| == 1
            && s.writers[0].stage == Copied && s.writers[0].from == s.writers[0].pos == 0 && s.writers[0].to == end
  {
    hide Run, Gather, JobsFrom, BatchJobs, FirstHeld;
    es, s := [], Begin(a);
    RunNothing(a, store);
    FirstReadersHeld(a, store);
    es, s := AllReadsEnd(a, store, es, s, true);
    assert AllRead(s.ctx.fetched) && FirstError(s.ctx.fetched).None?;
    es, s := Then(a, store, es, s, StartWrite);
  }

  /** It has opened the file with this content and planned the next one. */
  lemma FirstWriteBegins(a: Asset, store: BlockStore, content: seq<byte>) returns (es: seq<WriteEvent>, s: Pipeline)
    requires AssetOk(a) && FirstHeld(a, store) && |content| == a.size
    requires Gather(a.blocks, 0, a.max, []).end < |a.blocks|
    ensures var end := Gather(a.blocks, 0, a.max, []).end;
            && Run(a, store, es) == Some(s) && s.ctx == Planned(a, end) && s.file == Open(content)
            && |s.writers| == 1 && s.writers[0].stage == Writing && s.writers[0].next
            && s.writers[0].from == s.writers[0].pos == 0 && s.writers[0].to == end
  {
    hide Run, Gather, JobsFrom, BatchJobs, FirstHeld, Planned, FirstError, AllRead, Begin;
    es, s := FirstWriteStarts(a, store);
    es, s := Then(a, store, es, s, OpenFile(0, content));
    es, s := Then(a, store, es, s, PlanNext(0));
  }

  lemma FirstReadersHeld(a: Asset, store: BlockStore)
    requires AssetOk(a) && FirstHeld(a, store)
    ensures forall h :: h in Gather(a.blocks, 0, a.max, []).readers ==> h in store
  {
    hide Gather;
    forall h | h in Gather(a.blocks, 0, a.max, []).readers
      ensures h in store
    {
      var c := ReaderOfChunk(a.blocks, 0, a.max, [], h);
    }
  }

  /** It writes its chunks; the bytes behind them stay as they are. */
  lemma FirstWriteGoesOn(a: Asset, store: BlockStore, bytes: nat -> seq<byte>, es: seq<WriteEvent>, s: Pipeline)
    returns (es': seq<WriteEvent>, s': Pipeline)
    requires Described(a, store, bytes) && FirstHeld(a, store) && Run(a, store, es) == Some(s) && s.file.Open?
    requires |s.writers| == 1 && s.writers[0].stage == Writing && s.writers[0].from == s.writers[0].pos == 0
    requires s.writers[0].to == Gather(a.blocks, 0, a.max, []).end < |a.blocks|
    ensures Run(a, store, es') == Some(s') && s'.ctx == s.ctx && s'.file.Open?
    ensures |s'.writers| == 1 && s'.writers[0].stage == Writing && s'.writers[0].next == s.writers[0].next
    ensures s'.writers[0].pos == s'.writers[0].to == s.writers[0].to
    ensures Behind(s'.file.content, Offset(Contents(a, bytes), s.writers[0].to)) ==
            Behind(s.file.content, Offset(Contents(a, bytes), s.writers[0].to))
  {
    hide Run, Gather, PipelineOk, Flatten, Offset, Contents, Described, Step, FirstHeld;
    var to, pieces := s.writers[0].to, Contents(a, bytes);
    es', s' := es, s;
    AssetIsOk(a, store, bytes);
    for pos := 0 to to
      invariant Run(a, store, es') == Some(s') && s'.ctx == s.ctx && s'.file.Open? && |s'.writers| == 1
      invariant s'.writers[0] == s.writers[0].(pos := pos, at := s'.writers[0].at)
      invariant Behind(s'.file.content, Offset(pieces, to)) == Behind(s.file.content, Offset(pieces, to))
    {
      RunOk(a, store, bytes, es');
      ghost var before := s';
      var e := NextChunkOf(a, store, bytes, s');
      es', s' := Then(a, store, es', s', e);
      ChunkWrites(a, store, bytes, before, e, to);
    }
  }

  /** What lies behind a position. */
  function Behind(content: seq<byte>, at: nat): seq<byte> {
    if at <= |content| then content[at..] else []
  }

  lemma BehindOverwrite(content: seq<byte>, at: nat, data: seq<byte>, to: nat)
    requires at + |data| <= to <= |content|
    ensures Behind(Storages.Overwrite(content, at, data), to) == Behind(content, to)
  {
  }

  /** A chunk of the first write job is found in a block that it copied. */
  lemma NextChunkOf(a: Asset, store: BlockStore, bytes: nat -> seq<byte>, s: Pipeline) returns (e: WriteEvent)
    requires PipelineOk(a, store, bytes, s) && FirstHeld(a, store) && |s.writers| == 1 && s.file.Open?
    requires s.writers[0].stage == Writing && s.writers[0].pos < s.writers[0].to
    ensures e.WriteChunk? && e.k == 0 && Step(a, store, s, e).Some?
  {
    hide JobsOk, Gather, Flatten, Offset, FetchesOk, BlockDescribes, Contents, ErrOk, ContextOk, JobsFrom, Sum;
    var w := s.writers[0];
    FirstCopiesHold(a, store, w, w.pos);
    var b :| 0 <= b < |w.copies| && a.hashes[w.pos] in w.copies[b].chunkHashes;
    var c :| 0 <= c < |w.copies[b].chunkHashes| && w.copies[b].chunkHashes[c] == a.hashes[w.pos];
    e := WriteChunk(0, b, c);
    CopiesMatch(a, store, bytes, s.writers, 0, b);
  }

  lemma FirstCopiesHold(a: Asset, store: BlockStore, w: Writer, c: nat)
    requires AssetOk(a) && FirstHeld(a, store) && w.from == 0 && c < w.to
    requires Batch(w.readers, w.to) == Gather(a.blocks, 0, a.max, []) && CopiesOf(store, w.readers, w.copies)
    ensures c < |a.hashes| && HasChunkIn(w.copies, a.hashes[c])
  {
    hide Gather;
    GatherCovers(a.blocks, 0, a.max, [], c);
    var d :| 0 <= d < |w.readers| && w.readers[d] == a.blocks[c];
    assert w.copies[d] == store[a.blocks[c]];
  }

  lemma ChunkWrites(a: Asset, store: BlockStore, bytes: nat -> seq<byte>, s: Pipeline, e: WriteEvent, to: nat)
    requires PipelineOk(a, store, bytes, s) && |s.writers| == 1 && s.file.Open? && to <= |a.hashes|
    requires e.WriteChunk? && Step(a, store, s, e).Some? && s.writers[0].stage == Writing && s.writers[0].pos < to
    ensures var s' := Step(a, store, s, e).value;
            && s'.ctx == s.ctx && s'.file.Open? && |s'.writers| == 1
            && s'.writers[0] == s.writers[0].(pos := s.writers[0].pos + 1, at := s'.writers[0].at)
            && Behind(s'.file.content, Offset(Contents(a, bytes), to)) ==
                 Behind(s.file.content, Offset(Contents(a, bytes), to))
  {
    hide JobsOk, Gather, Flatten, Offset, FetchesOk, BlockDescribes, Contents, ErrOk, ContextOk, JobsFrom, Sum,
         ChunkData, WritesInOrder, HandleOk, CopiesOk, Storages.Overwrite;
    var pieces, pos := Contents(a, bytes), s.writers[0].pos;
    ChunkFound(a, store, bytes, s.writers, e.k, e.b, e.c);
    OffsetNext(pieces, pos);
    OffsetMonotone(pieces, pos + 1, to);
    OffsetMonotone(pieces, to, |pieces|);
    OffsetEnds(pieces);
    BehindOverwrite(s.file.content, s.writers[0].at, ChunkData(s.writers[0].copies[e.b], e.c), Offset(pieces, to));
  }

  /** A run in which the second partial write fails and nobody learns of it: it fails while the
      first one has released it and not yet stored its success. The file then has the chunks
      of the first and, behind them, what it was opened with. */
  lemma LaterFailureIsLost(a: Asset, store: BlockStore, bytes: nat -> seq<byte>, content: seq<byte>)
    returns (es: seq<WriteEvent>)
    requires Described(a, store, bytes) && FirstHeld(a, store) && |content| == a.size
    requires Gather(a.blocks, 0, a.max, []).end < |a.blocks|
    ensures LosesFailure(a, store, es)
    ensures var s := Run(a, store, es).value;
            var end := Offset(Contents(a, bytes), Gather(a.blocks, 0, a.max, []).end);
            s.file.Closed? && Behind(s.file.content, end) == Behind(content, end)
  {
    hide Run, Gather, JobsFrom, BatchJobs, FirstHeld, Described, Flatten, Offset, Contents, Behind;
    AssetIsOk(a, store, bytes);
    var s;
    es, s := FirstWriteBegins(a, store, content);
    es, s := FirstWriteGoesOn(a, store, bytes, es, s);
    es, s := Then(a, store, es, s, Release(0));
    BatchReads(a.blocks, s.ctx.offset, a.max);
    es, s := AllReadsEnd(a, store, es, s, false);
    assert s.ctx.fetched[0].ReadFailed? && AllRead(s.ctx.fetched) && FirstError(s.ctx.fetched).Some?;
    es, s := Then(a, store, es, s, StartWrite);
    es, s := Then(a, store, es, s, Finish(0));
  }

  /** With a worker beside the thread that waits, the failure of some write job can be lost
      exactly if the first partial write leaves chunks to others and can read its blocks. */
  lemma FailureCanBeLostIff(a: Asset, store: BlockStore, bytes: nat -> seq<byte>, workerCount: nat)
    requires Described(a, store, bytes) && BlocksHold(a, store) && a.max == MaxReads(workerCount) && workerCount > 0
    ensures (exists es :: LosesFailure(a, store, es)) <==>
            var first := Gather(a.blocks, 0, a.max, []);
            first.end < |a.blocks| && forall h :: h in first.readers ==> h in store
  {
    hide LosesFailure, Gather, Described;
    AssetIsOk(a, store, bytes);
    var first := Gather(a.blocks, 0, a.max, []);
    if es :| LosesFailure(a, store, es) {
      LostAfterFirst(a, store, bytes, es);
    }
    if first.end < |a.blocks| && forall h :: h in first.readers ==> h in store {
      forall c | 0 <= c < first.end
        ensures a.blocks[c] in store && a.hashes[c] in store[a.blocks[c]].chunkHashes
      {
        GatherCovers(a.blocks, 0, a.max, [], c);
      }
      var content := AnyContent(a.size);
      var es := LaterFailureIsLost(a, store, bytes, content);
    }
  }

  const LOST_ASSET: Asset := Asset([1, 2, 3], [1, 1, 1], [10, 20, 30], 3, MaxReads(1))
  const LOST_STORE: BlockStore := map[10 := StoredBlock(0, 0, [1], [1], [7]), 20 := StoredBlock(0, 0, [2], [1], [7])]

  /** With one worker, a file of three chunks of one byte each in three blocks, of which the
      third is not in the store: the write can be reported as a success, and the file lacks
      its last byte. */
  lemma FailureIsLost(bytes: nat -> seq<byte>) returns (es: seq<WriteEvent>)
    requires forall h :: bytes(h) == [7]
    ensures Described(LOST_ASSET, LOST_STORE, bytes) && LosesFailure(LOST_ASSET, LOST_STORE, es)
    ensures var s := Run(LOST_ASSET, LOST_STORE, es).value; s.file.Closed? && s.file.content != [7, 7, 7]
    ensures Flatten(Contents(LOST_ASSET, bytes)) == [7, 7, 7]
  {
    ExampleDescribed(bytes);
    ExampleGathered();
    hide Flatten, Run, Described, Gather, LosesFailure, Contents;
    es := LaterFailureIsLost(LOST_ASSET, LOST_STORE, bytes, [0, 0, 0]);
    var content := Run(LOST_ASSET, LOST_STORE, es).value.file.content;
    assert Behind([0, 0, 0], 2) == [0] && Behind([7, 7, 7], 2) == [7];
  }

  lemma ExampleGathered()
    ensures Gather([10, 20, 30], 0, MaxReads(1), []) == Batch([10, 20], 2)
    ensures FirstHeld(LOST_ASSET, LOST_STORE)
  {
    GatherNext([10, 20, 30], 0, 2, []);
    GatherNext([10, 20, 30], 1, 2, [10]);
    GatherNext([10, 20, 30], 2, 2, [10, 20]);
  }

  lemma ExampleDescribed(bytes: nat -> seq<byte>)
    requires forall h :: bytes(h) == [7]
    ensures Described(LOST_ASSET, LOST_STORE, bytes) && Flatten(Contents(LOST_ASSET, bytes)) == [7, 7, 7]
    ensures Offset(Contents(LOST_ASSET, bytes), 2) == 2
  {
    assert Contents(LOST_ASSET, bytes) == [[7], [7], [7]];
    assert [[7], [7], [7]][..2] == [[7], [7]];
    assert Flatten([[7], [7]]) == [7, 7];
    assert Flatten([[7], [7], [7]]) == [7] + Flatten([[7], [7]]);
    forall h | h in LOST_STORE
      ensures BlockDescribes(LOST_STORE[h], bytes)
    {
      assert BlockPieces(LOST_STORE[h], bytes) == [[7]];
    }
  }
}

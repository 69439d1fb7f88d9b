/** The jobs of a whole write (src/longtail.c): one read and one write for every block
    that assets are written from, and those of the assets that need more blocks. They
    never exceed what is reserved before. */
module WriteJobs {
  import opened Prelude
  import opened Indexes
  import opened WriteLists
  import Assets = AssetWriting
  import Groups = JobGroups

  // ----- The calls of CreateJobs -----

  /** How many jobs each call asks for that creates a partial write: the write, and with
      blocks to read, the reads and the synchronization job. */
  function CallsOf(b: Assets.Batch): (calls: seq<nat>)
    ensures Sum(calls) == Assets.BatchJobs(b)
  {
    SumSnoc([], 1);
    SumSnoc([1], |b.readers|);
    SumSnoc([1, |b.readers|], 1);
    assert [] + [1] == [1] && [1] + [|b.readers|] == [1, |b.readers|] && [1, |b.readers|] + [1] == [1, |b.readers|, 1];
    if b.readers == [] then [1] else [1, |b.readers|, 1]
  }

  /** The calls of a step: a write job that has opened the file creates the next one. */
  ghost function StepCalls(a: Assets.Asset, s: Assets.Pipeline, e: Assets.WriteEvent): seq<nat>
    requires Assets.AssetOk(a)
  {
    if e.PlanNext? && e.k < |s.writers| && s.writers[e.k].to < |a.blocks|
    then CallsOf(Assets.Gather(a.blocks, s.writers[e.k].to, a.max, [])) else []
  }

  /** The calls of WriteAssets for the asset, and those of its steps. */
  ghost function RunCalls(a: Assets.Asset, store: BlockStore, es: seq<Assets.WriteEvent>): seq<nat>
    requires Assets.AssetOk(a) && Assets.Run(a, store, es).Some?
  {
    if es == [] then CallsOf(Assets.Gather(a.blocks, 0, a.max, []))
    else
      var front := es[..|es| - 1];
      RunCalls(a, store, front) + StepCalls(a, Assets.Run(a, store, front).value, es[|es| - 1])
  }

  lemma StepCreates(a: Assets.Asset, store: BlockStore, s: Assets.Pipeline, e: Assets.WriteEvent)
    requires Assets.AssetOk(a) && Assets.Step(a, store, s, e).Some?
    ensures Assets.Step(a, store, s, e).value.created == s.created + Sum(StepCalls(a, s, e))
  {
    hide CallsOf, Assets.Gather, Assets.BatchJobs, Assets.FirstError;
  }

  /** The jobs that a pipeline creates are those its calls ask for. */
  lemma {:induction false} CallsCreate(a: Assets.Asset, store: BlockStore, es: seq<Assets.WriteEvent>)
    requires Assets.AssetOk(a) && Assets.Run(a, store, es).Some?
    ensures Sum(RunCalls(a, store, es)) == Assets.Run(a, store, es).value.created
  {
    hide CallsOf, Assets.Step, StepCalls, Sum;
    if es != [] {
      var front := es[..|es| - 1];
      CallsCreate(a, store, front);
      StepCreates(a, store, Assets.Run(a, store, front).value, es[|es| - 1]);
      SumConcat(RunCalls(a, store, front), StepCalls(a, Assets.Run(a, store, front).value, es[|es| - 1]));
    }
  }

  // ----- All jobs against the reservation -----

  function BlockLists(assets: seq<Assets.Asset>): (r: seq<seq<nat>>)
    ensures |r| == |assets| && forall a :: 0 <= a < |r| ==> r[a] == assets[a].blocks
  {
    seq(|assets|, a requires 0 <= a < |assets| => assets[a].blocks)
  }

  /** Every asset pipeline has run for a while. */
  ghost predicate HaveRun(assets: seq<Assets.Asset>, store: BlockStore, runs: seq<seq<Assets.WriteEvent>>, max: nat,
                          bytes: nat -> seq<byte>) {
    && |assets| == |runs| && max > 0
    && forall a :: 0 <= a < |assets| ==>
         Assets.Described(assets[a], store, bytes) && assets[a].max == max
             && Assets.Run(assets[a], store, runs[a]).Some?
  }

  /** The calls of all pipelines. */
  ghost function AssetCalls(assets: seq<Assets.Asset>, store: BlockStore, runs: seq<seq<Assets.WriteEvent>>, max: nat,
                            bytes: nat -> seq<byte>): seq<nat>
    requires HaveRun(assets, store, runs, max, bytes)
  {
    if assets == [] then []
    else
      var last := |assets| - 1;
      AssetCalls(assets[..last], store, runs[..last], max, bytes) + RunCalls(assets[last], store, runs[last])
  }

  /** Two calls for every block job: its read and its write. */
  function BlockCalls(n: nat): (calls: seq<nat>)
    ensures Sum(calls) == 2 * n
  {
    if n == 0 then []
    else
      SumConcat(BlockCalls(n - 1), [1, 1]);
      assert [1, 1][1..] == [1] && [1][1..] == [];
      BlockCalls(n - 1) + [1, 1]
  }

  /** The pipelines never create more jobs than were counted; they create all of them if every
      file is closed without a failure. */
  lemma {:induction false} CreatedIsReserved(assets: seq<Assets.Asset>, store: BlockStore,
                                             runs: seq<seq<Assets.WriteEvent>>, max: nat, bytes: nat -> seq<byte>)
    requires HaveRun(assets, store, runs, max, bytes)
    ensures Sum(AssetCalls(assets, store, runs, max, bytes)) <= Assets.AllJobs(BlockLists(assets), max)
    ensures (forall a :: 0 <= a < |assets| ==>
               var s := Assets.Run(assets[a], store, runs[a]).value;
               s.file.Closed? && !Assets.GoneWrong(Assets.Last(s.writers))) ==>
              Sum(AssetCalls(assets, store, runs, max, bytes)) == Assets.AllJobs(BlockLists(assets), max)
  {
    hide Assets.Run, Assets.AssetJobs, Assets.Described, Assets.Covers, RunCalls, Assets.Contents, Flatten,
         Assets.Active;
    if assets != [] {
      var last := |assets| - 1;
      CreatedIsReserved(assets[..last], store, runs[..last], max, bytes);
      Assets.AssetIsOk(assets[last], store, bytes);
      CallsCreate(assets[last], store, runs[last]);
      Assets.EveryRunWritesTheAsset(assets[last], store, bytes, runs[last]);
      SumConcat(AssetCalls(assets[..last], store, runs[..last], max, bytes), RunCalls(assets[last], store, runs[last]));
      assert BlockLists(assets)[..last] == BlockLists(assets[..last]);
    }
  }

  /** How many jobs the calls of a group run ask for, call by call. */
  function Submits(es: seq<Groups.GroupEvent>): (counts: seq<nat>)
    ensures Sum(counts) == Groups.Requested(es)
  {
    if es == [] then []
    else
      var front, last := es[..|es| - 1], es[|es| - 1];
      SumSnoc(Submits(front), if last.Submit? then last.count else 0);
      if last.Submit? then Submits(front) + [last.count] else Submits(front)
  }

  /** Every entry of the one list is an entry of the other, as often. */
  ghost predicate Among(part: seq<nat>, whole: seq<nat>) {
    multiset(part) <= multiset(whole)
  }

  /** The entries but for one. */
  ghost function Without(s: seq<nat>, i: nat): seq<nat>
    requires i < |s|
  {
    s[..i] + s[i + 1..]
  }

  lemma WithoutOne(s: seq<nat>, i: nat)
    requires i < |s|
    ensures multiset(s) == multiset(Without(s, i)) + multiset{s[i]}
    ensures Sum(s) == Sum(Without(s, i)) + s[i]
  {
    hide Sum;
    assert s == s[..i] + [s[i]] + s[i + 1..];
    SumSnoc(s[..i], s[i]);
    SumConcat(s[..i] + [s[i]], s[i + 1..]);
    SumConcat(s[..i], s[i + 1..]);
  }

  lemma AmongWithout(part: seq<nat>, whole: seq<nat>, i: nat)
    requires Among(part, whole) && part != [] && i < |whole| && whole[i] == part[|part| - 1]
    ensures Among(part[..|part| - 1], Without(whole, i))
  {
    hide Without;
    WithoutOne(whole, i);
    var x := whole[i];
    var fewer, rest := multiset(part[..|part| - 1]), multiset(Without(whole, i));
    assert part == part[..|part| - 1] + [x];
    assert multiset(part) == fewer + multiset{x};
    forall y
      ensures fewer[y] <= rest[y]
    {
      assert (fewer + multiset{x})[y] <= (rest + multiset{x})[y];
    }
  }

  lemma LastAmong(part: seq<nat>, whole: seq<nat>) returns (i: nat)
    requires Among(part, whole) && part != []
    ensures i < |whole| && whole[i] == part[|part| - 1]
  {
    assert part[|part| - 1] in multiset(part);
    i :| 0 <= i < |whole| && whole[i] == part[|part| - 1];
  }

  lemma {:induction false} SumOfPart(part: seq<nat>, whole: seq<nat>)
    requires Among(part, whole)
    ensures Sum(part) <= Sum(whole)
  {
    hide Sum, Among, Without;
    if part == [] {
      SumOfNothing();
    } else {
      var n := |part| - 1;
      var i := LastAmong(part, whole);
      AmongWithout(part, whole, i);
      WithoutOne(whole, i);
      SumOfPart(part[..n], Without(whole, i));
      SumSnoc(part[..n], part[n]);
      assert part == part[..n] + [part[n]];
    }
  }

  lemma SumOfNothing()
    ensures Sum([]) == 0
  {
  }

  /** The number of jobs that WriteAssets reserves. */
  function Reserved(blockAssets: nat, assets: seq<Assets.Asset>, workerCount: nat): nat {
    2 * blockAssets + Assets.AllJobs(BlockLists(assets), Assets.MaxReads(workerCount))
  }

  /** What WriteAssets reserves, two jobs for every asset that is written from one block
      and the counted jobs of the others, is enough for everything that it and its running
      jobs create: no call of CreateJobs fails, and no two jobs share a slot, in any order of
      the calls and whatever fails. */
  lemma ReservationCoversWrite(blockOf: seq<nat>, jobs: seq<BlockJob>, assets: seq<Assets.Asset>, store: BlockStore,
                               runs: seq<seq<Assets.WriteEvent>>, workerCount: nat, bytes: nat -> seq<byte>,
                               calls: seq<Groups.GroupEvent>)
    requires |jobs| <= |blockOf| && HaveRun(assets, store, runs, Assets.MaxReads(workerCount), bytes)
    requires Among(Submits(calls),
                   BlockCalls(|jobs|) + AssetCalls(assets, store, runs, Assets.MaxReads(workerCount), bytes))
    requires Groups.Run(Groups.Reserve(Reserved(|blockOf|, assets, workerCount)), calls).Some?
    ensures var reserved := Reserved(|blockOf|, assets, workerCount);
            var g := Groups.Run(Groups.Reserve(reserved), calls).value;
            && !g.overran && (forall id :: id in g.calls ==> g.calls[id].fits)
            && (forall i, j :: 0 <= i < j < |g.jobs| ==> g.jobs[i].slot != g.jobs[j].slot)
            && (forall j :: 0 <= j < |g.jobs| ==> 0 <= g.jobs[j].slot < reserved)
  {
    hide Groups.Run, Groups.Requested, Assets.AllJobs, AssetCalls, HaveRun, Submits, BlockCalls, Sum, Among;
    var max := Assets.MaxReads(workerCount);
    CreatedIsReserved(assets, store, runs, max, bytes);
    SumConcat(BlockCalls(|jobs|), AssetCalls(assets, store, runs, max, bytes));
    SumOfPart(Submits(calls), BlockCalls(|jobs|) + AssetCalls(assets, store, runs, max, bytes));
    Groups.OverrunIff(Reserved(|blockOf|, assets, workerCount), calls);
  }
}

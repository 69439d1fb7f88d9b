/** The algebra of content indexes in src/longtail.c: retarget, missing content, merge
    and add. An index is read as its list of (chunk hash, block hash) pairs. */
module ContentAlgebra {
  import opened Prelude
  import opened LookupTables
  import opened Indexes

  datatype Pair = Pair(hash: nat, block: nat)

  // ----- Indexes as pairs -----

  ghost function PairsOf(bh: seq<nat>, ch: seq<nat>, co: seq<nat>): (ps: seq<Pair>)
    requires |ch| == |co| && forall k :: 0 <= k < |co| ==> co[k] < |bh|
    ensures |ps| == |ch| && forall k :: 0 <= k < |ps| ==> ps[k] == Pair(ch[k], bh[co[k]])
  {
    seq(|ch|, k requires 0 <= k < |ch| => Pair(ch[k], bh[co[k]]))
  }

  ghost function Pairs(ix: ContentIndex): (ps: seq<Pair>)
    requires ContentOk(ix)
    ensures |ps| == |ix.chunkHashes|
    ensures forall k :: 0 <= k < |ps| ==> ps[k] == Pair(ix.chunkHashes[k], ix.blockHashes[ix.chunkBlockIndexes[k]])
  {
    PairsOf(ix.blockHashes, ix.chunkHashes, ix.chunkBlockIndexes)
  }

  ghost function HashSet(ps: seq<Pair>): set<nat> {
    set p | p in ps :: p.hash
  }

  ghost function BlockSet(ps: seq<Pair>): set<nat> {
    set p | p in ps :: p.block
  }

  lemma HashSetSnoc(ps: seq<Pair>, p: Pair)
    ensures HashSet(ps + [p]) == HashSet(ps) + {p.hash}
    ensures BlockSet(ps + [p]) == BlockSet(ps) + {p.block}
  {
    assert forall q :: q in ps + [p] <==> q in ps || q == p;
  }

  lemma HashSetConcat(a: seq<Pair>, b: seq<Pair>)
    ensures HashSet(a + b) == HashSet(a) + HashSet(b)
  {
    assert forall q :: q in a + b <==> q in a || q in b;
  }

  lemma HashSetOfIndex(ix: ContentIndex)
    requires ContentOk(ix)
    ensures HashSet(Pairs(ix)) == Elems(ix.chunkHashes)
  {
    forall h | h in ix.chunkHashes
      ensures h in HashSet(Pairs(ix))
    {
      var k :| 0 <= k < |ix.chunkHashes| && ix.chunkHashes[k] == h;
      assert Pairs(ix)[k] in Pairs(ix);
    }
  }

  // ----- Filters on pairs -----

  /** Keeps the first pair of every hash in `wanted`. */
  ghost function KeepFirst(ps: seq<Pair>, wanted: set<nat>): (r: seq<Pair>)
    ensures |r| <= |ps|
  {
    if ps == [] then []
    else
      var last := |ps| - 1;
      var before := KeepFirst(ps[..last], wanted);
      if ps[last].hash in wanted && ps[last].hash !in HashSet(ps[..last]) then before + [ps[last]] else before
  }

  /** Keeps the pairs whose hash is not in `known`. */
  ghost function Without(ps: seq<Pair>, known: set<nat>): (r: seq<Pair>)
    ensures |r| <= |ps|
  {
    if ps == [] then []
    else
      var last := |ps| - 1;
      var before := Without(ps[..last], known);
      if ps[last].hash in known then before else before + [ps[last]]
  }

  /** Keeps the pairs of the given blocks. */
  ghost function OfBlocks(ps: seq<Pair>, blocks: set<nat>): (r: seq<Pair>)
    ensures |r| <= |ps|
  {
    if ps == [] then []
    else
      var last := |ps| - 1;
      var before := OfBlocks(ps[..last], blocks);
      if ps[last].block in blocks then before + [ps[last]] else before
  }

  ghost predicate DistinctHashes(ps: seq<Pair>) {
    forall i, j :: 0 <= i < j < |ps| ==> ps[i].hash != ps[j].hash
  }

  lemma {:induction false} KeepFirstFacts(ps: seq<Pair>, wanted: set<nat>)
    ensures HashSet(KeepFirst(ps, wanted)) == HashSet(ps) * wanted
    ensures DistinctHashes(KeepFirst(ps, wanted))
    ensures forall p :: p in KeepFirst(ps, wanted) ==> p in ps
  {
    if ps != [] {
      var last := |ps| - 1;
      KeepFirstFacts(ps[..last], wanted);
      assert ps == ps[..last] + [ps[last]];
      HashSetSnoc(ps[..last], ps[last]);
      HashSetSnoc(KeepFirst(ps[..last], wanted), ps[last]);
      if ps[last].hash in wanted && ps[last].hash !in HashSet(ps[..last]) {
        forall i | 0 <= i < |KeepFirst(ps[..last], wanted)|
          ensures KeepFirst(ps[..last], wanted)[i].hash != ps[last].hash
        {
          assert KeepFirst(ps[..last], wanted)[i] in KeepFirst(ps[..last], wanted);
        }
      }
    }
  }

  lemma {:induction false} WithoutFacts(ps: seq<Pair>, known: set<nat>)
    ensures HashSet(Without(ps, known)) == HashSet(ps) - known
    ensures forall p :: p in Without(ps, known) <==> p in ps && p.hash !in known
  {
    if ps != [] {
      var last := |ps| - 1;
      WithoutFacts(ps[..last], known);
      assert ps == ps[..last] + [ps[last]];
      HashSetSnoc(ps[..last], ps[last]);
      HashSetSnoc(Without(ps[..last], known), ps[last]);
    }
  }

  lemma {:induction false} OfBlocksFacts(ps: seq<Pair>, blocks: set<nat>)
    ensures forall p :: p in OfBlocks(ps, blocks) <==> p in ps && p.block in blocks
  {
    if ps != [] {
      var last := |ps| - 1;
      OfBlocksFacts(ps[..last], blocks);
      assert ps == ps[..last] + [ps[last]];
    }
  }

  // ----- What the filters select -----

  /** The places of the first pair of every wanted hash. */
  ghost function FirstWanted(ps: seq<Pair>, wanted: set<nat>): set<nat> {
    set i: nat | i < |ps| && ps[i].hash in wanted && ps[i].hash !in HashSet(ps[..i])
  }

  ghost function Unknown(ps: seq<Pair>, known: set<nat>): set<nat> {
    set i: nat | i < |ps| && ps[i].hash !in known
  }

  ghost function InBlocks(ps: seq<Pair>, blocks: set<nat>): set<nat> {
    set i: nat | i < |ps| && ps[i].block in blocks
  }

  lemma PlacesSnoc(ps: seq<Pair>, x: Pair, s: set<nat>)
    ensures FirstWanted(ps + [x], s) ==
            FirstWanted(ps, s) + if x.hash in s && x.hash !in HashSet(ps) then {|ps|} else {}
    ensures Unknown(ps + [x], s) == Unknown(ps, s) + if x.hash in s then {} else {|ps|}
    ensures InBlocks(ps + [x], s) == InBlocks(ps, s) + if x.block in s then {|ps|} else {}
  {
    hide HashSet;
    var all := ps + [x];
    assert all[..|ps|] == ps && all[|ps|] == x;
    forall i: nat | i < |ps|
      ensures all[..i] == ps[..i] && all[i] == ps[i]
    {
    }
  }

  lemma NoPlaces(s: set<nat>)
    ensures FirstWanted([], s) == Unknown([], s) == InBlocks([], s) == {}
  {
  }

  /** The filters keep their pairs in order. */
  lemma {:induction false} KeepFirstSelects(ps: seq<Pair>, wanted: set<nat>)
    ensures Selects(KeepFirst(ps, wanted), ps, FirstWanted(ps, wanted))
  {
    hide FirstWanted, Selects, HashSet;
    if ps == [] {
      NoPlaces(wanted);
      NothingSelected(ps);
    } else {
      var some, x := ps[..|ps| - 1], ps[|ps| - 1];
      assert ps == some + [x];
      KeepFirstSelects(some, wanted);
      PlacesSnoc(some, x, wanted);
      SelectsNext(KeepFirst(some, wanted), some, FirstWanted(some, wanted), x);
      assert FirstWanted(some, wanted) + {} == FirstWanted(some, wanted);
    }
  }

  lemma {:induction false} WithoutSelects(ps: seq<Pair>, known: set<nat>)
    ensures Selects(Without(ps, known), ps, Unknown(ps, known))
  {
    hide Unknown, Selects;
    if ps == [] {
      NoPlaces(known);
      NothingSelected(ps);
    } else {
      var some, x := ps[..|ps| - 1], ps[|ps| - 1];
      assert ps == some + [x];
      WithoutSelects(some, known);
      PlacesSnoc(some, x, known);
      SelectsNext(Without(some, known), some, Unknown(some, known), x);
      assert Unknown(some, known) + {} == Unknown(some, known);
    }
  }

  lemma {:induction false} OfBlocksSelects(ps: seq<Pair>, blocks: set<nat>)
    ensures Selects(OfBlocks(ps, blocks), ps, InBlocks(ps, blocks))
  {
    hide InBlocks, Selects;
    if ps == [] {
      NoPlaces(blocks);
      NothingSelected(ps);
    } else {
      var some, x := ps[..|ps| - 1], ps[|ps| - 1];
      assert ps == some + [x];
      OfBlocksSelects(some, blocks);
      PlacesSnoc(some, x, blocks);
      SelectsNext(OfBlocks(some, blocks), some, InBlocks(some, blocks), x);
      assert InBlocks(some, blocks) + {} == InBlocks(some, blocks);
    }
  }

  // ----- Building a list of block hashes without repeats -----

  /** The table maps every listed block hash to its place in the list. */
  ghost predicate Slots(table: LookupTable, blocks: seq<nat>)
    reads table, table.Repr
    ensures Slots(table, blocks) ==> table.Valid() && table.Keys() == blocks && table.count == |blocks|
  {
    && table.Valid() && table.Keys() == blocks
    && forall k :: 0 <= k < |blocks| ==> table.Values()[k] == k
  }

  lemma SlotFound(table: LookupTable, blocks: seq<nat>, h: nat)
    requires Slots(table, blocks)
    ensures table.Find(h).Some? <==> h in blocks
    ensures table.Find(h).Some? ==> table.Find(h).value < |blocks| && blocks[table.Find(h).value] == h
  {
    FirstMatchNone(blocks, h);
  }

  /** The place of a block hash in the list; an unknown one is appended. */
  method SlotOf(table: LookupTable, list: array<nat>, count: nat, h: nat) returns (slot: nat, count': nat)
    requires count <= list.Length && Slots(table, list[..count]) && list !in table.Repr
    requires h in list[..count] || (count < list.Length && table.count < table.keys.Length)
    modifies table.Repr, list
    ensures count' <= list.Length && Slots(table, list[..count'])
    ensures slot < count' && list[slot] == h
    ensures list[..count'] == if h in old(list[..count]) then old(list[..count]) else old(list[..count]) + [h]
  {
    hide Linked, Lookup;
    SlotFound(table, list[..count], h);
    var existing := table.PutUnique(h, count);
    if existing.Some? {
      return existing.value, count;
    }
    ghost var before := list[..count];
    list[count] := h;
    slot, count' := count, count + 1;
    assert list[..count'] == before + [h];
  }

  lemma {:induction false} DistinctFits(s: seq<nat>, bound: set<nat>)
    requires Distinct(s) && forall x :: x in s ==> x in bound
    ensures |s| <= |bound|
  {
    if s != [] {
      var last := |s| - 1;
      assert s == s[..last] + [s[last]];
      DistinctFits(s[..last], bound - {s[last]});
    }
  }

  /** A list without repeats that misses one element of a longer list has room. */
  lemma RoomLeft(list: seq<nat>, all: seq<nat>, h: nat)
    requires Distinct(list) && (forall x :: x in list ==> x in all) && h in all && h !in list
    ensures |list| < |all|
  {
    DistinctFits(list, Elems(all) - {h});
    ElemsFit(all);
  }

  // ----- Building an index pair by pair -----

  /** The three arrays under construction stand for this list of pairs. */
  ghost predicate Building(bh: seq<nat>, ch: seq<nat>, co: seq<nat>, ps: seq<Pair>) {
    && |ch| == |co| && (forall k :: 0 <= k < |co| ==> co[k] < |bh|)
    && PairsOf(bh, ch, co) == ps
  }

  lemma BuildNext(bh: seq<nat>, bh': seq<nat>, ch: seq<nat>, co: seq<nat>, ps: seq<Pair>, h: nat, slot: nat)
    requires Building(bh, ch, co, ps) && bh <= bh' && slot < |bh'|
    ensures Building(bh', ch + [h], co + [slot], ps + [Pair(h, bh'[slot])])
  {
    assert forall k :: 0 <= k < |bh| ==> bh'[k] == bh[k];
    assert PairsOf(bh', ch + [h], co + [slot]) == ps + [Pair(h, bh'[slot])];
  }

  lemma BuiltPairs(ix: ContentIndex, ps: seq<Pair>)
    requires |ix.chunkHashes| < NONE && |ix.blockHashes| < NONE
    requires Building(ix.blockHashes, ix.chunkHashes, ix.chunkBlockIndexes, ps)
    ensures ContentOk(ix) && Pairs(ix) == ps
  {
  }

  lemma NothingBuilt(bh: seq<nat>, ch: seq<nat>, co: seq<nat>)
    requires ch == co == []
    ensures Building(bh, ch, co, [])
  {
  }

  /** The work memory in which an index grows: block hashes, chunk hashes, the block
      index of every chunk, and a table from block hash to block index. */
  class IndexBuilder {
    const blocks: array<nat>
    const hashes: array<nat>
    const owners: array<nat>
    const slots: LookupTable
    var blockCount: nat
    var count: nat
    ghost var contents: seq<Pair>
    ghost const Repr: set<object>

    ghost predicate Valid()
      reads this, Repr
      ensures Valid() ==> this in Repr && blockCount <= blocks.Length && count <= hashes.Length
      ensures Valid() ==> |contents| == count && {blocks, hashes, owners} <= Repr && slots.Repr <= Repr
    {
      && Repr == {this, blocks, hashes, owners} + slots.Repr && slots in slots.Repr
      && blocks != hashes && blocks != owners && hashes != owners
      && {this, blocks, hashes, owners} !! slots.Repr
      && blockCount <= blocks.Length == slots.keys.Length && count <= hashes.Length == owners.Length
      && Slots(slots, blocks[..blockCount])
      && Building(blocks[..blockCount], hashes[..count], owners[..count], contents)
    }

    ghost function Blocks(): seq<nat>
      requires Valid()
      reads this, Repr
    {
      blocks[..blockCount]
    }

    constructor (maxBlocks: nat, maxChunks: nat)
      requires maxBlocks < NONE
      ensures Valid() && fresh(Repr) && contents == [] && Blocks() == []
      ensures blocks.Length == maxBlocks && hashes.Length == maxChunks
    {
      hide Building, Linked;
      var bs, hs, os := new nat[maxBlocks], new nat[maxChunks], new nat[maxChunks];
      var table := new LookupTable(maxBlocks);
      blocks, hashes, owners, slots := bs, hs, os, table;
      blockCount, count, contents := 0, 0, [];
      Repr := {this, bs, hs, os} + table.Repr;
      new;
      NothingBuilt(blocks[..0], hashes[..0], owners[..0]);
    }

    /** Appends a pair; a block hash that is new gets the next block index. */
    method Add(h: nat, blockHash: nat)
      requires Valid() && count < hashes.Length
      requires blockHash in Blocks() || blockCount < blocks.Length
      modifies Repr
      ensures Valid() && contents == old(contents) + [Pair(h, blockHash)]
      ensures Blocks() == if blockHash in old(Blocks()) then old(Blocks()) else old(Blocks()) + [blockHash]
    {
      hide Building, Linked, Slots;
      ghost var bs, hs, os := blocks[..blockCount], hashes[..count], owners[..count];
      var slot: nat;
      slot, blockCount := SlotOf(slots, blocks, blockCount, blockHash);
      owners[count] := slot;
      hashes[count] := h;
      count := count + 1;
      assert hashes[..count] == hs + [h] && owners[..count] == os + [slot];
      BuildNext(bs, blocks[..blockCount], hs, os, contents, h, slot);
      contents := contents + [Pair(h, blockHash)];
    }

    /** Copies the blocks of an index, with their block indexes (job
        MergeContentIndex_BuildBlockHashToBlockIndex). */
    method CopyBlocks(ix: ContentIndex)
      requires Valid() && Blocks() == [] && contents == [] && count == 0
      requires |ix.blockHashes| <= blocks.Length
      modifies slots.Repr, blocks, this`blockCount
      ensures Valid() && Blocks() == ix.blockHashes && contents == [] && count == 0
    {
      hide Linked, Lookup, FirstMatch, Building;
      ghost var hs, os := hashes[..count], owners[..count];
      for b := 0 to |ix.blockHashes|
        invariant Slots(slots, ix.blockHashes[..b]) && blocks[..b] == ix.blockHashes[..b]
        invariant hashes[..count] == hs && owners[..count] == os
      {
        slots.Put(ix.blockHashes[b], b);
        blocks[b] := ix.blockHashes[b];
      }
      blockCount := |ix.blockHashes|;
      assert ix.blockHashes[..blockCount] == ix.blockHashes;
      NothingBuilt(blocks[..blockCount], hs, os);
    }

    /** Copies the chunks of an index whose blocks are in place already. */
    method CopyChunks(ix: ContentIndex)
      requires Valid() && ContentOk(ix) && Blocks() == ix.blockHashes && contents == [] && count == 0
      requires |ix.chunkHashes| <= hashes.Length
      modifies hashes, owners, this`count, this`contents
      ensures Valid() && contents == Pairs(ix) && Blocks() == ix.blockHashes
    {
      hide Slots, PairsOf;
      for c := 0 to |ix.chunkHashes|
        invariant hashes[..c] == ix.chunkHashes[..c] && owners[..c] == ix.chunkBlockIndexes[..c]
        invariant blocks[..blockCount] == ix.blockHashes
      {
        hashes[c] := ix.chunkHashes[c];
        owners[c] := ix.chunkBlockIndexes[c];
      }
      count, contents := |ix.chunkHashes|, Pairs(ix);
      assert ix.chunkHashes[..count] == ix.chunkHashes && ix.chunkBlockIndexes[..count] == ix.chunkBlockIndexes;
    }

    /** The finished index. */
    method Finish(hashIdentifier: nat, maxBlockSize: nat, maxChunksPerBlock: nat) returns (ix: ContentIndex)
      requires Valid() && blocks.Length < NONE && hashes.Length < NONE
      ensures ContentOk(ix) && Pairs(ix) == contents && ix.blockHashes == Blocks()
      ensures ix.hashIdentifier == hashIdentifier
      ensures ix.maxBlockSize == maxBlockSize && ix.maxChunksPerBlock == maxChunksPerBlock
    {
      ix := ContentIndex(hashIdentifier, maxBlockSize, maxChunksPerBlock, blocks[..blockCount], hashes[..count],
                         owners[..count]);
      BuiltPairs(ix, contents);
    }
  }

  // ----- Retargeting -----

  /** Indexes of different hash functions do not mix, unless one is empty. */
  predicate Compatible(a: ContentIndex, b: ContentIndex) {
    a.blockHashes == [] || b.blockHashes == [] || a.hashIdentifier == b.hashIdentifier
  }

  lemma KeepFirstNext(ix: ContentIndex, i: nat, wanted: set<nat>)
    requires ContentOk(ix) && i < |ix.chunkHashes|
    ensures var ps, h := Pairs(ix), ix.chunkHashes[i];
            KeepFirst(ps[..i + 1], wanted) ==
            if h in wanted && h !in ix.chunkHashes[..i] then KeepFirst(ps[..i], wanted) + [ps[i]]
                else KeepFirst(ps[..i], wanted)
  {
    var ps := Pairs(ix);
    assert ps[..i + 1][..i] == ps[..i];
    HashesOfPrefix(ix, i);
  }

  lemma HashesOfPrefix(ix: ContentIndex, i: nat)
    requires ContentOk(ix) && i <= |ix.chunkHashes|
    ensures HashSet(Pairs(ix)[..i]) == Elems(ix.chunkHashes[..i])
  {
    forall h | h in ix.chunkHashes[..i]
      ensures h in HashSet(Pairs(ix)[..i])
    {
      var k :| 0 <= k < i && ix.chunkHashes[k] == h;
      assert Pairs(ix)[..i][k] in Pairs(ix)[..i];
    }
  }

  /** The block list of an index under construction: without repeats, the blocks of
      the pairs, all from `source`. */
  ghost predicate BlockList(blocks: seq<nat>, source: seq<nat>, ps: seq<Pair>) {
    Distinct(blocks) && Elems(blocks) == BlockSet(ps) && forall b :: b in blocks ==> b in source
  }

  lemma BlockListNext(blocks: seq<nat>, source: seq<nat>, ps: seq<Pair>, p: Pair)
    requires BlockList(blocks, source, ps) && p.block in source
    ensures BlockList(if p.block in blocks then blocks else blocks + [p.block], source, ps + [p])
    ensures p.block !in blocks ==> |blocks| < |source|
  {
    BlockSetNext(blocks, ps, p);
    if p.block !in blocks {
      RoomLeft(blocks, source, p.block);
    }
  }

  lemma BlockSetNext(blocks: seq<nat>, ps: seq<Pair>, p: Pair)
    requires Elems(blocks) == BlockSet(ps)
    ensures Elems(if p.block in blocks then blocks else blocks + [p.block]) == BlockSet(ps + [p])
  {
    HashSetSnoc(ps, p);
    ElemsSnoc(blocks, p.block);
    if p.block in blocks {
      assert p.block in Elems(blocks);
    }
  }

  /** The keys are the requested hashes among those seen, each once. */
  ghost predicate Seen(keys: seq<nat>, wanted: seq<nat>, hashes: seq<nat>) {
    Distinct(keys) && forall h :: h in keys <==> h in wanted && h in hashes
  }

  lemma SeenNext(keys: seq<nat>, wanted: seq<nat>, hashes: seq<nat>, i: nat)
    requires i < |hashes| && Seen(keys, wanted, hashes[..i])
    ensures hashes[i] in wanted && hashes[i] !in keys ==>
              |keys| < |wanted| && Seen(keys + [hashes[i]], wanted, hashes[..i + 1])
    ensures hashes[i] !in wanted || hashes[i] in keys ==> Seen(keys, wanted, hashes[..i + 1])
    ensures hashes[i] in wanted ==> (hashes[i] in keys <==> hashes[i] in hashes[..i])
  {
    assert hashes[..i + 1] == hashes[..i] + [hashes[i]];
    if hashes[i] in wanted && hashes[i] !in keys {
      RoomLeft(keys, wanted, hashes[i]);
    }
  }

  lemma PairAt(ix: ContentIndex, i: nat)
    requires ContentOk(ix) && i < |ix.chunkHashes|
    ensures Pairs(ix)[i] == Pair(ix.chunkHashes[i], ix.blockHashes[ix.chunkBlockIndexes[i]])
    ensures Pairs(ix)[i].block in ix.blockHashes
  {
  }

  /** The reference pairs of the requested chunks, each chunk once, with the blocks
      that hold them. */
  method RetargetContent(reference: ContentIndex, requested: ContentIndex) returns (r: Result<ContentIndex>)
    requires ContentOk(reference) && ContentOk(requested)
    ensures r == Failure(EINVAL) <==> !Compatible(reference, requested)
    ensures r.Failure? ==> r.errno == EINVAL
    ensures r.Success? ==>
              && ContentOk(r.value)
              && Pairs(r.value) == KeepFirst(Pairs(reference), Elems(requested.chunkHashes))
              && Distinct(r.value.blockHashes) && Elems(r.value.blockHashes) == BlockSet(Pairs(r.value))
              && r.value.hashIdentifier == (if reference.blockHashes != [] then reference else requested).hashIdentifier
              && r.value.maxBlockSize == reference.maxBlockSize
              && r.value.maxChunksPerBlock == reference.maxChunksPerBlock
  {
    hide Building, KeepFirst, Elems, Distinct, BlockSet, IndexBuilder.Valid;
    if !Compatible(reference, requested) {
      return Failure(EINVAL);
    }
    var hashIdentifier := if reference.blockHashes != [] then reference.hashIdentifier else requested.hashIdentifier;
    var builder := KeepRequested(reference, requested);
    var ix := builder.Finish(hashIdentifier, reference.maxBlockSize, reference.maxChunksPerBlock);
    r := Success(ix);
  }

  method KeepRequested(reference: ContentIndex, requested: ContentIndex) returns (builder: IndexBuilder)
    requires ContentOk(reference) && ContentOk(requested)
    ensures builder.Valid() && builder.blocks.Length < NONE && builder.hashes.Length < NONE
    ensures builder.contents == KeepFirst(Pairs(reference), Elems(requested.chunkHashes))
    ensures BlockList(builder.Blocks(), reference.blockHashes, builder.contents)
  {
    hide KeepFirst, Lookup, Elems, BlockList, Seen, IndexBuilder.Valid, LookupTable.Valid;
    ghost var wanted, ps := Elems(requested.chunkHashes), Pairs(reference);
    var requestedLookup := PutAll(requested.chunkHashes, requested.chunkBlockIndexes);
    builder := new IndexBuilder(|reference.blockHashes|, |reference.chunkHashes|);
    var seen := new LookupTable(|requested.chunkHashes|);
    StartKeeping(reference, requested);
    for i := 0 to |reference.chunkHashes|
      invariant requestedLookup.Valid() && requestedLookup.Keys() == requested.chunkHashes
      invariant seen.Valid() && fresh(seen.Repr) && seen.keys.Length == |requested.chunkHashes|
      invariant Seen(seen.Keys(), requested.chunkHashes, reference.chunkHashes[..i])
      invariant builder.Valid() && fresh(builder.Repr) && builder.Repr !! seen.Repr
      invariant builder.Repr !! requestedLookup.Repr && seen.Repr !! requestedLookup.Repr
      invariant builder.contents == KeepFirst(ps[..i], wanted) && builder.count <= i
      invariant BlockList(builder.Blocks(), reference.blockHashes, builder.contents)
    {
      KeepChunk(reference, i, requested, requestedLookup, seen, builder);
    }
    assert ps[..|ps|] == ps;
  }

  /** Keeps reference chunk i if it is requested and was not kept before. */
  method KeepChunk(reference: ContentIndex, i: nat, requested: ContentIndex, requestedLookup: LookupTable,
                   seen: LookupTable, builder: IndexBuilder)
    requires ContentOk(reference) && i < |reference.chunkHashes|
    requires requestedLookup.Valid() && requestedLookup.Keys() == requested.chunkHashes
    requires seen.Valid() && seen.keys.Length == |requested.chunkHashes|
    requires Seen(seen.Keys(), requested.chunkHashes, reference.chunkHashes[..i])
    requires builder.Valid() && builder.Repr !! seen.Repr
    requires builder.contents == KeepFirst(Pairs(reference)[..i], Elems(requested.chunkHashes)) && builder.count <= i
    requires BlockList(builder.Blocks(), reference.blockHashes, builder.contents)
    requires builder.blocks.Length == |reference.blockHashes| && builder.hashes.Length == |reference.chunkHashes|
    modifies seen.Repr, builder.Repr
    ensures seen.Valid() && Seen(seen.Keys(), requested.chunkHashes, reference.chunkHashes[..i + 1])
    ensures builder.Valid() && builder.count <= i + 1
    ensures builder.contents == KeepFirst(Pairs(reference)[..i + 1], Elems(requested.chunkHashes))
    ensures BlockList(builder.Blocks(), reference.blockHashes, builder.contents)
  {
    hide KeepFirst, Lookup, FirstMatch, Elems, BlockList, Seen, IndexBuilder.Valid, LookupTable.Valid,
         LookupTable.FirstWins;
    var chunkHash := reference.chunkHashes[i];
    KeepFirstNext(reference, i, Elems(requested.chunkHashes));
    SeenNext(seen.Keys(), requested.chunkHashes, reference.chunkHashes, i);
    InElems(requested.chunkHashes, chunkHash);
    var found := requestedLookup.Get(chunkHash);
    LookupPresent(requestedLookup.Keys(), requestedLookup.Values(), chunkHash);
    if found.Some? {
      var existing := seen.PutUnique(chunkHash, i);
      if existing.None? {
        PairAt(reference, i);
        BlockListNext(builder.Blocks(), reference.blockHashes, builder.contents, Pairs(reference)[i]);
        builder.Add(chunkHash, reference.blockHashes[reference.chunkBlockIndexes[i]]);
      }
    }
  }

  lemma InElems(s: seq<nat>, x: nat)
    ensures x in Elems(s) <==> x in s
  {
  }

  lemma StartKeeping(reference: ContentIndex, requested: ContentIndex)
    requires ContentOk(reference)
    ensures Seen([], requested.chunkHashes, reference.chunkHashes[..0])
    ensures KeepFirst(Pairs(reference)[..0], Elems(requested.chunkHashes)) == []
    ensures BlockList([], reference.blockHashes, [])
  {
  }
}

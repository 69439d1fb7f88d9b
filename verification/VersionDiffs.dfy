/** The difference of two versions (src/longtail.c): assets are matched by the hash of
    their path, in one pass over both sorted hash lists. */
module VersionDiffs {
  import opened Prelude
  import opened LookupTables
  import opened Indexes
  import opened Sorting
  import HashDiff

  datatype VersionDiff = VersionDiff(
    sourceRemoved: seq<nat>,
    targetAdded: seq<nat>,
    sourceContentModified: seq<nat>,
    targetContentModified: seq<nat>,
    sourcePermissionsModified: seq<nat>,
    targetPermissionsModified: seq<nat>)

  function Hashes(v: VersionIndex, pathHash: string -> nat): (r: seq<nat>)
    ensures |r| == |v.names| && forall a :: 0 <= a < |r| ==> r[a] == pathHash(v.names[a])
  {
    seq(|v.names|, a requires 0 <= a < |v.names| => pathHash(v.names[a]))
  }

  /** Assets s and t have the same path hash. */
  ghost predicate SamePath(src: seq<nat>, dst: seq<nat>, s: nat, t: nat) {
    s < |src| && t < |dst| && src[s] == dst[t]
  }

  /** The assets of one side whose path the other side lacks. */
  ghost predicate ListsMissing(list: seq<nat>, these: seq<nat>, others: seq<nat>) {
    Distinct(list) && forall a: nat :: a in list <==> a < |these| && these[a] !in others
  }

  /** The two lists name, side by side, exactly the pairs that `differ`. */
  ghost predicate ListsPairs(ss: seq<nat>, ts: seq<nat>, differ: (nat, nat) -> bool) {
    && |ss| == |ts| && Distinct(ss) && Distinct(ts)
    && (forall k :: 0 <= k < |ss| ==> differ(ss[k], ts[k]))
    && (forall s: nat, t: nat :: differ(s, t) ==> exists k :: 0 <= k < |ss| && ss[k] == s && ts[k] == t)
  }

  ghost function ContentDiffers(S: VersionIndex, T: VersionIndex, src: seq<nat>, dst: seq<nat>): (nat, nat) -> bool
    requires VersionShape(S) && VersionShape(T) && |src| == |S.names| && |dst| == |T.names|
  {
    (s: nat, t: nat) => SamePath(src, dst, s, t) && S.contentHashes[s] != T.contentHashes[t]
  }

  ghost function PermissionsDiffer(S: VersionIndex, T: VersionIndex, src: seq<nat>, dst: seq<nat>): (nat, nat) -> bool
    requires VersionShape(S) && VersionShape(T) && |src| == |S.names| && |dst| == |T.names|
  {
    (s: nat, t: nat) => SamePath(src, dst, s, t) && S.contentHashes[s] == T.contentHashes[t]
        && S.permissions[s] != T.permissions[t]
  }

  function PathLength(v: VersionIndex, a: nat): nat {
    if a < |v.names| then |v.names[a]| else 0
  }

  function LongToShort(v: VersionIndex): (nat, nat) -> bool {
    (a: nat, b: nat) => PathLength(v, a) >= PathLength(v, b)
  }

  function ShortToLong(v: VersionIndex): (nat, nat) -> bool {
    (a: nat, b: nat) => PathLength(v, a) <= PathLength(v, b)
  }

  /** What a version difference lists. */
  ghost predicate Describes(d: VersionDiff, S: VersionIndex, T: VersionIndex, src: seq<nat>, dst: seq<nat>)
    requires VersionShape(S) && VersionShape(T) && |src| == |S.names| && |dst| == |T.names|
  {
    && ListsMissing(d.sourceRemoved, src, dst) && SortedBy(d.sourceRemoved, LongToShort(S))
    && ListsMissing(d.targetAdded, dst, src) && SortedBy(d.targetAdded, ShortToLong(T))
    && ListsPairs(d.sourceContentModified, d.targetContentModified, ContentDiffers(S, T, src, dst))
    && ListsPairs(d.sourcePermissionsModified, d.targetPermissionsModified, PermissionsDiffer(S, T, src, dst))
  }

  // ----- The merge -----

  /** The part of the lists that is due once the hashes in `seen` were looked at. */
  ghost predicate MissingSoFar(list: seq<nat>, these: seq<nat>, others: seq<nat>, seen: seq<nat>) {
    Distinct(list) && forall a: nat :: a in list <==> a < |these| && these[a] in seen && these[a] !in others
  }

  ghost predicate PairsSoFar(ss: seq<nat>, ts: seq<nat>, differ: (nat, nat) -> bool, src: seq<nat>, seen: seq<nat>) {
    && |ss| == |ts| && Distinct(ss) && Distinct(ts)
    && (forall k :: 0 <= k < |ss| ==> differ(ss[k], ts[k]) && ss[k] < |src| && src[ss[k]] in seen)
    && (forall s: nat, t: nat :: differ(s, t) && s < |src| && src[s] in seen ==>
        exists k :: 0 <= k < |ss| && ss[k] == s && ts[k] == t)
  }

  lemma MissingNext(list: seq<nat>, these: seq<nat>, others: seq<nat>, seen: seq<nat>, a: nat)
    requires MissingSoFar(list, these, others, seen) && Distinct(these) && a < |these| && these[a] !in seen
    ensures MissingSoFar(if these[a] in others then list else list + [a], these, others, seen + [these[a]])
  {
    assert forall b: nat :: b < |these| && these[b] == these[a] ==> b == a;
  }

  lemma PairsNext(ss: seq<nat>, ts: seq<nat>, differ: (nat, nat) -> bool, src: seq<nat>, dst: seq<nat>, seen: seq<nat>,
                  s: nat, t: nat)
    requires PairsSoFar(ss, ts, differ, src, seen) && Distinct(src) && Distinct(dst) && SamePath(src, dst, s, t)
    requires src[s] !in seen && forall p: nat, q: nat :: differ(p, q) ==> SamePath(src, dst, p, q)
    ensures differ(s, t) ==> PairsSoFar(ss + [s], ts + [t], differ, src, seen + [src[s]])
    ensures !differ(s, t) ==> PairsSoFar(ss, ts, differ, src, seen + [src[s]])
  {
    forall p: nat, q: nat | differ(p, q) && p < |src| && src[p] == src[s]
      ensures p == s && q == t
    {
      assert SamePath(src, dst, p, q);
    }
    if differ(s, t) {
      forall k | 0 <= k < |ss|
        ensures ss[k] != s && ts[k] != t
      {
        assert SamePath(src, dst, ss[k], ts[k]);
      }
      var ss', ts' := ss + [s], ts + [t];
      forall p: nat, q: nat | differ(p, q) && p < |src| && src[p] in seen + [src[s]]
        ensures exists k :: 0 <= k < |ss'| && ss'[k] == p && ts'[k] == q
      {
        if src[p] in seen {
          var k :| 0 <= k < |ss| && ss[k] == p && ts[k] == q;
          assert ss'[k] == p && ts'[k] == q;
        } else {
          assert ss'[|ss|] == p && ts'[|ss|] == q;
        }
      }
    }
  }

  /** A hash that only the source has does not add a pair. */
  lemma PairsSkip(ss: seq<nat>, ts: seq<nat>, differ: (nat, nat) -> bool, src: seq<nat>, dst: seq<nat>, seen: seq<nat>,
                  h: nat)
    requires PairsSoFar(ss, ts, differ, src, seen) && h !in dst
    requires forall p: nat, q: nat :: differ(p, q) ==> SamePath(src, dst, p, q)
    ensures PairsSoFar(ss, ts, differ, src, seen + [h])
  {
    forall p: nat, q: nat | differ(p, q) && p < |src| && src[p] in seen + [h]
      ensures src[p] in seen
    {
      assert SamePath(src, dst, p, q);
      assert dst[q] in dst;
    }
  }

  /** The table gives the asset of every path hash. */
  ghost predicate Numbered(table: LookupTable, hashes: seq<nat>)
    reads table, table.Repr
    ensures Numbered(table, hashes) ==> table.Valid()
  {
    table.Valid() && table.Keys() == hashes && table.Values() == seq(|hashes|, i => i)
  }

  lemma NumberedIs(table: LookupTable, hashes: seq<nat>)
    requires table.Valid() && table.Keys() == hashes && table.Values() == seq(|hashes|, i => i)
    ensures Numbered(table, hashes)
  {
  }

  /** The asset behind a path hash. */
  method AssetOf(table: LookupTable, hashes: seq<nat>, h: nat) returns (a: nat)
    requires Numbered(table, hashes) && h in hashes
    ensures a < |hashes| && hashes[a] == h
  {
    hide LookupTable.Valid, FirstMatch;
    FirstMatchNone(hashes, h);
    var found := table.Get(h);
    a := found.value;
  }

  /** The hashes in ascending order. */
  method SortHashes(hashes: seq<nat>) returns (sorted: seq<nat>)
    requires Distinct(hashes)
    ensures HashDiff.Ascending(sorted) && |sorted| == |hashes| && forall h :: h in sorted <==> h in hashes
  {
    var a := new nat[|hashes|](i requires 0 <= i < |hashes| => hashes[i]);
    assert a[..|hashes|] == hashes;
    Qsort(a, |hashes|, HashDiff.Le());
    sorted := a[..|hashes|];
    SameElems(hashes, sorted);
    DistinctPermutation(hashes, sorted);
    forall i, j | 0 <= i < j < |sorted|
      ensures sorted[i] < sorted[j]
    {
      assert HashDiff.Le()(sorted[i], sorted[j]);
    }
  }

  /** The listed assets, by the length of their path. */
  method SortAssets(list: seq<nat>, le: (nat, nat) -> bool) returns (sorted: seq<nat>)
    requires IsOrder(le) && Distinct(list)
    ensures SortedBy(sorted, le) && Distinct(sorted) && forall a :: a in sorted <==> a in list
  {
    var a := new nat[|list|](i requires 0 <= i < |list| => list[i]);
    assert a[..|list|] == list;
    Qsort(a, |list|, le);
    sorted := a[..|list|];
    SameElems(list, sorted);
    DistinctPermutation(list, sorted);
  }

  lemma LengthOrders(v: VersionIndex)
    ensures IsOrder(LongToShort(v)) && IsOrder(ShortToLong(v))
  {
  }

  /** The lists under construction. */
  class DiffLists {
    var removed: seq<nat>
    var added: seq<nat>
    var sourceContent: seq<nat>
    var targetContent: seq<nat>
    var sourcePermissions: seq<nat>
    var targetPermissions: seq<nat>

    constructor ()
      ensures removed == added == sourceContent == targetContent == sourcePermissions == targetPermissions == []
    {
      removed, added, sourceContent, targetContent, sourcePermissions, targetPermissions := [], [], [], [], [], [];
    }

    /** The lists hold what is due for the source hashes up to i and the target hashes
        up to j. */
    ghost predicate Holds(S: VersionIndex, T: VersionIndex, src: seq<nat>, dst: seq<nat>, seenSrc: seq<nat>,
                          seenDst: seq<nat>)
      requires VersionShape(S) && VersionShape(T) && |src| == |S.names| && |dst| == |T.names|
      reads this
    {
      && MissingSoFar(removed, src, dst, seenSrc) && MissingSoFar(added, dst, src, seenDst)
      && PairsSoFar(sourceContent, targetContent, ContentDiffers(S, T, src, dst), src, seenSrc)
      && PairsSoFar(sourcePermissions, targetPermissions, PermissionsDiffer(S, T, src, dst), src, seenSrc)
    }

    /** Both sides have the path. */
    method Both(S: VersionIndex, T: VersionIndex, ghost src: seq<nat>, ghost dst: seq<nat>, ghost seenSrc: seq<nat>,
                ghost seenDst: seq<nat>, s: nat, t: nat)
      requires VersionShape(S) && VersionShape(T) && |src| == |S.names| && |dst| == |T.names|
      requires Distinct(src) && Distinct(dst) && Holds(S, T, src, dst, seenSrc, seenDst) && SamePath(src, dst, s, t)
      requires src[s] !in seenSrc && dst[t] !in seenDst
      modifies this
      ensures Holds(S, T, src, dst, seenSrc + [src[s]], seenDst + [dst[t]])
    {
      hide MissingSoFar, PairsSoFar, Distinct;
      MissingNext(removed, src, dst, seenSrc, s);
      MissingNext(added, dst, src, seenDst, t);
      PairsNext(sourceContent, targetContent, ContentDiffers(S, T, src, dst), src, dst, seenSrc, s, t);
      PairsNext(sourcePermissions, targetPermissions, PermissionsDiffer(S, T, src, dst), src, dst, seenSrc, s, t);
      assert src[s] in dst && dst[t] in src;
      if S.contentHashes[s] != T.contentHashes[t] {
        sourceContent, targetContent := sourceContent + [s], targetContent + [t];
      } else if S.permissions[s] != T.permissions[t] {
        sourcePermissions, targetPermissions := sourcePermissions + [s], targetPermissions + [t];
      }
    }

    /** Only the source has the path. */
    method OnlySource(ghost S: VersionIndex, ghost T: VersionIndex, ghost src: seq<nat>, ghost dst: seq<nat>,
                      ghost seenSrc: seq<nat>, ghost seenDst: seq<nat>, s: nat)
      requires VersionShape(S) && VersionShape(T) && |src| == |S.names| && |dst| == |T.names|
      requires Distinct(src) && Holds(S, T, src, dst, seenSrc, seenDst) && s < |src| && src[s] !in seenSrc
                 && src[s] !in dst
      modifies this
      ensures Holds(S, T, src, dst, seenSrc + [src[s]], seenDst)
    {
      hide MissingSoFar, PairsSoFar, Distinct;
      MissingNext(removed, src, dst, seenSrc, s);
      PairsSkip(sourceContent, targetContent, ContentDiffers(S, T, src, dst), src, dst, seenSrc, src[s]);
      PairsSkip(sourcePermissions, targetPermissions, PermissionsDiffer(S, T, src, dst), src, dst, seenSrc, src[s]);
      removed := removed + [s];
    }

    /** Only the target has the path. */
    method OnlyTarget(ghost S: VersionIndex, ghost T: VersionIndex, ghost src: seq<nat>, ghost dst: seq<nat>,
                      ghost seenSrc: seq<nat>, ghost seenDst: seq<nat>, t: nat)
      requires VersionShape(S) && VersionShape(T) && |src| == |S.names| && |dst| == |T.names|
      requires Distinct(dst) && Holds(S, T, src, dst, seenSrc, seenDst) && t < |dst| && dst[t] !in seenDst
                 && dst[t] !in src
      modifies this
      ensures Holds(S, T, src, dst, seenSrc, seenDst + [dst[t]])
    {
      hide MissingSoFar, PairsSoFar, Distinct;
      MissingNext(added, dst, src, seenDst, t);
      added := added + [t];
    }

    /** The finished difference, with the lists in removal and creation order. */
    method Finish(S: VersionIndex, T: VersionIndex, ghost src: seq<nat>, ghost dst: seq<nat>) returns (d: VersionDiff)
      requires VersionShape(S) && VersionShape(T) && |src| == |S.names| && |dst| == |T.names|
      requires Complete(S, T, src, dst)
      ensures Describes(d, S, T, src, dst)
    {
      LengthOrders(S);
      LengthOrders(T);
      var sortedRemoved := SortAssets(removed, LongToShort(S));
      var sortedAdded := SortAssets(added, ShortToLong(T));
      d := VersionDiff(sortedRemoved, sortedAdded, sourceContent, targetContent, sourcePermissions, targetPermissions);
    }

    ghost predicate Complete(S: VersionIndex, T: VersionIndex, src: seq<nat>, dst: seq<nat>)
      requires VersionShape(S) && VersionShape(T) && |src| == |S.names| && |dst| == |T.names|
      reads this
    {
      && ListsMissing(removed, src, dst) && ListsMissing(added, dst, src)
      && ListsPairs(sourceContent, targetContent, ContentDiffers(S, T, src, dst))
      && ListsPairs(sourcePermissions, targetPermissions, PermissionsDiffer(S, T, src, dst))
    }

    lemma HoldsAll(S: VersionIndex, T: VersionIndex, src: seq<nat>, dst: seq<nat>, seenSrc: seq<nat>, seenDst: seq<nat>)
      requires VersionShape(S) && VersionShape(T) && |src| == |S.names| && |dst| == |T.names|
      requires Holds(S, T, src, dst, seenSrc, seenDst)
      requires (forall h :: h in src ==> h in seenSrc) && forall h :: h in dst ==> h in seenDst
      ensures Complete(S, T, src, dst)
    {
      forall s: nat, t: nat | SamePath(src, dst, s, t)
        ensures src[s] in seenSrc
      {
      }
      assert forall a: nat :: a < |src| ==> src[a] in src;
      assert forall a: nat :: a < |dst| ==> dst[a] in dst;
    }
  }

  lemma FrontierBoth(a: seq<nat>, i: nat, b: seq<nat>, j: nat)
    requires HashDiff.Frontier(a, i, b, j) && i < |a| && j < |b| && a[i] == b[j]
    ensures HashDiff.Frontier(a, i + 1, b, j + 1)
  {
  }

  lemma NotSeenYet(a: seq<nat>, i: nat)
    requires HashDiff.Ascending(a) && i < |a|
    ensures a[i] !in a[..i] && a[..i + 1] == a[..i] + [a[i]] && a[i] in a
  {
  }

  /** The difference of two versions. Path hashes do not repeat within a version. */
  method CreateVersionDiff(S: VersionIndex, T: VersionIndex, pathHash: string -> nat) returns (d: VersionDiff)
    requires VersionShape(S) && VersionShape(T) && |S.names| < NONE && |T.names| < NONE
    requires Distinct(Hashes(S, pathHash)) && Distinct(Hashes(T, pathHash))
    ensures Describes(d, S, T, Hashes(S, pathHash), Hashes(T, pathHash))
  {
    hide LookupTable.Valid, Numbered, DiffLists.Holds, DiffLists.Complete, Describes, HashDiff.Ascending,
         HashDiff.Frontier, Hashes, Distinct, VersionShape;
    var src, dst := Hashes(S, pathHash), Hashes(T, pathHash);
    var sourceTable := PutAll(src, seq(|src|, i => i));
    var targetTable := PutAll(dst, seq(|dst|, i => i));
    var sources := SortHashes(src);
    var targets := SortHashes(dst);
    NumberedIs(sourceTable, src);
    NumberedIs(targetTable, dst);
    var lists := new DiffLists();
    StartLists(lists, S, T, src, dst, sources, targets);
    MergeLists(S, T, src, dst, sourceTable, targetTable, sources, targets, lists);
    d := lists.Finish(S, T, src, dst);
  }

  lemma StartLists(lists: DiffLists, S: VersionIndex, T: VersionIndex, src: seq<nat>, dst: seq<nat>, sources: seq<nat>,
                   targets: seq<nat>)
    requires VersionShape(S) && VersionShape(T) && |src| == |S.names| && |dst| == |T.names|
    requires lists.removed == lists.added == lists.sourceContent == lists.targetContent == lists.sourcePermissions ==
               lists.targetPermissions == []
    requires HashDiff.Ascending(sources) && HashDiff.Ascending(targets)
    ensures lists.Holds(S, T, src, dst, sources[..0], targets[..0])
    ensures HashDiff.Frontier(sources, 0, targets, 0)
  {
  }

  /** One round of the merge while both lists have hashes left. */
  method MergeOne(S: VersionIndex, T: VersionIndex, src: seq<nat>, dst: seq<nat>, sourceTable: LookupTable,
                  targetTable: LookupTable, sources: seq<nat>, i: nat, targets: seq<nat>, j: nat, lists: DiffLists)
    returns (i': nat, j': nat)
    requires VersionShape(S) && VersionShape(T) && |src| == |S.names| && |dst| == |T.names|
    requires Numbered(sourceTable, src)
    requires Numbered(targetTable, dst)
    requires (forall h :: h in sources <==> h in src) && (forall h :: h in targets <==> h in dst)
    requires HashDiff.Frontier(sources, i, targets, j) && i < |sources| && j < |targets| && Distinct(src)
               && Distinct(dst)
    requires lists.Holds(S, T, src, dst, sources[..i], targets[..j])
    requires lists !in sourceTable.Repr && lists !in targetTable.Repr
    modifies lists
    ensures i <= i' <= |sources| && j <= j' <= |targets| && i' + j' > i + j
    ensures HashDiff.Frontier(sources, i', targets, j') && lists.Holds(S, T, src, dst, sources[..i'], targets[..j'])
  {
    hide Numbered, LookupTable.Valid, DiffLists.Holds, HashDiff.Ascending, VersionShape, Distinct;
    HashDiff.FrontierSwap(sources, i, targets, j);
    NotSeenYet(sources, i);
    NotSeenYet(targets, j);
    if sources[i] == targets[j] {
      var s := AssetOf(sourceTable, src, sources[i]);
      var t := AssetOf(targetTable, dst, targets[j]);
      FrontierBoth(sources, i, targets, j);
      lists.Both(S, T, src, dst, sources[..i], targets[..j], s, t);
      i', j' := i + 1, j + 1;
    } else if sources[i] < targets[j] {
      j' := j;
      i' := MergeSource(S, T, src, dst, sourceTable, sources, i, targets, j, lists);
    } else {
      i' := i;
      j' := MergeTarget(S, T, src, dst, targetTable, sources, i, targets, j, lists);
    }
  }

  /** The next source hash is not among the targets. */
  method MergeSource(ghost S: VersionIndex, ghost T: VersionIndex, src: seq<nat>, ghost dst: seq<nat>,
                     sourceTable: LookupTable, sources: seq<nat>, i: nat, ghost targets: seq<nat>, ghost j: nat,
                     lists: DiffLists)
    returns (i': nat)
    requires VersionShape(S) && VersionShape(T) && |src| == |S.names| && |dst| == |T.names|
    requires Numbered(sourceTable, src)
    requires (forall h :: h in sources <==> h in src) && (forall h :: h in targets <==> h in dst)
    requires HashDiff.Frontier(sources, i, targets, j) && i < |sources| && (j < |targets| ==> sources[i] < targets[j])
               && Distinct(src)
    requires j <= |targets| && lists.Holds(S, T, src, dst, sources[..i], targets[..j]) && lists !in sourceTable.Repr
    modifies lists
    ensures i' == i + 1
    ensures HashDiff.Frontier(sources, i', targets, j) && lists.Holds(S, T, src, dst, sources[..i'], targets[..j])
  {
    hide Numbered, LookupTable.Valid, DiffLists.Holds, HashDiff.Ascending, HashDiff.Frontier, VersionShape, Distinct;
    HashDiff.FrontierSwap(sources, i, targets, j);
    NotSeenYet(sources, i);
    HashDiff.SmallerHeadIsMissing(sources, i, targets, j);
    var s := AssetOf(sourceTable, src, sources[i]);
    lists.OnlySource(S, T, src, dst, sources[..i], targets[..j], s);
    i' := i + 1;
  }

  /** The next target hash is not among the sources. */
  method MergeTarget(ghost S: VersionIndex, ghost T: VersionIndex, ghost src: seq<nat>, dst: seq<nat>,
                     targetTable: LookupTable, ghost sources: seq<nat>, ghost i: nat, targets: seq<nat>, j: nat,
                     lists: DiffLists)
    returns (j': nat)
    requires VersionShape(S) && VersionShape(T) && |src| == |S.names| && |dst| == |T.names|
    requires Numbered(targetTable, dst)
    requires (forall h :: h in sources <==> h in src) && (forall h :: h in targets <==> h in dst)
    requires HashDiff.Frontier(sources, i, targets, j) && j < |targets| && (i < |sources| ==> targets[j] < sources[i])
               && Distinct(dst)
    requires i <= |sources| && lists.Holds(S, T, src, dst, sources[..i], targets[..j]) && lists !in targetTable.Repr
    modifies lists
    ensures j' == j + 1
    ensures HashDiff.Frontier(sources, i, targets, j') && lists.Holds(S, T, src, dst, sources[..i], targets[..j'])
  {
    hide Numbered, LookupTable.Valid, DiffLists.Holds, HashDiff.Ascending, HashDiff.Frontier, VersionShape, Distinct;
    HashDiff.FrontierSwap(sources, i, targets, j);
    NotSeenYet(targets, j);
    HashDiff.SmallerHeadIsMissing(targets, j, sources, i);
    HashDiff.FrontierSwap(targets, j + 1, sources, i);
    var t := AssetOf(targetTable, dst, targets[j]);
    lists.OnlyTarget(S, T, src, dst, sources[..i], targets[..j], t);
    j' := j + 1;
  }

  /** Goes through both sorted hash lists. */
  method MergeLists(S: VersionIndex, T: VersionIndex, src: seq<nat>, dst: seq<nat>, sourceTable: LookupTable,
                    targetTable: LookupTable, sources: seq<nat>, targets: seq<nat>, lists: DiffLists)
    requires VersionShape(S) && VersionShape(T) && |src| == |S.names| && |dst| == |T.names|
    requires Numbered(sourceTable, src) && Numbered(targetTable, dst)
    requires (forall h :: h in sources <==> h in src) && (forall h :: h in targets <==> h in dst)
    requires HashDiff.Frontier(sources, 0, targets, 0) && Distinct(src) && Distinct(dst)
    requires lists.Holds(S, T, src, dst, sources[..0], targets[..0])
    requires lists !in sourceTable.Repr && lists !in targetTable.Repr
    modifies lists
    ensures lists.Complete(S, T, src, dst)
  {
    hide Numbered, LookupTable.Valid, DiffLists.Holds, DiffLists.Complete, HashDiff.Ascending, HashDiff.Frontier,
         VersionShape, Distinct;
    var i, j := 0, 0;
    while i < |sources| && j < |targets|
      invariant HashDiff.Frontier(sources, i, targets, j) && i <= |sources| && j <= |targets|
      invariant lists.Holds(S, T, src, dst, sources[..i], targets[..j])
      invariant Numbered(sourceTable, src) && Numbered(targetTable, dst)
      invariant lists !in sourceTable.Repr && lists !in targetTable.Repr
      decreases |sources| - i + |targets| - j
    {
      i, j := MergeOne(S, T, src, dst, sourceTable, targetTable, sources, i, targets, j, lists);
    }
    while i < |sources|
      invariant HashDiff.Frontier(sources, i, targets, j) && i <= |sources| && j <= |targets|
                  && (i == |sources| || j == |targets|)
      invariant lists.Holds(S, T, src, dst, sources[..i], targets[..j])
      invariant Numbered(sourceTable, src) && Numbered(targetTable, dst)
    {
      i := MergeSource(S, T, src, dst, sourceTable, sources, i, targets, j, lists);
    }
    while j < |targets|
      invariant HashDiff.Frontier(sources, i, targets, j) && i == |sources| && j <= |targets|
      invariant lists.Holds(S, T, src, dst, sources[..i], targets[..j])
      invariant Numbered(targetTable, dst)
    {
      j := MergeTarget(S, T, src, dst, targetTable, sources, i, targets, j, lists);
    }
    assert sources[..i] == sources && targets[..j] == targets;
    lists.HoldsAll(S, T, src, dst, sources, targets);
  }
}

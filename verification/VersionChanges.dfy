/** Turning the tree of one version into that of another (src/longtail.c): difference,
    removal, writing, permissions. */
module VersionChanges {
  import opened Prelude
  import opened Indexes
  import opened Storages
  import opened VersionDiffs
  import opened ApplyDiffs
  import opened WriteLists
  import opened TargetWriting
  import Assets = AssetWriting

  // ----- What the difference means for the trees -----

  /** A setting in which a difference is applied. */
  ghost predicate Setting(S: VersionIndex, T: VersionIndex, pathHash: string -> nat, d: VersionDiff)
    ensures Setting(S, T, pathHash, d) ==> VersionShape(S) && VersionShape(T)
  {
    && IsTreeVersion(S) && IsTreeVersion(T) && HashesTell(S, T, pathHash)
    && Describes(d, S, T, Hashes(S, pathHash), Hashes(T, pathHash))
  }

  lemma IsSetting(S: VersionIndex, T: VersionIndex, pathHash: string -> nat, d: VersionDiff)
    requires IsTreeVersion(S) && IsTreeVersion(T) && HashesTell(S, T, pathHash)
    requires VersionShape(S) && VersionShape(T) && Describes(d, S, T, Hashes(S, pathHash), Hashes(T, pathHash))
    ensures Setting(S, T, pathHash, d)
  {
  }

  /** The assets have the same name. */
  ghost predicate Match(S: VersionIndex, T: VersionIndex, s: nat, t: nat) {
    s < |S.names| && t < |T.names| && S.names[s] == T.names[t]
  }

  lemma SameHashSameName(S: VersionIndex, T: VersionIndex, pathHash: string -> nat, s: nat, t: nat)
    requires HashesTell(S, T, pathHash) && s < |S.names| && t < |T.names|
    ensures SamePath(Hashes(S, pathHash), Hashes(T, pathHash), s, t) <==> Match(S, T, s, t)
  {
    assert S.names[s] in S.names && T.names[t] in T.names;
  }

  /** What the lists of a difference say about one asset of the source. */
  lemma SourceAsset(S: VersionIndex, T: VersionIndex, pathHash: string -> nat, d: VersionDiff, s: nat)
    requires Setting(S, T, pathHash, d) && s < |S.names|
    ensures s !in d.sourceRemoved <==> exists t: nat :: Match(S, T, s, t)
  {
    hide IsTreeVersion, HashesTell;
    var src, dst := Hashes(S, pathHash), Hashes(T, pathHash);
    if s !in d.sourceRemoved {
      assert src[s] in dst;
      var t :| 0 <= t < |dst| && dst[t] == src[s];
      SameHashSameName(S, T, pathHash, s, t);
    }
    if t: nat :| Match(S, T, s, t) {
      SameHashSameName(S, T, pathHash, s, t);
      assert dst[t] in dst;
    }
  }

  /** What the lists of a difference say about one asset of the target. */
  lemma TargetAsset(S: VersionIndex, T: VersionIndex, pathHash: string -> nat, d: VersionDiff, t: nat)
    requires Setting(S, T, pathHash, d) && t < |T.names|
    ensures t in d.targetAdded <==> !exists s: nat :: Match(S, T, s, t)
    ensures forall s: nat :: Match(S, T, s, t) ==>
              (t in d.targetContentModified <==> S.contentHashes[s] != T.contentHashes[t])
    ensures forall s: nat :: Match(S, T, s, t) ==>
              (t in d.targetPermissionsModified <==>
               S.contentHashes[s] == T.contentHashes[t] && S.permissions[s] != T.permissions[t])
  {
    hide HashesTell;
    var src, dst := Hashes(S, pathHash), Hashes(T, pathHash);
    if t !in d.targetAdded {
      assert dst[t] in src;
      var s :| 0 <= s < |src| && src[s] == dst[t];
      SameHashSameName(S, T, pathHash, s, t);
    }
    forall s: nat | Match(S, T, s, t)
      ensures SamePath(src, dst, s, t) && t !in d.targetAdded
      ensures forall r: nat :: r < |src| && SamePath(src, dst, r, t) ==> r == s
    {
      SameHashSameName(S, T, pathHash, s, t);
      assert src[s] in src;
      forall r: nat | r < |src| && SamePath(src, dst, r, t)
        ensures r == s
      {
        SameHashSameName(S, T, pathHash, r, t);
        if r != s {
          PathsDiffer(S, r, s);
        }
      }
    }
    forall s: nat | Match(S, T, s, t)
      ensures t in d.targetContentModified <==> S.contentHashes[s] != T.contentHashes[t]
      ensures t in d.targetPermissionsModified <==>
                S.contentHashes[s] == T.contentHashes[t] && S.permissions[s] != T.permissions[t]
    {
      InPairs(d.sourceContentModified, d.targetContentModified, ContentDiffers(S, T, src, dst), src, dst, s, t);
      InPairs(d.sourcePermissionsModified, d.targetPermissionsModified, PermissionsDiffer(S, T, src, dst), src, dst, s,
              t);
    }
  }

  lemma InPairs(ss: seq<nat>, ts: seq<nat>, differ: (nat, nat) -> bool, src: seq<nat>, dst: seq<nat>, s: nat, t: nat)
    requires ListsPairs(ss, ts, differ) && SamePath(src, dst, s, t)
    requires forall p: nat, q: nat :: differ(p, q) ==> SamePath(src, dst, p, q)
    requires forall r: nat :: r < |src| && SamePath(src, dst, r, t) ==> r == s
    ensures t in ts <==> differ(s, t)
  {
    if t in ts {
      var k :| 0 <= k < |ts| && ts[k] == t;
      assert differ(ss[k], ts[k]);
    }
  }

  lemma ListBounds(S: VersionIndex, T: VersionIndex, pathHash: string -> nat, d: VersionDiff)
    requires Setting(S, T, pathHash, d)
    ensures forall k :: 0 <= k < |d.sourceRemoved| ==> d.sourceRemoved[k] < |S.names|
    ensures forall k :: 0 <= k < |d.targetAdded| ==> d.targetAdded[k] < |T.names|
    ensures forall k :: 0 <= k < |d.targetContentModified| ==> d.targetContentModified[k] < |T.names|
    ensures forall k :: 0 <= k < |d.targetPermissionsModified| ==> d.targetPermissionsModified[k] < |T.names|
    ensures Distinct(d.targetAdded) && Distinct(d.targetContentModified)
  {
    hide IsTreeVersion, HashesTell;
    var src, dst := Hashes(S, pathHash), Hashes(T, pathHash);
    assert forall k :: 0 <= k < |d.sourceRemoved| ==> d.sourceRemoved[k] in d.sourceRemoved;
    assert forall k :: 0 <= k < |d.targetAdded| ==> d.targetAdded[k] in d.targetAdded;
    assert forall k :: 0 <= k < |d.targetContentModified| ==>
             ContentDiffers(S, T, src, dst)(d.sourceContentModified[k], d.targetContentModified[k]);
    assert forall k :: 0 <= k < |d.targetPermissionsModified| ==>
             PermissionsDiffer(S, T, src, dst)(d.sourcePermissionsModified[k], d.targetPermissionsModified[k]);
  }

  /** The assets to write: added and modified ones. */
  function ToWrite(d: VersionDiff): seq<nat> {
    d.targetAdded + d.targetContentModified
  }

  lemma ToWriteOk(S: VersionIndex, T: VersionIndex, pathHash: string -> nat, d: VersionDiff)
    requires Setting(S, T, pathHash, d)
    ensures Distinct(ToWrite(d)) && forall k :: 0 <= k < |ToWrite(d)| ==> ToWrite(d)[k] < |T.names|
  {
    hide Setting;
    ListBounds(S, T, pathHash, d);
    forall i, j | 0 <= i < |d.targetAdded| && 0 <= j < |d.targetContentModified|
      ensures d.targetAdded[i] != d.targetContentModified[j]
    {
      AddedIsNotModified(S, T, pathHash, d, d.targetAdded[i]);
    }
  }

  lemma AddedIsNotModified(S: VersionIndex, T: VersionIndex, pathHash: string -> nat, d: VersionDiff, t: nat)
    requires Setting(S, T, pathHash, d) && t in d.targetAdded
    ensures t !in d.targetContentModified
  {
  }

  // ----- The tree step by step -----

  lemma TreeIsRooted(tree: Tree, v: VersionIndex, bytes: nat -> seq<byte>)
    requires IsTreeVersion(v) && Holds(tree, v, bytes)
    ensures Rooted(tree)
  {
    hide AssetBytes;
    forall p | p in tree
      ensures p != [] && DirIn(tree, Parent(p))
    {
      var a :| 0 <= a < |v.names| && AssetPath(v, a) == p;
      if Parent(p) != [] {
        var b := ParentAsset(v, a);
      }
    }
  }

  /** An asset that the target has too is still there after the removal, unchanged. */
  lemma MatchedSurvives(tree: Tree, S: VersionIndex, T: VersionIndex, pathHash: string -> nat, d: VersionDiff, s: nat,
                        t: nat, bytes: nat -> seq<byte>)
    requires Setting(S, T, pathHash, d) && Holds(tree, S, bytes) && Match(S, T, s, t)
    requires forall k :: 0 <= k < |d.sourceRemoved| ==> d.sourceRemoved[k] < |S.names|
    ensures var after := WithoutAssets(tree, S, d.sourceRemoved);
            AssetPath(T, t) in after && after[AssetPath(T, t)] == tree[AssetPath(S, s)]
  {
    hide Describes, HashesTell, AssetBytes;
    SourceAsset(S, T, pathHash, d, s);
    assert s !in d.sourceRemoved && AssetPath(S, s) in tree;
    forall k | 0 <= k < |d.sourceRemoved|
      ensures AssetPath(S, d.sourceRemoved[k]) != AssetPath(S, s)
    {
      assert d.sourceRemoved[k] in d.sourceRemoved;
      PathsDiffer(S, d.sourceRemoved[k], s);
    }
  }

  /** What is left after the removal is part of the target. */
  lemma LeftIsPartOfTarget(tree: Tree, S: VersionIndex, T: VersionIndex, pathHash: string -> nat, d: VersionDiff,
                           bytes: nat -> seq<byte>)
    requires Setting(S, T, pathHash, d) && Holds(tree, S, bytes)
    requires forall k :: 0 <= k < |d.sourceRemoved| ==> d.sourceRemoved[k] < |S.names|
    ensures PartOf(WithoutAssets(tree, S, d.sourceRemoved), T)
  {
    hide Describes, HashesTell, AssetBytes, PathListed, IsTreeVersion, VersionShape;
    var after := WithoutAssets(tree, S, d.sourceRemoved);
    forall p | p in after
      ensures HasPath(T, p) && p != [] && DirIn(after, Parent(p))
    {
      var s, t := LeftAsset(tree, S, T, pathHash, d, p, bytes);
      LeftParent(tree, S, T, pathHash, d, s, t, bytes);
    }
    forall t: nat | t < |T.names| && AssetPath(T, t) in after
      ensures after[AssetPath(T, t)].Dir? <==> IsDirPath(T.names[t])
    {
      var s, t' := LeftAsset(tree, S, T, pathHash, d, AssetPath(T, t), bytes);
      if t' != t {
        PathsDiffer(T, t, t');
      }
      assert IsAsset(tree[AssetPath(S, s)], S, s, bytes);
    }
  }

  /** An entry that is left belongs to an asset of both versions. */
  lemma LeftAsset(tree: Tree, S: VersionIndex, T: VersionIndex, pathHash: string -> nat, d: VersionDiff, p: string,
                  bytes: nat -> seq<byte>)
    returns (s: nat, t: nat)
    requires Setting(S, T, pathHash, d) && Holds(tree, S, bytes)
    requires forall k :: 0 <= k < |d.sourceRemoved| ==> d.sourceRemoved[k] < |S.names|
    requires p in WithoutAssets(tree, S, d.sourceRemoved)
    ensures Match(S, T, s, t) && AssetPath(S, s) == AssetPath(T, t) == p
  {
    hide Describes, HashesTell, AssetBytes, IsTreeVersion;
    s :| 0 <= s < |S.names| && AssetPath(S, s) == p;
    SourceAsset(S, T, pathHash, d, s);
    t :| Match(S, T, s, t);
  }

  lemma LeftParent(tree: Tree, S: VersionIndex, T: VersionIndex, pathHash: string -> nat, d: VersionDiff, s: nat,
                   t: nat, bytes: nat -> seq<byte>)
    requires Setting(S, T, pathHash, d) && Holds(tree, S, bytes) && Match(S, T, s, t)
    requires forall k :: 0 <= k < |d.sourceRemoved| ==> d.sourceRemoved[k] < |S.names|
    ensures AssetPath(S, s) != [] && DirIn(WithoutAssets(tree, S, d.sourceRemoved), Parent(AssetPath(S, s)))
  {
    hide Describes, HashesTell, AssetBytes, WithoutAssets;
    if Parent(AssetPath(S, s)) != [] {
      var a := ParentAsset(S, s);
      var b := ParentAsset(T, t);
      assert Match(S, T, a, b);
      MatchedSurvives(tree, S, T, pathHash, d, a, b, bytes);
      assert IsAsset(tree[AssetPath(S, a)], S, a, bytes);
    }
  }

  /** Assets of the same name and content hash have the same content. */
  ghost predicate HashesMeanContent(S: VersionIndex, T: VersionIndex, bytes: nat -> seq<byte>)
    requires VersionShape(S) && VersionShape(T)
  {
    forall s: nat, t: nat :: Match(S, T, s, t) && S.contentHashes[s] == T.contentHashes[t] && !IsDirPath(T.names[t]) ==>
      AssetBytes(S, bytes, s) == AssetBytes(T, bytes, t)
  }

  /** A directory of the target has the permissions that an update leaves it with: those of
      new directories if it is added, those of the source if its content is listed as
      modified. */
  ghost predicate CarriesOver(S: VersionIndex, T: VersionIndex, t: nat)
    requires VersionShape(S) && VersionShape(T) && t < |T.names|
  {
    && ((forall s: nat :: !Match(S, T, s, t)) ==> T.permissions[t] == NEW_PERMISSIONS)
    && (forall s: nat :: Match(S, T, s, t) && S.contentHashes[s] != T.contentHashes[t] ==>
        S.permissions[s] == T.permissions[t])
  }

  ghost predicate PermissionsCarryOver(S: VersionIndex, T: VersionIndex)
    requires VersionShape(S) && VersionShape(T)
  {
    forall t: nat :: t < |T.names| && IsDirPath(T.names[t]) ==> CarriesOver(S, T, t)
  }

  /** After the writes the tree holds the target, but for the assets that were lost. */
  lemma WritesCompleteTarget(tree: Tree, left: Tree, after: Tree, S: VersionIndex, T: VersionIndex,
                             pathHash: string -> nat, d: VersionDiff, lost: set<nat>, bytes: nat -> seq<byte>,
                             retain: bool)
    requires Setting(S, T, pathHash, d) && Holds(tree, S, bytes) && HashesMeanContent(S, T, bytes)
    requires forall k :: 0 <= k < |d.sourceRemoved| ==> d.sourceRemoved[k] < |S.names|
    requires forall k :: 0 <= k < |ToWrite(d)| ==> ToWrite(d)[k] < |T.names|
    requires left == WithoutAssets(tree, S, d.sourceRemoved)
               && ListWritten(left, after, T, ToWrite(d), lost, bytes, retain)
    requires forall t :: t in lost ==>
               t in ToWrite(d) && t < |T.names| && AssetPath(T, t) in after && after[AssetPath(T, t)].File?
    ensures HoldsBut(after, T, lost, bytes)
    ensures lost == {} ==> Completed(tree, left, after, S, T, pathHash, d, bytes, retain)
  {
    hide Describes, HashesTell, AssetBytes, WithoutAssets, Rooted;
    forall s: nat, t: nat | Match(S, T, s, t) && t !in ToWrite(d)
      ensures AssetPath(T, t) in after && after[AssetPath(T, t)] == tree[AssetPath(S, s)]
    {
      MatchedSurvives(tree, S, T, pathHash, d, s, t, bytes);
      NotListed(T, ToWrite(d), t);
    }
    forall t | 0 <= t < |T.names| && t !in lost
      ensures AssetPath(T, t) in after && IsAsset(after[AssetPath(T, t)], T, t, bytes)
    {
      if t in ToWrite(d) {
        var k :| 0 <= k < |ToWrite(d)| && ToWrite(d)[k] == t;
        assert AssetWritten(after, T, ToWrite(d)[k], bytes, retain);
      } else {
        TargetAsset(S, T, pathHash, d, t);
        var s: nat :| Match(S, T, s, t);
        assert IsAsset(tree[AssetPath(S, s)], S, s, bytes);
      }
    }
  }

  /** The trees agree but for permissions. */
  ghost predicate SameContents(a: Tree, b: Tree) {
    a.Keys == b.Keys && forall p :: p in a ==> b[p] == WithPermissions(a[p], b[p].permissions)
  }

  /** The listed assets have the permissions of the version; nothing else changed. */
  ghost predicate PermissionsSet(before: Tree, after: Tree, v: VersionIndex, list: seq<nat>)
    requires VersionShape(v) && forall k :: 0 <= k < |list| ==> list[k] < |v.names|
  {
    && SameContents(before, after)
    && (forall p :: p in before && !PathListed(v, list, p) ==> after[p] == before[p])
    && forall k :: 0 <= k < |list| ==>
         AssetPath(v, list[k]) in after && after[AssetPath(v, list[k])].permissions == v.permissions[list[k]]
  }

  lemma NothingSet(tree: Tree, v: VersionIndex, list: seq<nat>)
    requires VersionShape(v) && list == []
    ensures PermissionsSet(tree, tree, v, list)
  {
  }

  lemma SetNext(start: Tree, before: Tree, v: VersionIndex, list: seq<nat>, i: nat)
    requires IsTreeVersion(v) && Distinct(list) && (forall k :: 0 <= k < |list| ==> list[k] < |v.names|) && i < |list|
    requires PermissionsSet(start, before, v, list[..i]) && AssetPath(v, list[i]) in before
    ensures var path := AssetPath(v, list[i]);
            PermissionsSet(start, before[path := WithPermissions(before[path], v.permissions[list[i]])], v,
                           list[..i + 1])
  {
    hide PathListed;
    assert list[..i + 1] == list[..i] + [list[i]];
    forall k | 0 <= k < i
      ensures AssetPath(v, list[k]) != AssetPath(v, list[i])
    {
      PathsDiffer(v, list[k], list[i]);
    }
    var path := AssetPath(v, list[i]);
    var after := before[path := WithPermissions(before[path], v.permissions[list[i]])];
    var now := list[..i + 1];
    assert SameContents(start, after);
    forall p | p in start && !PathListed(v, now, p)
      ensures after[p] == start[p]
    {
      ListedSnoc(v, list[..i], list[i], p);
    }
    forall k | 0 <= k < |now|
      ensures AssetPath(v, now[k]) in after && after[AssetPath(v, now[k])].permissions == v.permissions[now[k]]
    {
      if k < i {
        assert now[k] == list[..i][k] == list[k];
      }
    }
  }

  lemma SameKeys(before: Tree, after: Tree, v: VersionIndex, list: seq<nat>)
    requires VersionShape(v) && forall k :: 0 <= k < |list| ==> list[k] < |v.names|
    requires PermissionsSet(before, after, v, list)
    ensures before.Keys == after.Keys
  {
  }

  lemma PermissionsPresent(v: VersionIndex)
    requires VersionShape(v)
    ensures |v.permissions| == |v.names|
  {
  }

  /** Sets the permissions that are listed as modified. */
  method SetListedPermissions(store: Storage, v: VersionIndex, list: seq<nat>) returns (err: Option<Errno>)
    requires IsTreeVersion(v) && Distinct(list) && (forall k :: 0 <= k < |list| ==> list[k] < |v.names|)
    modifies store`tree
    ensures (forall k :: 0 <= k < |list| ==> AssetPath(v, list[k]) in old(store.tree)) ==> err == None
    ensures err == None ==> PermissionsSet(old(store.tree), store.tree, v, list)
  {
    hide PermissionsSet, IsTreeVersion, VersionShape;
    VersionShapeOf(v);
    ghost var before := store.tree;
    PermissionsPresent(v);
    NothingSet(before, v, list[..0]);
    for i := 0 to |list|
      invariant PermissionsSet(before, store.tree, v, list[..i])
    {
      ghost var current := store.tree;
      SameKeys(before, current, v, list[..i]);
      err := store.SetPermissions(v.names[list[i]], v.permissions[list[i]]);
      if err.Some? {
        return;
      }
      SetNext(before, current, v, list, i);
    }
    assert list[..|list|] == list;
    err := None;
  }

  lemma PermissionsKeepContents(before: Tree, after: Tree, v: VersionIndex, but: set<nat>, bytes: nat -> seq<byte>)
    requires VersionShape(v) && HoldsBut(before, v, but, bytes) && SameContents(before, after)
    ensures HoldsBut(after, v, but, bytes)
  {
    hide AssetBytes, VersionShape;
    forall a | 0 <= a < |v.names| && a !in but
      ensures AssetPath(v, a) in after && IsAsset(after[AssetPath(v, a)], v, a, bytes)
    {
      assert IsAsset(before[AssetPath(v, a)], v, a, bytes);
    }
  }

  /** What is written: the assets that are listed, and those of both versions stay. */
  ghost predicate Completed(tree: Tree, left: Tree, written: Tree, S: VersionIndex, T: VersionIndex,
                            pathHash: string -> nat, d: VersionDiff, bytes: nat -> seq<byte>, retain: bool)
    ensures Completed(tree, left, written, S, T, pathHash, d, bytes, retain) ==> VersionShape(S) && VersionShape(T)
  {
    && Setting(S, T, pathHash, d) && Holds(tree, S, bytes)
    && (forall k :: 0 <= k < |d.sourceRemoved| ==> d.sourceRemoved[k] < |S.names|)
    && (forall k :: 0 <= k < |ToWrite(d)| ==> ToWrite(d)[k] < |T.names|)
    && left == WithoutAssets(tree, S, d.sourceRemoved)
    && ListWritten(left, written, T, ToWrite(d), {}, bytes, retain)
  }

  /** A directory that is added gets the permissions of new directories. */
  lemma AddedDirectory(tree: Tree, left: Tree, written: Tree, S: VersionIndex, T: VersionIndex, pathHash: string -> nat,
                       d: VersionDiff, bytes: nat -> seq<byte>, retain: bool, t: nat)
    requires Completed(tree, left, written, S, T, pathHash, d, bytes, retain)
    requires t < |T.names| && IsDirPath(T.names[t]) && t in d.targetAdded
    ensures AssetPath(T, t) in written && written[AssetPath(T, t)].permissions == NEW_PERMISSIONS
  {
    hide Describes, HashesTell, AssetBytes, WithoutAssets, Rooted, Untouched, IsTreeVersion;
    var path := AssetPath(T, t);
    TargetAsset(S, T, pathHash, d, t);
    if path in left {
      var s, t' := LeftAsset(tree, S, T, pathHash, d, path, bytes);
      SamePathSameAsset(T, t, t');
    }
    assert t in ToWrite(d);
    var k :| 0 <= k < |ToWrite(d)| && ToWrite(d)[k] == t;
    assert AssetWritten(written, T, ToWrite(d)[k], bytes, retain);
  }

  lemma SamePathSameAsset(v: VersionIndex, a: nat, b: nat)
    requires IsTreeVersion(v) && a < |v.names| && b < |v.names| && AssetPath(v, a) == AssetPath(v, b)
    ensures a == b
  {
    if a != b {
      PathsDiffer(v, a, b);
    }
  }

  /** A directory of both versions keeps the permissions it had. */
  lemma KeptDirectory(tree: Tree, left: Tree, written: Tree, S: VersionIndex, T: VersionIndex, pathHash: string -> nat,
                      d: VersionDiff, bytes: nat -> seq<byte>, retain: bool, s: nat, t: nat)
    requires Completed(tree, left, written, S, T, pathHash, d, bytes, retain) && HoldsPermissions(tree, S)
    requires Match(S, T, s, t) && IsDirPath(T.names[t])
    ensures AssetPath(T, t) in written && written[AssetPath(T, t)].permissions == S.permissions[s]
  {
    hide Describes, HashesTell, AssetBytes, WithoutAssets, Rooted, Untouched, IsTreeVersion, AssetWritten;
    MatchedSurvives(tree, S, T, pathHash, d, s, t, bytes);
    assert IsAsset(tree[AssetPath(S, s)], S, s, bytes);
  }

  /** A file that is written gets its permissions. */
  lemma WrittenFile(tree: Tree, left: Tree, written: Tree, S: VersionIndex, T: VersionIndex, pathHash: string -> nat,
                    d: VersionDiff, bytes: nat -> seq<byte>, t: nat)
    requires Completed(tree, left, written, S, T, pathHash, d, bytes, true)
    requires t < |T.names| && !IsDirPath(T.names[t]) && t in ToWrite(d)
    ensures AssetPath(T, t) in written && written[AssetPath(T, t)].permissions == T.permissions[t]
  {
    hide Describes, HashesTell, AssetBytes, WithoutAssets, Rooted, KeptOthers, IsTreeVersion;
    var k :| 0 <= k < |ToWrite(d)| && ToWrite(d)[k] == t;
    assert AssetWritten(written, T, ToWrite(d)[k], bytes, true);
  }

  /** An asset of both versions that is not written keeps the permissions it had. */
  lemma UnwrittenAsset(tree: Tree, left: Tree, written: Tree, S: VersionIndex, T: VersionIndex, pathHash: string -> nat,
                       d: VersionDiff, bytes: nat -> seq<byte>, retain: bool, s: nat, t: nat)
    requires Completed(tree, left, written, S, T, pathHash, d, bytes, retain) && HoldsPermissions(tree, S)
    requires Match(S, T, s, t) && t !in ToWrite(d)
    ensures AssetPath(T, t) in written && written[AssetPath(T, t)].permissions == S.permissions[s]
  {
    hide Describes, HashesTell, AssetBytes, WithoutAssets, Rooted, AssetWritten;
    MatchedSurvives(tree, S, T, pathHash, d, s, t, bytes);
    NotListed(T, ToWrite(d), t);
    assert tree[AssetPath(S, s)].permissions == S.permissions[s];
  }

  lemma AddedCarriesOver(S: VersionIndex, T: VersionIndex, t: nat)
    requires VersionShape(S) && VersionShape(T) && t < |T.names| && forall s: nat :: !Match(S, T, s, t)
    ensures CarriesOver(S, T, t) <==> T.permissions[t] == NEW_PERMISSIONS
  {
  }

  lemma MatchCarriesOver(S: VersionIndex, T: VersionIndex, pathHash: string -> nat, d: VersionDiff, s: nat, t: nat)
    requires Setting(S, T, pathHash, d) && Match(S, T, s, t)
    ensures CarriesOver(S, T, t) <==>
              (S.contentHashes[s] != T.contentHashes[t] ==> S.permissions[s] == T.permissions[t])
  {
    hide Setting;
    OneMatch(S, T, pathHash, d, t);
  }

  /** When the assets are written, one that is not listed for its permissions has those of the
      target exactly if it is a file or its directory carries over. */
  lemma WrittenPermissions(tree: Tree, left: Tree, written: Tree, S: VersionIndex, T: VersionIndex,
                           pathHash: string -> nat, d: VersionDiff, bytes: nat -> seq<byte>, t: nat)
    requires Completed(tree, left, written, S, T, pathHash, d, bytes, true) && HoldsPermissions(tree, S)
    requires t < |T.names| && t !in d.targetPermissionsModified
    ensures AssetPath(T, t) in written
    ensures written[AssetPath(T, t)].permissions == T.permissions[t] <==>
              (IsDirPath(T.names[t]) ==> CarriesOver(S, T, t))
  {
    hide Completed, HoldsPermissions, CarriesOver, Setting, ListWritten, VersionShape, Match;
    SettingOf(tree, left, written, S, T, pathHash, d, bytes, true);
    TargetAsset(S, T, pathHash, d, t);
    if t in ToWrite(d) && !IsDirPath(T.names[t]) {
      WrittenFile(tree, left, written, S, T, pathHash, d, bytes, t);
    } else if t in d.targetAdded {
      AddedCarriesOver(S, T, t);
      AddedDirectory(tree, left, written, S, T, pathHash, d, bytes, true, t);
    } else {
      var s: nat :| Match(S, T, s, t);
      MatchCarriesOver(S, T, pathHash, d, s, t);
      if t in ToWrite(d) {
        KeptDirectory(tree, left, written, S, T, pathHash, d, bytes, true, s, t);
      } else {
        UnwrittenAsset(tree, left, written, S, T, pathHash, d, bytes, true, s, t);
      }
    }
  }

  /** In the end an asset has the permissions of the target exactly if it is a file or its
      directory carries over. */
  lemma FinalPermissions(tree: Tree, left: Tree, written: Tree, after: Tree, S: VersionIndex, T: VersionIndex,
                         pathHash: string -> nat, d: VersionDiff, bytes: nat -> seq<byte>, t: nat)
    requires Completed(tree, left, written, S, T, pathHash, d, bytes, true) && HoldsPermissions(tree, S)
    requires forall k :: 0 <= k < |d.targetPermissionsModified| ==> d.targetPermissionsModified[k] < |T.names|
    requires PermissionsSet(written, after, T, d.targetPermissionsModified) && t < |T.names|
    ensures AssetPath(T, t) in after
    ensures after[AssetPath(T, t)].permissions == T.permissions[t] <==> (IsDirPath(T.names[t]) ==> CarriesOver(S, T, t))
  {
    hide Completed, SameContents, HoldsPermissions, PathListed, CarriesOver, Setting, ListWritten, VersionShape, Match;
    SettingOf(tree, left, written, S, T, pathHash, d, bytes, true);
    if t in d.targetPermissionsModified {
      var k :| 0 <= k < |d.targetPermissionsModified| && d.targetPermissionsModified[k] == t;
      assert AssetPath(T, d.targetPermissionsModified[k]) in after;
      var s := SameContent(S, T, pathHash, d, t);
      MatchCarriesOver(S, T, pathHash, d, s, t);
    } else {
      TreeOfSetting(S, T, pathHash, d);
      NotListed(T, d.targetPermissionsModified, t);
      WrittenPermissions(tree, left, written, S, T, pathHash, d, bytes, t);
      SameKeys(written, after, T, d.targetPermissionsModified);
    }
  }

  lemma TreeOfSetting(S: VersionIndex, T: VersionIndex, pathHash: string -> nat, d: VersionDiff)
    requires Setting(S, T, pathHash, d)
    ensures IsTreeVersion(T)
  {
  }

  lemma SettingOf(tree: Tree, left: Tree, written: Tree, S: VersionIndex, T: VersionIndex, pathHash: string -> nat,
                  d: VersionDiff, bytes: nat -> seq<byte>, retain: bool)
    requires Completed(tree, left, written, S, T, pathHash, d, bytes, retain)
    ensures Setting(S, T, pathHash, d) && forall k :: 0 <= k < |ToWrite(d)| ==> ToWrite(d)[k] < |T.names|
    ensures ListWritten(left, written, T, ToWrite(d), {}, bytes, retain)
  {
  }

  lemma OneMatch(S: VersionIndex, T: VersionIndex, pathHash: string -> nat, d: VersionDiff, t: nat)
    requires Setting(S, T, pathHash, d)
    ensures forall r: nat, s: nat :: Match(S, T, r, t) && Match(S, T, s, t) ==> r == s
  {
    hide Describes, HashesTell;
    forall r: nat, s: nat | Match(S, T, r, t) && Match(S, T, s, t)
      ensures r == s
    {
      SamePathSameAsset(S, r, s);
    }
  }

  lemma SameContent(S: VersionIndex, T: VersionIndex, pathHash: string -> nat, d: VersionDiff, t: nat) returns (s: nat)
    requires Setting(S, T, pathHash, d) && t < |T.names| && t in d.targetPermissionsModified
    ensures Match(S, T, s, t) && s < |S.contentHashes| && t < |T.contentHashes|
              && S.contentHashes[s] == T.contentHashes[t]
  {
    hide IsTreeVersion;
    var src, dst := Hashes(S, pathHash), Hashes(T, pathHash);
    var k :| 0 <= k < |d.targetPermissionsModified| && d.targetPermissionsModified[k] == t;
    s := d.sourcePermissionsModified[k];
    assert PermissionsDiffer(S, T, src, dst)(s, t);
    SameHashSameName(S, T, pathHash, s, t);
  }

  lemma AllFinalPermissions(tree: Tree, left: Tree, written: Tree, after: Tree, S: VersionIndex, T: VersionIndex,
                            pathHash: string -> nat, d: VersionDiff, bytes: nat -> seq<byte>)
    requires Completed(tree, left, written, S, T, pathHash, d, bytes, true) && HoldsPermissions(tree, S)
    requires forall k :: 0 <= k < |d.targetPermissionsModified| ==> d.targetPermissionsModified[k] < |T.names|
    requires PermissionsSet(written, after, T, d.targetPermissionsModified)
    ensures HoldsPermissions(after, T) <==> PermissionsCarryOver(S, T)
  {
    hide Completed, CarriesOver, PermissionsSet, VersionShape;
    ShapesOf(tree, left, written, S, T, pathHash, d, bytes, true);
    forall t: nat | t < |T.names|
      ensures AssetPath(T, t) in after
      ensures after[AssetPath(T, t)].permissions == T.permissions[t] <==>
                (IsDirPath(T.names[t]) ==> CarriesOver(S, T, t))
    {
      FinalPermissions(tree, left, written, after, S, T, pathHash, d, bytes, t);
    }
  }

  lemma ShapesOf(tree: Tree, left: Tree, written: Tree, S: VersionIndex, T: VersionIndex, pathHash: string -> nat,
                 d: VersionDiff, bytes: nat -> seq<byte>, retain: bool)
    requires Completed(tree, left, written, S, T, pathHash, d, bytes, retain)
    ensures VersionShape(S) && VersionShape(T) && |T.permissions| == |T.names|
  {
    hide Setting, ListWritten;
  }

  lemma HoldsAll(tree: Tree, v: VersionIndex, bytes: nat -> seq<byte>)
    requires VersionShape(v)
    ensures HoldsBut(tree, v, {}, bytes) <==> Holds(tree, v, bytes)
  {
    hide AssetBytes, VersionShape;
  }

  lemma AllThere(tree: Tree, v: VersionIndex, list: seq<nat>, but: set<nat>, bytes: nat -> seq<byte>)
    requires VersionShape(v) && HoldsBut(tree, v, but, bytes) && forall k :: 0 <= k < |list| ==> list[k] < |v.names|
    ensures forall k :: 0 <= k < |list| ==> AssetPath(v, list[k]) in tree
  {
  }

  lemma ModifiedOnce(S: VersionIndex, T: VersionIndex, pathHash: string -> nat, d: VersionDiff)
    requires Setting(S, T, pathHash, d)
    ensures Distinct(d.targetPermissionsModified)
  {
  }

  /** From the written tree to the end, when permissions are retained. */
  lemma AfterPermissions(tree: Tree, left: Tree, written: Tree, after: Tree, S: VersionIndex, T: VersionIndex,
                         pathHash: string -> nat, d: VersionDiff, lost: set<nat>, bytes: nat -> seq<byte>)
    requires VersionShape(S) && VersionShape(T) && HoldsPermissions(tree, S) && HoldsBut(written, T, lost, bytes)
    requires lost == {} ==> Completed(tree, left, written, S, T, pathHash, d, bytes, true)
    requires forall k :: 0 <= k < |d.targetPermissionsModified| ==> d.targetPermissionsModified[k] < |T.names|
    requires PermissionsSet(written, after, T, d.targetPermissionsModified)
    ensures HoldsBut(after, T, lost, bytes)
    ensures lost == {} ==> (HoldsPermissions(after, T) <==> PermissionsCarryOver(S, T))
  {
    hide Completed, HoldsBut, HoldsPermissions, SameContents, PermissionsCarryOver;
    PermissionsKeepContents(written, after, T, lost, bytes);
    if lost == {} {
      AllFinalPermissions(tree, left, written, after, S, T, pathHash, d, bytes);
    }
  }

  // ----- Permissions that are not retained -----

  /** What an update leaves when it does not set permissions: assets of both versions keep
      those they had, but a file whose content was changed is writable; added assets have
      those of new files and directories. */
  ghost predicate PermissionsLeft(tree: Tree, S: VersionIndex, T: VersionIndex)
    requires VersionShape(S) && VersionShape(T)
  {
    forall t: nat :: t < |T.names| ==> AssetPath(T, t) in tree && PermissionLeft(tree[AssetPath(T, t)], S, T, t)
  }

  ghost predicate PermissionLeft(e: Entry, S: VersionIndex, T: VersionIndex, t: nat)
    requires VersionShape(S) && VersionShape(T) && t < |T.names|
  {
    && (forall s: nat :: Match(S, T, s, t) ==>
          e.permissions == if IsDirPath(T.names[t]) || S.contentHashes[s] == T.contentHashes[t] then S.permissions[s]
                           else WithBit(S.permissions[s], USER_WRITE))
    && ((forall s: nat :: !Match(S, T, s, t)) ==>
          e.permissions == if IsDirPath(T.names[t]) then NEW_PERMISSIONS else NEW_FILE_PERMISSIONS)
  }

  /** What was written when permissions are not retained: files are writable, lost ones too. */
  ghost predicate WrittenModes(tree: Tree, left: Tree, written: Tree, S: VersionIndex, T: VersionIndex,
                               pathHash: string -> nat, d: VersionDiff, lost: set<nat>, bytes: nat -> seq<byte>)
    ensures WrittenModes(tree, left, written, S, T, pathHash, d, lost, bytes) ==> VersionShape(S) && VersionShape(T)
  {
    && Setting(S, T, pathHash, d) && Holds(tree, S, bytes) && HoldsPermissions(tree, S)
    && (forall k :: 0 <= k < |d.sourceRemoved| ==> d.sourceRemoved[k] < |S.names|)
    && (forall k :: 0 <= k < |ToWrite(d)| ==> ToWrite(d)[k] < |T.names|)
    && left == WithoutAssets(tree, S, d.sourceRemoved)
    && ListWritten(left, written, T, ToWrite(d), lost, bytes, false) && ModesKept(left, written)
    && (forall t :: t in lost ==>
          && t in ToWrite(d) && t < |T.names| && AssetPath(T, t) in written && written[AssetPath(T, t)].File?
          && !IsDirPath(T.names[t]) && HasBit(written[AssetPath(T, t)].permissions, USER_WRITE))
  }

  lemma WrittenEntry(tree: Tree, left: Tree, written: Tree, S: VersionIndex, T: VersionIndex,
                     pathHash: string -> nat, d: VersionDiff, lost: set<nat>, bytes: nat -> seq<byte>, t: nat)
    requires WrittenModes(tree, left, written, S, T, pathHash, d, lost, bytes) && t < |T.names| && t in ToWrite(d)
    ensures AssetPath(T, t) in written && (written[AssetPath(T, t)].Dir? <==> IsDirPath(T.names[t]))
    ensures !IsDirPath(T.names[t]) ==> HasBit(written[AssetPath(T, t)].permissions, USER_WRITE)
  {
    hide Setting, Holds, HoldsPermissions, ModesKept, WithoutAssets, KeptOthers, PartOf, ToWrite, HasBit, AssetBytes;
    if t !in lost {
      var k :| 0 <= k < |ToWrite(d)| && ToWrite(d)[k] == t;
      assert AssetWritten(written, T, ToWrite(d)[k], bytes, false);
    }
  }

  lemma AddedModes(tree: Tree, left: Tree, written: Tree, S: VersionIndex, T: VersionIndex, pathHash: string -> nat,
                   d: VersionDiff, lost: set<nat>, bytes: nat -> seq<byte>, t: nat)
    requires WrittenModes(tree, left, written, S, T, pathHash, d, lost, bytes) && t < |T.names|
    requires forall s: nat :: !Match(S, T, s, t)
    ensures AssetPath(T, t) in written && PermissionLeft(written[AssetPath(T, t)], S, T, t)
  {
    hide Describes, HashesTell, AssetBytes, WithoutAssets, Rooted, Untouched, IsTreeVersion, HasBit, ListWritten,
         HoldsPermissions;
    var path := AssetPath(T, t);
    TargetAsset(S, T, pathHash, d, t);
    WrittenEntry(tree, left, written, S, T, pathHash, d, lost, bytes, t);
    if path in left {
      var s, t' := LeftAsset(tree, S, T, pathHash, d, path, bytes);
      SamePathSameAsset(T, t, t');
    }
  }

  lemma MatchedModes(tree: Tree, left: Tree, written: Tree, S: VersionIndex, T: VersionIndex, pathHash: string -> nat,
                     d: VersionDiff, lost: set<nat>, bytes: nat -> seq<byte>, s: nat, t: nat)
    requires WrittenModes(tree, left, written, S, T, pathHash, d, lost, bytes) && Match(S, T, s, t)
    ensures AssetPath(T, t) in written && PermissionLeft(written[AssetPath(T, t)], S, T, t)
  {
    hide Describes, HashesTell, AssetBytes, WithoutAssets, Rooted, AssetWritten, HasBit, IsTreeVersion, Match, ToWrite;
    OneMatch(S, T, pathHash, d, t);
    MatchInBounds(S, T, s, t);
    MatchedSurvives(tree, S, T, pathHash, d, s, t, bytes);
    TargetAsset(S, T, pathHash, d, t);
    var path := AssetPath(T, t);
    assert IsAsset(tree[AssetPath(S, s)], S, s, bytes) && tree[AssetPath(S, s)].permissions == S.permissions[s];
    if t in ToWrite(d) {
      ToWriteIs(d, t);
      WrittenEntry(tree, left, written, S, T, pathHash, d, lost, bytes, t);
      if !IsDirPath(T.names[t]) {
        assert written[path].permissions == WithBit(S.permissions[s], USER_WRITE);
      }
    } else {
      ToWriteIs(d, t);
      NotListed(T, ToWrite(d), t);
    }
  }

  lemma MatchInBounds(S: VersionIndex, T: VersionIndex, s: nat, t: nat)
    requires Match(S, T, s, t)
    ensures s < |S.names| && t < |T.names| && S.names[s] == T.names[t] && AssetPath(S, s) == AssetPath(T, t)
  {
  }

  lemma ToWriteIs(d: VersionDiff, t: nat)
    ensures t in ToWrite(d) <==> t in d.targetAdded || t in d.targetContentModified
  {
  }

  /** So the permissions that are left follow from the two versions. */
  lemma WrittenPermissionsLeft(tree: Tree, left: Tree, written: Tree, S: VersionIndex, T: VersionIndex,
                               pathHash: string -> nat, d: VersionDiff, lost: set<nat>, bytes: nat -> seq<byte>)
    requires WrittenModes(tree, left, written, S, T, pathHash, d, lost, bytes)
    ensures PermissionsLeft(written, S, T)
  {
    hide WrittenModes, PermissionLeft, Match, VersionShape;
    forall t: nat | t < |T.names|
      ensures AssetPath(T, t) in written && PermissionLeft(written[AssetPath(T, t)], S, T, t)
    {
      if s: nat :| Match(S, T, s, t) {
        MatchedModes(tree, left, written, S, T, pathHash, d, lost, bytes, s, t);
      } else {
        AddedModes(tree, left, written, S, T, pathHash, d, lost, bytes, t);
      }
    }
  }

  /** Lost assets are files. */
  lemma LostAreFiles(tree: Tree, v: VersionIndex, list: seq<nat>, ix: ContentIndex, blocks: BlockStore, max: nat,
                     lost: set<nat>, bytes: nat -> seq<byte>, retain: bool)
    requires VersionShape(v) && ContentOk(ix) && forall k :: 0 <= k < |list| ==> list[k] < |v.names|
    requires Losses(tree, v, list, ix, blocks, max, lost, bytes, retain)
    ensures forall a :: a in lost ==>
              && a in list && a < |v.names| && !Reliable(v, a, ix, blocks, max)
              && AssetPath(v, a) in tree && tree[AssetPath(v, a)].File? && !IsDirPath(v.names[a])
              && (!retain ==> HasBit(tree[AssetPath(v, a)].permissions, USER_WRITE))
  {
    hide Reliable, Filled, HasBit;
  }

  /** Applies the difference of two versions to the tree of the first, from the blocks of a
      store. Suppose that in the end nothing in the tree is held by others. No error is returned if all
      chunks of the assets to write can be fetched. If no error is returned, the tree ends as
      that of the second version, but for the assets that were lost: there are none if each
      asset to write can be fetched or is written at once. Permissions then end as those of
      the second version exactly if they carry over. If they are not retained, they are left
      as they were, or as those of new entries. */
  method ChangeVersion(store: Storage, content: ContentIndex, blocks: BlockStore, S: VersionIndex, T: VersionIndex,
                       ghost pathHash: string -> nat, d: VersionDiff, workerCount: nat, retain: bool,
                       ghost bytes: nat -> seq<byte>)
    returns (err: Option<Errno>, ghost lost: set<nat>)
    requires ContentOk(content) && Setting(S, T, pathHash, d) && HashesMeanContent(S, T, bytes)
    requires VersionDescribes(T, bytes) && BlocksDescribed(blocks, bytes)
    requires Holds(store.tree, S, bytes) && HoldsPermissions(store.tree, S)
    requires forall k :: 0 <= k < |ToWrite(d)| ==> ToWrite(d)[k] < |T.names|
    modifies store
    ensures store.busy <= old(store.busy)
    ensures store.busy == {} && !(forall k :: 0 <= k < |ToWrite(d)| ==> InContent(T, ToWrite(d)[k], content)) ==>
              err == Some(ENOENT)
    ensures store.busy == {} && AllAvailable(T, ToWrite(d), content, blocks) ==> err == None
    ensures store.busy == {} && err == None ==>
              && HoldsBut(store.tree, T, lost, bytes)
              && forall t :: t in lost ==>
                   t in ToWrite(d) && t < |T.names| && !Reliable(T, t, content, blocks, Assets.MaxReads(workerCount))
    ensures store.busy == {} && err == None
              && AllReliable(T, ToWrite(d), content, blocks, Assets.MaxReads(workerCount)) ==>
              Holds(store.tree, T, bytes) && (retain ==>
                (HoldsPermissions(store.tree, T) <==> PermissionsCarryOver(S, T)))
    ensures store.busy == {} && err == None && !retain ==> PermissionsLeft(store.tree, S, T)
  {
    hide Describes, HashesTell, Holds, HoldsPermissions, PartOf, KeptOthers, AssetWritten, Removable, WithoutAssets,
         PermissionsSet, PermissionsCarryOver, InContent, HashesMeanContent, ToWrite, Match, Rooted, IsTreeVersion,
         VersionDescribes, BlocksDescribed, AllAvailable, HoldsBut, Losses, Reliable, AllReliable, ListWritten,
         Completed, Setting, ModesKept, PermissionsLeft, WrittenModes, HasBit;
    ghost var tree := store.tree;
    lost := {};
    SettingTrees(S, T, pathHash, d);
    TreeIsRooted(tree, S, bytes);
    ListBounds(S, T, pathHash, d);
    ToWriteOk(S, T, pathHash, d);
    ModifiedOnce(S, T, pathHash, d);
    RemovedAreRemovable(tree, S, T, pathHash, d, bytes);
    LeftIsPartOfTarget(tree, S, T, pathHash, d, bytes);
    err := RemoveAssets(store, S, d.sourceRemoved);
    if store.busy == {} {
      NothingHeld(S, d.sourceRemoved);
    }
    if err.Some? {
      return;
    }
    ghost var left := store.tree;
    err, lost := WriteTarget(store, content, blocks, T, ToWrite(d), workerCount, retain, bytes);
    if err.Some? {
      return;
    }
    ghost var written, max := store.tree, Assets.MaxReads(workerCount);
    if store.busy == {} {
      LostAreFiles(written, T, ToWrite(d), content, blocks, max, lost, bytes, retain);
      NoLosses(written, T, ToWrite(d), content, blocks, max, lost, bytes, retain);
      WritesCompleteTarget(tree, left, written, S, T, pathHash, d, lost, bytes, retain);
      AllThere(written, T, d.targetPermissionsModified, lost, bytes);
    }
    if store.busy == {} && !retain {
      IsWrittenModes(tree, left, written, S, T, pathHash, d, content, blocks, max, lost, bytes);
      WrittenPermissionsLeft(tree, left, written, S, T, pathHash, d, lost, bytes);
    }
    if retain {
      err := SetListedPermissions(store, T, d.targetPermissionsModified);
      if store.busy == {} {
        AfterPermissions(tree, left, written, store.tree, S, T, pathHash, d, lost, bytes);
      }
    }
    HoldsAll(store.tree, T, bytes);
  }

  lemma IsWrittenModes(tree: Tree, left: Tree, written: Tree, S: VersionIndex, T: VersionIndex,
                       pathHash: string -> nat, d: VersionDiff, content: ContentIndex, blocks: BlockStore, max: nat,
                       lost: set<nat>, bytes: nat -> seq<byte>)
    requires Setting(S, T, pathHash, d) && Holds(tree, S, bytes) && HoldsPermissions(tree, S) && ContentOk(content)
    requires forall k :: 0 <= k < |d.sourceRemoved| ==> d.sourceRemoved[k] < |S.names|
    requires forall k :: 0 <= k < |ToWrite(d)| ==> ToWrite(d)[k] < |T.names|
    requires left == WithoutAssets(tree, S, d.sourceRemoved) && ModesKept(left, written)
    requires ListWritten(left, written, T, ToWrite(d), lost, bytes, false)
    requires Losses(written, T, ToWrite(d), content, blocks, max, lost, bytes, false)
    ensures WrittenModes(tree, left, written, S, T, pathHash, d, lost, bytes)
  {
    hide Holds, HoldsPermissions, ModesKept, ListWritten, Losses, Setting, WithoutAssets, ToWrite, HasBit,
         VersionShape, Reliable;
    LostAreFiles(written, T, ToWrite(d), content, blocks, max, lost, bytes, false);
  }

  lemma NothingHeld(v: VersionIndex, list: seq<nat>)
    requires forall k :: 0 <= k < |list| ==> list[k] < |v.names|
    ensures !SomeHeld(v, list, {})
  {
  }

  lemma SettingTrees(S: VersionIndex, T: VersionIndex, pathHash: string -> nat, d: VersionDiff)
    requires Setting(S, T, pathHash, d)
    ensures IsTreeVersion(S) && IsTreeVersion(T) && HashesTell(S, T, pathHash)
    ensures Describes(d, S, T, Hashes(S, pathHash), Hashes(T, pathHash))
    ensures VersionShape(S) && VersionShape(T)
  {
  }

  /** There is nothing to apply. */
  predicate IsEmpty(d: VersionDiff, retain: bool) {
    d.sourceRemoved == [] && d.targetAdded == [] && d.targetContentModified == []
    && (d.targetPermissionsModified == [] || !retain)
  }

  /** Without a difference the tree is that of the second version already. */
  lemma EmptyHolds(tree: Tree, S: VersionIndex, T: VersionIndex, pathHash: string -> nat, d: VersionDiff,
                   bytes: nat -> seq<byte>, retain: bool)
    requires Setting(S, T, pathHash, d) && HashesMeanContent(S, T, bytes) && IsEmpty(d, retain)
    requires Holds(tree, S, bytes) && HoldsPermissions(tree, S)
    ensures Holds(tree, T, bytes) && (retain ==> (HoldsPermissions(tree, T) <==> PermissionsCarryOver(S, T)))
    ensures !retain ==> PermissionsLeft(tree, S, T)
  {
    hide Setting, Holds, HoldsPermissions, HashesMeanContent, PermissionsCarryOver, PartOf, HoldsBut, Completed,
         PermissionsSet, KeptOthers, VersionShape, ModesKept, PermissionsLeft;
    assert WithoutAssets(tree, S, []) == tree;
    LeftIsPartOfTarget(tree, S, T, pathHash, d, bytes);
    NothingTouched(tree, T, ToWrite(d));
    WritesCompleteTarget(tree, tree, tree, S, T, pathHash, d, {}, bytes, true);
    HoldsAll(tree, T, bytes);
    if retain {
      NothingSet(tree, T, d.targetPermissionsModified);
      AllFinalPermissions(tree, tree, tree, tree, S, T, pathHash, d, bytes);
    } else {
      SameModes(tree);
      WrittenPermissionsLeft(tree, tree, tree, S, T, pathHash, d, {}, bytes);
    }
  }

  /** Updates a tree from one version to another: the difference, then its application. */
  method UpdateTree(store: Storage, content: ContentIndex, blocks: BlockStore, S: VersionIndex, T: VersionIndex,
                    pathHash: string -> nat, workerCount: nat, retain: bool, ghost bytes: nat -> seq<byte>)
    returns (err: Option<Errno>, d: VersionDiff, ghost lost: set<nat>)
    requires ContentOk(content) && IsTreeVersion(S) && IsTreeVersion(T) && HashesTell(S, T, pathHash)
               && HashesMeanContent(S, T, bytes)
    requires VersionDescribes(T, bytes) && BlocksDescribed(blocks, bytes)
    requires Holds(store.tree, S, bytes) && HoldsPermissions(store.tree, S)
    modifies store
    ensures store.busy <= old(store.busy)
    ensures Setting(S, T, pathHash, d) && forall k :: 0 <= k < |ToWrite(d)| ==> ToWrite(d)[k] < |T.names|
    ensures store.busy == {} && AllAvailable(T, ToWrite(d), content, blocks) ==> err == None
    ensures store.busy == {} && err == None ==>
              && HoldsBut(store.tree, T, lost, bytes)
              && forall t :: t in lost ==>
                   t in ToWrite(d) && t < |T.names| && !Reliable(T, t, content, blocks, Assets.MaxReads(workerCount))
    ensures store.busy == {} && err == None
              && AllReliable(T, ToWrite(d), content, blocks, Assets.MaxReads(workerCount)) ==>
              Holds(store.tree, T, bytes) && (retain ==>
                (HoldsPermissions(store.tree, T) <==> PermissionsCarryOver(S, T)))
    ensures store.busy == {} && err == None && !retain ==> PermissionsLeft(store.tree, S, T)
  {
    hide Holds, HoldsPermissions, HashesMeanContent, InContent, PermissionsCarryOver, Describes, Distinct, ToWrite,
         Available, VersionDescribes, BlocksDescribed, HoldsBut, Reliable, AllReliable, PermissionsLeft;
    PathHashesDiffer(S, pathHash);
    PathHashesDiffer(T, pathHash);
    d := CreateVersionDiff(S, T, pathHash);
    ToWriteOk(S, T, pathHash, d);
    err, lost := ChangeVersion(store, content, blocks, S, T, pathHash, d, workerCount, retain, bytes);
  }

  /** An update that loses permissions: the target adds a directory that nobody may write. */
  lemma AddedDirectoryLosesPermissions(pathHash: string -> nat) returns (S: VersionIndex, T: VersionIndex)
    ensures IsTreeVersion(S) && IsTreeVersion(T) && HashesTell(S, T, pathHash)
    ensures S.names == [] && T.names == ["d/"] && T.permissions == [0] && !PermissionsCarryOver(S, T)
  {
    S := VersionIndex(0, 0, [], [], [], [], [], [], [], [], [], [], []);
    T := VersionIndex(0, 0, ["d/"], [pathHash("d/")], [0], [0], [0], [0], [0], [], [], [], []);
    assert IsDirPath("d/") && Key("d/") == "d" && Parent("d") == [];
    assert AssetPath(T, 0) == "d";
    assert forall s: nat :: !Match(S, T, s, 0);
    assert !CarriesOver(S, T, 0);
  }
}

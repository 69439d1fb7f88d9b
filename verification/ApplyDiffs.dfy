/** Versions as trees of entries, and the first part of applying a version difference
    (src/longtail.c): what the target lacks is removed. */
module ApplyDiffs {
  import opened Prelude
  import opened Indexes
  import opened Storages
  import opened VersionDiffs

  type Tree = map<string, Entry>

  // ----- Versions as trees -----

  /** Marks an asset that was removed; there are fewer assets than this. */
  const GONE: nat := 0xffff_ffff

  /** The path of an entry: not the root, and without a slash at its end. */
  predicate IsPath(p: string) {
    p != [] && !IsDirPath(p)
  }

  /** The path of an asset in a tree. */
  function AssetPath(v: VersionIndex, a: nat): string
    requires a < |v.names|
  {
    Key(v.names[a])
  }

  ghost predicate HasPath(v: VersionIndex, p: string) {
    exists a :: 0 <= a < |v.names| && AssetPath(v, a) == p
  }

  /** The assets have paths of their own, and their parent directories are assets too. */
  ghost predicate IsTreeVersion(v: VersionIndex) {
    && VersionShape(v) && |v.names| < GONE
    && (forall a :: 0 <= a < |v.names| ==> IsPath(AssetPath(v, a)))
    && (forall a, b :: 0 <= a < b < |v.names| ==> AssetPath(v, a) != AssetPath(v, b))
    && (forall a :: 0 <= a < |v.names| && Parent(AssetPath(v, a)) != [] ==>
          exists b :: 0 <= b < |v.names| && v.names[b] == Parent(AssetPath(v, a)) + "/")
  }

  /** The entry is the asset: a directory, or a file with its content. */
  ghost predicate IsAsset(e: Entry, v: VersionIndex, a: nat, bytes: nat -> seq<byte>)
    requires VersionShape(v) && a < |v.names|
  {
    if IsDirPath(v.names[a]) then e.Dir? else e.File? && e.content == AssetBytes(v, bytes, a)
  }

  /** The tree holds the assets of the version and nothing else. */
  ghost predicate Holds(tree: Tree, v: VersionIndex, bytes: nat -> seq<byte>)
    requires VersionShape(v)
  {
    && (forall p :: p in tree ==> HasPath(v, p))
    && forall a :: 0 <= a < |v.names| ==> AssetPath(v, a) in tree && IsAsset(tree[AssetPath(v, a)], v, a, bytes)
  }

  /** The same but for some assets, which are files with any content. */
  ghost predicate HoldsBut(tree: Tree, v: VersionIndex, but: set<nat>, bytes: nat -> seq<byte>)
    requires VersionShape(v)
  {
    && (forall p :: p in tree ==> HasPath(v, p))
    && forall a :: 0 <= a < |v.names| ==>
         && AssetPath(v, a) in tree
         && if a in but then tree[AssetPath(v, a)].File? else IsAsset(tree[AssetPath(v, a)], v, a, bytes)
  }

  ghost predicate HoldsPermissions(tree: Tree, v: VersionIndex)
    requires VersionShape(v)
  {
    forall a :: 0 <= a < |v.names| && AssetPath(v, a) in tree ==> tree[AssetPath(v, a)].permissions == v.permissions[a]
  }

  lemma SlashKey(p: string)
    ensures IsDirPath(p + "/") && Key(p + "/") == p
  {
    assert (p + "/")[..|p|] == p;
  }

  lemma KeyNames(x: string, y: string)
    requires Key(x) == Key(y) && IsDirPath(x) == IsDirPath(y)
    ensures x == y
  {
    if IsDirPath(x) {
      assert x == Key(x) + "/" && y == Key(y) + "/";
    }
  }

  /** The parent of an asset is a directory asset. */
  lemma ParentAsset(v: VersionIndex, a: nat) returns (b: nat)
    requires IsTreeVersion(v) && a < |v.names| && Parent(AssetPath(v, a)) != []
    ensures b < |v.names| && AssetPath(v, b) == Parent(AssetPath(v, a)) && IsDirPath(v.names[b])
    ensures v.names[b] == Parent(AssetPath(v, a)) + "/"
  {
    b :| 0 <= b < |v.names| && v.names[b] == Parent(AssetPath(v, a)) + "/";
    SlashKey(Parent(AssetPath(v, a)));
  }

  /** Names differ, so with hashes that tell the names apart the hashes differ. */
  lemma PathHashesDiffer(v: VersionIndex, pathHash: string -> nat)
    requires IsTreeVersion(v)
    requires forall a, b :: 0 <= a < |v.names| && 0 <= b < |v.names| && pathHash(v.names[a]) == pathHash(v.names[b]) ==>
               v.names[a] == v.names[b]
    ensures Distinct(Hashes(v, pathHash))
  {
    var hs := Hashes(v, pathHash);
    forall a, b | 0 <= a < b < |hs|
      ensures hs[a] != hs[b]
    {
      assert AssetPath(v, a) != AssetPath(v, b);
    }
  }

  lemma VersionShapeOf(v: VersionIndex)
    requires IsTreeVersion(v)
    ensures VersionShape(v)
  {
  }

  lemma PathsDiffer(v: VersionIndex, a: nat, b: nat)
    requires IsTreeVersion(v) && a < |v.names| && b < |v.names| && a != b
    ensures AssetPath(v, a) != AssetPath(v, b)
  {
    assert AssetPath(v, if a < b then a else b) != AssetPath(v, if a < b then b else a);
  }

  /** Path hashes tell apart the names of both versions. */
  ghost predicate HashesTell(S: VersionIndex, T: VersionIndex, pathHash: string -> nat) {
    forall x, y :: (x in S.names || x in T.names) && (y in S.names || y in T.names) && pathHash(x) == pathHash(y) ==>
        x == y
  }

  // ----- Removing -----

  /** One of the listed assets has this path. */
  ghost predicate PathListed(v: VersionIndex, list: seq<nat>, p: string)
    requires forall k :: 0 <= k < |list| ==> list[k] < |v.names|
  {
    exists k :: 0 <= k < |list| && AssetPath(v, list[k]) == p
  }

  lemma ListedSnoc(v: VersionIndex, list: seq<nat>, a: nat, p: string)
    requires a < |v.names| && forall k :: 0 <= k < |list| ==> list[k] < |v.names|
    ensures PathListed(v, list + [a], p) <==> PathListed(v, list, p) || AssetPath(v, a) == p
  {
    var longer := list + [a];
    if i :| 0 <= i < |list| && AssetPath(v, list[i]) == p {
      assert longer[i] == list[i];
    }
    assert longer[|list|] == a;
  }

  /** The tree without the assets of a list. */
  ghost function WithoutAssets(tree: Tree, v: VersionIndex, list: seq<nat>): Tree
    requires forall k :: 0 <= k < |list| ==> list[k] < |v.names|
  {
    map p | p in tree && !PathListed(v, list, p) :: tree[p]
  }

  /** An asset in a removed directory is removed, and before the directory. */
  lemma ChildGoesFirst(S: VersionIndex, T: VersionIndex, pathHash: string -> nat, d: VersionDiff, k: nat, c: nat)
    requires IsTreeVersion(S) && IsTreeVersion(T) && HashesTell(S, T, pathHash)
    requires Describes(d, S, T, Hashes(S, pathHash), Hashes(T, pathHash))
    requires k < |d.sourceRemoved| && c < |S.names| && d.sourceRemoved[k] < |S.names|
    requires IsDirPath(S.names[d.sourceRemoved[k]]) && Parent(AssetPath(S, c)) == AssetPath(S, d.sourceRemoved[k])
    ensures exists i :: 0 <= i < k && d.sourceRemoved[i] == c
  {
    var src, dst, s := Hashes(S, pathHash), Hashes(T, pathHash), d.sourceRemoved[k];
    assert s in d.sourceRemoved;
    ChildIsMissing(S, T, pathHash, s, c);
    assert c in d.sourceRemoved;
    var i :| 0 <= i < |d.sourceRemoved| && d.sourceRemoved[i] == c;
    LongerChild(S.names[c], S.names[s]);
  }

  lemma ChildIsMissing(S: VersionIndex, T: VersionIndex, pathHash: string -> nat, s: nat, c: nat)
    requires IsTreeVersion(S) && IsTreeVersion(T) && HashesTell(S, T, pathHash)
    requires s < |S.names| && c < |S.names| && IsDirPath(S.names[s]) && Parent(AssetPath(S, c)) == AssetPath(S, s)
    requires Hashes(S, pathHash)[s] !in Hashes(T, pathHash)
    ensures Hashes(S, pathHash)[c] !in Hashes(T, pathHash)
  {
    var src, dst := Hashes(S, pathHash), Hashes(T, pathHash);
    if src[c] in dst {
      var t :| 0 <= t < |dst| && dst[t] == src[c];
      assert S.names[c] in S.names && T.names[t] in T.names && pathHash(S.names[c]) == pathHash(T.names[t]);
      var b := ParentAsset(T, t);
      KeyNames(T.names[b], S.names[s]);
      assert false;
    }
  }

  lemma LongerChild(child: string, dir: string)
    requires IsDirPath(dir) && Parent(Key(child)) == Key(dir) && IsPath(Key(dir)) && IsPath(Key(child))
    ensures |child| > |dir|
  {
    var k := Key(child);
    assert k[|Key(dir)|] == '/';
  }

  /** An added directory is listed before what lies in it. */
  lemma DirectoryComesFirst(S: VersionIndex, T: VersionIndex, pathHash: string -> nat, d: VersionDiff, i: nat, j: nat)
    requires IsTreeVersion(T) && VersionShape(S) && VersionShape(T)
    requires Describes(d, S, T, Hashes(S, pathHash), Hashes(T, pathHash))
    requires i < |d.targetAdded| && j < |d.targetAdded|
    requires d.targetAdded[i] < |T.names| && d.targetAdded[j] < |T.names| && IsDirPath(T.names[d.targetAdded[i]])
    requires Parent(AssetPath(T, d.targetAdded[j])) == AssetPath(T, d.targetAdded[i])
    ensures i < j
  {
    LongerChild(T.names[d.targetAdded[j]], T.names[d.targetAdded[i]]);
  }

  /** When a directory is about to be removed, nothing is left in it. */
  lemma EmptyWhenRemoved(tree: Tree, S: VersionIndex, T: VersionIndex, pathHash: string -> nat, d: VersionDiff, k: nat,
                         bytes: nat -> seq<byte>)
    requires IsTreeVersion(S) && IsTreeVersion(T) && HashesTell(S, T, pathHash) && Holds(tree, S, bytes)
    requires Describes(d, S, T, Hashes(S, pathHash), Hashes(T, pathHash))
    requires k < |d.sourceRemoved| && (forall i :: 0 <= i < |d.sourceRemoved| ==> d.sourceRemoved[i] < |S.names|)
    requires IsDirPath(S.names[d.sourceRemoved[k]])
    ensures forall p :: p in WithoutAssets(tree, S, d.sourceRemoved[..k]) ==>
              Parent(p) != AssetPath(S, d.sourceRemoved[k])
  {
    hide Describes, IsTreeVersion, HashesTell;
    forall p | p in tree && Parent(p) == AssetPath(S, d.sourceRemoved[k])
      ensures PathListed(S, d.sourceRemoved[..k], p)
    {
      var c :| 0 <= c < |S.names| && AssetPath(S, c) == p;
      ChildGoesFirst(S, T, pathHash, d, k, c);
      var i :| 0 <= i < k && d.sourceRemoved[i] == c;
      assert d.sourceRemoved[..k][i] == c;
    }
  }

  /** The entry is there, of the kind that the name says. */
  ghost predicate Present(tree: Tree, name: string) {
    Key(name) in tree && (tree[Key(name)].Dir? <==> IsDirPath(name))
  }

  /** Each asset of the list is there, and is empty once those before it are gone. */
  ghost predicate Removable(tree: Tree, v: VersionIndex, list: seq<nat>)
    requires forall k :: 0 <= k < |list| ==> list[k] < |v.names|
  {
    forall k :: 0 <= k < |list| ==>
      && Present(WithoutAssets(tree, v, list[..k]), v.names[list[k]])
      && (IsDirPath(v.names[list[k]]) ==> EmptyIn(WithoutAssets(tree, v, list[..k]), AssetPath(v, list[k])))
  }

  /** At most the permissions of this entry have changed. */
  ghost predicate OnlyItsPermissions(before: Tree, after: Tree, path: string) {
    && path in before && path in after && after == before[path := after[path]]
    && (after[path].Dir? <==> before[path].Dir?)
  }

  datatype Removal = Removed | Absent | Again | Failed(err: Errno)

  /** Makes a directory writable and removes it. */
  method RemoveDirectory(store: Storage, path: string, lastTry: bool) returns (r: Removal)
    requires IsPath(path) && Rooted(store.tree)
    modifies store`tree, store`refusals
    ensures Rooted(store.tree)
    ensures store.refusals == old(store.refusals) + if r.Again? || r.Failed? then 1 else 0
    ensures r == Absent <==> !DirIn(old(store.tree), path)
    ensures r == Absent ==> store.tree == old(store.tree)
    ensures DirIn(old(store.tree), path) && EmptyIn(old(store.tree), path) && path !in store.busy ==>
              r == Removed && store.tree == old(store.tree) - {path}
    ensures DirIn(old(store.tree), path) && (!EmptyIn(old(store.tree), path) || path in store.busy) ==>
              r.Again? != r.Failed? && r.Failed? == lastTry && OnlyItsPermissions(old(store.tree), store.tree, path)
  {
    hide HasBit, WithBit, Rooted, EmptyIn, Parent;
    if !store.IsDir(path) {
      return Absent;
    }
    var permissions := store.GetPermissions(path);
    if !HasBit(permissions.value, USER_WRITE) {
      WritableNow(permissions.value);
      var err := store.SetPermissions(path,
                                      WithBit(WithBit(WithBit(permissions.value, USER_WRITE), GROUP_WRITE),
                                              OTHER_WRITE));
    }
    SameKindsKeep(old(store.tree), store.tree, path);
    if EmptyIn(store.tree, path) {
      RootedWithout(store.tree, path);
    }
    var err := store.RemoveDir(path);
    if err.Some? && store.IsDir(path) {
      return if lastTry then Failed(err.value) else Again;
    }
    r := Removed;
  }

  lemma NoCarry(q: nat, r: nat)
    requires r < 128
    ensures (128 * q + r) / 128 == q
  {
  }

  /** A lower bit does not carry into the write bit of the user. */
  lemma KeepsWritable(permissions: nat, bit: nat)
    requires HasBit(permissions, USER_WRITE) && bit in {GROUP_WRITE, OTHER_WRITE}
    ensures HasBit(WithBit(permissions, bit), USER_WRITE)
  {
    if !HasBit(permissions, bit) {
      var high, low := permissions / bit / 2, permissions % bit;
      var step := 128 / (2 * bit);
      var q, r := high / step, high % step * (2 * bit) + low;
      assert permissions == 128 * q + r && r + bit < 128;
      NoCarry(q, r);
      NoCarry(q, r + bit);
    }
  }

  lemma SetsUserWrite(permissions: nat)
    ensures HasBit(WithBit(permissions, USER_WRITE), USER_WRITE)
  {
  }

  /** Setting more bits keeps the entry writable. */
  lemma WritableNow(permissions: nat)
    ensures HasBit(WithBit(permissions, USER_WRITE), USER_WRITE)
    ensures HasBit(WithBit(WithBit(WithBit(permissions, USER_WRITE), GROUP_WRITE), OTHER_WRITE), USER_WRITE)
  {
    hide HasBit, WithBit;
    SetsUserWrite(permissions);
    KeepsWritable(WithBit(permissions, USER_WRITE), GROUP_WRITE);
    KeepsWritable(WithBit(WithBit(permissions, USER_WRITE), GROUP_WRITE), OTHER_WRITE);
  }

  method RemoveAsset(store: Storage, name: string, lastTry: bool) returns (r: Removal)
    requires IsPath(Key(name)) && Rooted(store.tree)
    modifies store`tree, store`refusals
    ensures Rooted(store.tree)
    ensures store.refusals == old(store.refusals) + if r.Again? || r.Failed? then 1 else 0
    ensures r == Absent <==> !Present(old(store.tree), name)
    ensures r == Absent ==> store.tree == old(store.tree)
    ensures Present(old(store.tree), name) && (IsDirPath(name) ==> EmptyIn(old(store.tree), Key(name)))
              && Key(name) !in store.busy ==>
              r == Removed && store.tree == old(store.tree) - {Key(name)}
    ensures Present(old(store.tree), name)
              && ((IsDirPath(name) && !EmptyIn(old(store.tree), Key(name))) || Key(name) in store.busy) ==>
              && r.Again? != r.Failed? && r.Failed? == lastTry
              && OnlyItsPermissions(old(store.tree), store.tree, Key(name))
  {
    var path := Key(name);
    if IsDirPath(name) {
      r := RemoveDirectory(store, path, lastTry);
      return;
    }
    hide HasBit, WithBit;
    if !store.IsFile(path) {
      return Absent;
    }
    var permissions := store.GetPermissions(path);
    if !HasBit(permissions.value, USER_WRITE) {
      WritableNow(permissions.value);
      var err := store.SetPermissions(path, WithBit(permissions.value, USER_WRITE));
    }
    var err := store.RemoveFile(path);
    if err.Some? && store.IsFile(path) {
      return if lastTry then Failed(err.value) else Again;
    }
    r := Removed;
  }

  // ----- Removing what can be removed, and trying again -----

  /** The path of an asset of the list that is marked as gone. */
  ghost predicate GonePath(v: VersionIndex, list: seq<nat>, indexes: seq<nat>, p: string)
    requires |indexes| == |list| && forall k :: 0 <= k < |list| ==> list[k] < |v.names|
  {
    exists k :: 0 <= k < |list| && indexes[k] == GONE && AssetPath(v, list[k]) == p
  }

  /** What is left once the assets that are marked as gone are removed; the others of the list
      may have got other permissions. */
  ghost predicate LeftOf(tree: Tree, left: Tree, v: VersionIndex, list: seq<nat>, indexes: seq<nat>)
    requires |indexes| == |list| && forall k :: 0 <= k < |list| ==> list[k] < |v.names|
  {
    && (forall p :: p in left <==> p in tree && !GonePath(v, list, indexes, p))
    && (forall p :: p in left ==> (left[p].Dir? <==> tree[p].Dir?))
    && (forall p :: p in left && !PathListed(v, list, p) ==> left[p] == tree[p])
  }

  lemma NothingGone(tree: Tree, v: VersionIndex, list: seq<nat>)
    requires forall k :: 0 <= k < |list| ==> list[k] < |v.names| < GONE
    ensures LeftOf(tree, tree, v, list, list)
  {
  }

  lemma AllGone(tree: Tree, left: Tree, v: VersionIndex, list: seq<nat>, indexes: seq<nat>)
    requires |indexes| == |list| && forall k :: 0 <= k < |list| ==> list[k] < |v.names|
    requires LeftOf(tree, left, v, list, indexes) && forall k :: 0 <= k < |list| ==> indexes[k] == GONE
    ensures left == WithoutAssets(tree, v, list)
  {
    forall p | p in tree
      ensures GonePath(v, list, indexes, p) <==> PathListed(v, list, p)
    {
      if PathListed(v, list, p) {
        var k :| 0 <= k < |list| && AssetPath(v, list[k]) == p;
        assert indexes[k] == GONE;
      }
    }
  }

  lemma NextRemovable(tree: Tree, v: VersionIndex, list: seq<nat>, k: nat)
    requires (forall i :: 0 <= i < |list| ==> list[i] < |v.names|) && k < |list| && Removable(tree, v, list)
    ensures Present(WithoutAssets(tree, v, list[..k]), v.names[list[k]])
    ensures IsDirPath(v.names[list[k]]) ==> EmptyIn(WithoutAssets(tree, v, list[..k]), AssetPath(v, list[k]))
  {
  }

  /** The assets have different paths. */
  lemma RemovableApart(tree: Tree, v: VersionIndex, list: seq<nat>, j: nat, k: nat)
    requires (forall i :: 0 <= i < |list| ==> list[i] < |v.names|) && j < k < |list| && Removable(tree, v, list)
    ensures AssetPath(v, list[j]) != AssetPath(v, list[k])
  {
    hide Removable, Key;
    NextRemovable(tree, v, list, k);
    assert list[..k][j] == list[j];
  }

  lemma NotGoneYet(tree: Tree, v: VersionIndex, list: seq<nat>, indexes: seq<nat>, r: nat)
    requires |indexes| == |list| && (forall k :: 0 <= k < |list| ==> list[k] < |v.names|) && r < |list|
    requires Removable(tree, v, list) && indexes[r] != GONE
    ensures !GonePath(v, list, indexes, AssetPath(v, list[r]))
  {
    hide Removable, Key;
    if k :| 0 <= k < |list| && indexes[k] == GONE && AssetPath(v, list[k]) == AssetPath(v, list[r]) {
      RemovableApart(tree, v, list, if k < r then k else r, if k < r then r else k);
    }
  }

  /** Nothing is left that the removal of the first assets takes away. */
  lemma FirstGone(tree: Tree, left: Tree, v: VersionIndex, list: seq<nat>, indexes: seq<nat>, r: nat)
    requires |indexes| == |list| && (forall k :: 0 <= k < |list| ==> list[k] < |v.names|) && r < |list|
    requires LeftOf(tree, left, v, list, indexes) && forall k :: 0 <= k < r ==> indexes[k] == GONE
    ensures forall p :: p in left ==> p in WithoutAssets(tree, v, list[..r])
  {
    hide Key;
    forall k | 0 <= k < r
      ensures GonePath(v, list, indexes, AssetPath(v, list[..r][k]))
    {
      assert indexes[k] == GONE && list[..r][k] == list[k];
    }
  }

  /** An asset that is not gone is there; once those before it are gone, it is empty. */
  lemma StillRemovable(tree: Tree, left: Tree, v: VersionIndex, list: seq<nat>, indexes: seq<nat>, r: nat)
    requires |indexes| == |list| && (forall k :: 0 <= k < |list| ==> list[k] < |v.names|) && r < |list|
    requires Removable(tree, v, list) && LeftOf(tree, left, v, list, indexes) && indexes[r] != GONE
    ensures Present(left, v.names[list[r]])
    ensures (forall k :: 0 <= k < r ==> indexes[k] == GONE) && IsDirPath(v.names[list[r]]) ==>
              EmptyIn(left, AssetPath(v, list[r]))
  {
    hide Parent, Key, Removable, GonePath, PathListed;
    NextRemovable(tree, v, list, r);
    NotGoneYet(tree, v, list, indexes, r);
    if forall k :: 0 <= k < r ==> indexes[k] == GONE {
      FirstGone(tree, left, v, list, indexes, r);
    }
  }

  lemma LeftWithout(tree: Tree, left: Tree, v: VersionIndex, list: seq<nat>, indexes: seq<nat>, r: nat)
    requires |indexes| == |list| && (forall k :: 0 <= k < |list| ==> list[k] < |v.names|) && r < |list|
    requires LeftOf(tree, left, v, list, indexes)
    ensures LeftOf(tree, left - {AssetPath(v, list[r])}, v, list, indexes[r := GONE])
  {
    hide Key;
    var now := indexes[r := GONE];
    forall p
      ensures GonePath(v, list, now, p) <==> GonePath(v, list, indexes, p) || p == AssetPath(v, list[r])
    {
      if k :| 0 <= k < |list| && indexes[k] == GONE && AssetPath(v, list[k]) == p {
        assert now[k] == GONE;
      }
      if p == AssetPath(v, list[r]) {
        assert now[r] == GONE;
      }
    }
  }

  lemma LeftTouched(tree: Tree, left: Tree, after: Tree, v: VersionIndex, list: seq<nat>, indexes: seq<nat>, r: nat)
    requires |indexes| == |list| && (forall k :: 0 <= k < |list| ==> list[k] < |v.names|) && r < |list|
    requires LeftOf(tree, left, v, list, indexes) && OnlyItsPermissions(left, after, AssetPath(v, list[r]))
    ensures LeftOf(tree, after, v, list, indexes)
  {
    hide Key, GonePath;
    assert PathListed(v, list, AssetPath(v, list[r]));
  }

  /** How many assets are marked as gone. */
  ghost function CountGone(indexes: seq<nat>): (n: nat)
    ensures n <= |indexes|
  {
    if indexes == [] then 0
    else CountGone(indexes[..|indexes| - 1]) + if indexes[|indexes| - 1] == GONE then 1 else 0
  }

  lemma {:induction false} CountGoneAll(indexes: seq<nat>)
    ensures CountGone(indexes) == |indexes| <==> forall k :: 0 <= k < |indexes| ==> indexes[k] == GONE
  {
    if indexes != [] {
      CountGoneAll(indexes[..|indexes| - 1]);
    }
  }

  lemma {:induction false} CountGoneNext(indexes: seq<nat>, r: nat)
    requires r < |indexes| && indexes[r] != GONE
    ensures CountGone(indexes[r := GONE]) == CountGone(indexes) + 1
  {
    var last := |indexes| - 1;
    if r < last {
      CountGoneNext(indexes[..last], r);
      assert indexes[r := GONE][..last] == indexes[..last][r := GONE];
    } else {
      assert indexes[r := GONE][..last] == indexes[..last];
    }
  }

  lemma {:induction false} NoneGone(indexes: seq<nat>)
    requires forall k :: 0 <= k < |indexes| ==> indexes[k] != GONE
    ensures CountGone(indexes) == 0
  {
    if indexes != [] {
      NoneGone(indexes[..|indexes| - 1]);
    }
  }

  /** Something holds on to an asset of the list. */
  ghost predicate SomeHeld(v: VersionIndex, list: seq<nat>, busy: set<string>)
    requires forall k :: 0 <= k < |list| ==> list[k] < |v.names|
  {
    exists k :: 0 <= k < |list| && AssetPath(v, list[k]) in busy
  }

  /** One pass over the assets that are not gone. Others may let go of entries at any time. */
  method RemovePass(store: Storage, v: VersionIndex, list: seq<nat>, indexes: array<nat>, lastTry: bool,
                    ghost tree: Tree) returns (err: Option<Errno>, removed: nat)
    requires IsTreeVersion(v) && (forall k :: 0 <= k < |list| ==> list[k] < |v.names|) && Rooted(store.tree)
    requires indexes.Length == |list| && forall k :: 0 <= k < |list| ==> indexes[k] == GONE || indexes[k] == list[k]
    modifies store, indexes
    ensures Rooted(store.tree) && store.busy <= old(store.busy) && store.refusals >= old(store.refusals)
    ensures forall k :: 0 <= k < |list| ==> indexes[k] == GONE || indexes[k] == list[k]
    ensures err.Some? ==> lastTry
    ensures err.Some? || !(forall k :: 0 <= k < |list| ==> indexes[k] == GONE) ==> store.refusals > old(store.refusals)
    ensures Removable(tree, v, list) && LeftOf(tree, old(store.tree), v, list, old(indexes[..])) ==>
              && LeftOf(tree, store.tree, v, list, indexes[..])
              && CountGone(indexes[..]) == old(CountGone(indexes[..])) + removed
              && (err == None && lastTry ==> forall k :: 0 <= k < |list| ==> indexes[k] == GONE)
              && (err.Some? ==> SomeHeld(v, list, store.busy))
  {
    hide Removable, Present, EmptyIn, Rooted, LeftOf, CountGone, OnlyItsPermissions, Key, IsTreeVersion;
    ghost var good := Removable(tree, v, list) && LeftOf(tree, store.tree, v, list, indexes[..]);
    ghost var before := CountGone(indexes[..]);
    removed := 0;
    for r := 0 to |list|
      invariant Rooted(store.tree) && store.busy <= old(store.busy)
      invariant forall k :: 0 <= k < |list| ==> indexes[k] == GONE || indexes[k] == list[k]
      invariant good ==> LeftOf(tree, store.tree, v, list, indexes[..]) && CountGone(indexes[..]) == before + removed
      invariant good && lastTry ==> forall k :: 0 <= k < r ==> indexes[k] == GONE
      invariant store.refusals >= old(store.refusals)
      invariant store.refusals == old(store.refusals) ==> forall k :: 0 <= k < r ==> indexes[k] == GONE
    {
      var assetIndex := indexes[r];
      if assetIndex == GONE {
        continue;
      }
      ghost var left, marks := store.tree, indexes[..];
      store.LetGo();
      HasItsPath(v, assetIndex);
      var outcome := RemoveAsset(store, v.names[assetIndex], lastTry);
      if good {
        StillRemovable(tree, left, v, list, marks, r);
        LeftWithout(tree, left, v, list, marks, r);
        CountGoneNext(marks, r);
        if outcome.Again? || outcome.Failed? {
          LeftTouched(tree, left, store.tree, v, list, marks, r);
        }
      }
      match outcome
      case Failed(e) => return Some(e), removed;
      case Again =>
      case Absent => indexes[r] := GONE;
      case Removed =>
        indexes[r] := GONE;
        removed := removed + 1;
    }
    err := None;
  }

  lemma HasItsPath(v: VersionIndex, a: nat)
    requires IsTreeVersion(v) && a < |v.names|
    ensures a != GONE && IsPath(AssetPath(v, a))
  {
  }

  /** Removes the listed assets; what could not be removed is tried again, ten times in all.
      If each is there, and empty once those before it are gone, all are removed, unless
      something still holds on to one of them at the last try, after ten refusals. */
  method RemoveAssets(store: Storage, v: VersionIndex, list: seq<nat>) returns (err: Option<Errno>)
    requires IsTreeVersion(v) && (forall k :: 0 <= k < |list| ==> list[k] < |v.names|) && Rooted(store.tree)
    modifies store
    ensures Rooted(store.tree) && store.busy <= old(store.busy)
    ensures Removable(old(store.tree), v, list) && err == None ==>
              store.tree == WithoutAssets(old(store.tree), v, list)
    ensures Removable(old(store.tree), v, list) && err.Some? ==>
              SomeHeld(v, list, store.busy) && store.refusals >= old(store.refusals) + 10
  {
    hide Removable, WithoutAssets, Rooted, LeftOf, CountGone, SomeHeld;
    ghost var tree, good := store.tree, Removable(store.tree, v, list);
    var indexes := new nat[|list|](k requires 0 <= k < |list| => list[k]);
    var retries, done := 10, 0;
    assert indexes[..] == list;
    NothingGone(tree, v, list);
    NoneGone(list);
    while retries > 0 && done < |list|
      invariant retries <= 10 && indexes.Length == |list| && Rooted(store.tree) && store.busy <= old(store.busy)
      invariant forall k :: 0 <= k < |list| ==> indexes[k] == GONE || indexes[k] == list[k]
      invariant good ==> LeftOf(tree, store.tree, v, list, indexes[..]) && done == CountGone(indexes[..])
      invariant good && retries == 0 ==> forall k :: 0 <= k < |list| ==> indexes[k] == GONE
      invariant good && done < |list| ==> store.refusals >= old(store.refusals) + 10 - retries
      decreases retries
    {
      retries := retries - 1;
      var removed;
      err, removed := RemovePass(store, v, list, indexes, retries == 0, tree);
      if err.Some? {
        return;
      }
      done := done + removed;
      CountGoneAll(indexes[..]);
    }
    if good {
      CountGoneAll(indexes[..]);
      AllGone(tree, store.tree, v, list, indexes[..]);
    }
    err := None;
  }

  /** The assets that a difference lists as removed can be removed in this order. */
  lemma RemovedAreRemovable(tree: Tree, S: VersionIndex, T: VersionIndex, pathHash: string -> nat, d: VersionDiff,
                            bytes: nat -> seq<byte>)
    requires IsTreeVersion(S) && IsTreeVersion(T) && HashesTell(S, T, pathHash) && Holds(tree, S, bytes)
    requires Describes(d, S, T, Hashes(S, pathHash), Hashes(T, pathHash))
    requires forall i :: 0 <= i < |d.sourceRemoved| ==> d.sourceRemoved[i] < |S.names|
    ensures Removable(tree, S, d.sourceRemoved)
  {
    hide Describes, IsTreeVersion, HashesTell, WithoutAssets;
    forall k | 0 <= k < |d.sourceRemoved|
      ensures Present(WithoutAssets(tree, S, d.sourceRemoved[..k]), S.names[d.sourceRemoved[k]])
      ensures IsDirPath(S.names[d.sourceRemoved[k]]) ==>
                EmptyIn(WithoutAssets(tree, S, d.sourceRemoved[..k]), AssetPath(S, d.sourceRemoved[k]))
    {
      StillThere(tree, S, T, pathHash, d, k, bytes);
      if IsDirPath(S.names[d.sourceRemoved[k]]) {
        EmptyWhenRemoved(tree, S, T, pathHash, d, k, bytes);
      }
    }
  }

  lemma StillThere(tree: Tree, S: VersionIndex, T: VersionIndex, pathHash: string -> nat, d: VersionDiff, k: nat,
                   bytes: nat -> seq<byte>)
    requires IsTreeVersion(S) && IsTreeVersion(T) && Holds(tree, S, bytes)
    requires Describes(d, S, T, Hashes(S, pathHash), Hashes(T, pathHash))
    requires (forall i :: 0 <= i < |d.sourceRemoved| ==> d.sourceRemoved[i] < |S.names|) && k < |d.sourceRemoved|
    ensures Present(WithoutAssets(tree, S, d.sourceRemoved[..k]), S.names[d.sourceRemoved[k]])
  {
    var s, before := d.sourceRemoved[k], d.sourceRemoved[..k];
    forall i | 0 <= i < k
      ensures AssetPath(S, before[i]) != AssetPath(S, s)
    {
      assert before[i] == d.sourceRemoved[i] != s;
      PathsDiffer(S, before[i], s);
    }
    assert IsAsset(tree[AssetPath(S, s)], S, s, bytes);
  }
}

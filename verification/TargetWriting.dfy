/** Writing the assets of a version from the blocks of a store (src/longtail.c): the jobs
    that write all assets of one block, and the partial writes of the others. */
module TargetWriting {
  import opened Prelude
  import opened LookupTables
  import opened Indexes
  import opened Storages
  import opened ApplyDiffs
  import opened BlockWriting
  import opened WriteLists
  import Assets = AssetWriting
  import MergeContent

  // ----- The way to an asset -----

  lemma AboveName(name: string, p: string)
    requires IsPath(Key(name)) && Above(p, name)
    ensures (p == Key(name) && IsDirPath(name)) || Above(p, Key(name))
  {
    if IsDirPath(name) {
      assert LastSlash(name) == |name| - 1;
    }
  }

  /** Nothing of the other kind is in the way of the asset. */
  ghost predicate Unobstructed(tree: Tree, name: string) {
    && (forall p :: Above(p, Key(name)) && p in tree ==> tree[p].Dir?)
    && (Key(name) in tree ==> (tree[Key(name)].Dir? <==> IsDirPath(name)))
  }

  lemma {:induction false} AboveIsShorter(p: string, path: string)
    requires Above(p, path)
    ensures |p| < |path|
    decreases |path|
  {
    if Parent(path) != p {
      AboveIsShorter(p, Parent(path));
    }
  }

  lemma NotAboveItself(name: string)
    ensures !Above(Key(name), Key(name))
  {
    if Above(Key(name), Key(name)) {
      AboveIsShorter(Key(name), Key(name));
    }
  }

  /** The tree has the old entries and new directories that the name asks for: those above
      it and, for a directory, itself. */
  ghost predicate GrewFor(before: Tree, after: Tree, name: string) {
    && (forall p :: p in before ==> p in after && after[p] == before[p])
    && forall p :: p in after && p !in before ==>
         after[p] == Dir(NEW_PERMISSIONS) && (Above(p, Key(name)) || (p == Key(name) && IsDirPath(name)))
  }

  /** The directories that the name of an asset asks for: those above it and, for a
      directory, itself. */
  method MakeParents(store: Storage, name: string) returns (err: Option<Errno>)
    requires IsPath(Key(name)) && Rooted(store.tree)
    modifies store`tree
    ensures Rooted(store.tree)
    ensures GrewFor(old(store.tree), store.tree, name)
    ensures Unobstructed(old(store.tree), name) ==>
              err == None && DirIn(store.tree, if IsDirPath(name) then Key(name) else Parent(name))
  {
    forall p | Above(p, name)
      ensures (p == Key(name) && IsDirPath(name)) || Above(p, Key(name))
    {
      AboveName(name, p);
    }
    if IsDirPath(name) {
      assert LastSlash(name) == |name| - 1;
    }
    err := EnsureParentPathExists(store, name);
  }

  /** Every entry is an asset of the version, of the right kind. */
  ghost predicate PartOf(tree: Tree, v: VersionIndex) {
    && Rooted(tree) && (forall p :: p in tree ==> HasPath(v, p))
    && forall a :: 0 <= a < |v.names| && AssetPath(v, a) in tree ==>
         (tree[AssetPath(v, a)].Dir? <==> IsDirPath(v.names[a]))
  }

  /** Whatever lies above an asset is a directory asset. */
  lemma {:induction false} AboveIsAsset(v: VersionIndex, a: nat, p: string) returns (b: nat)
    requires IsTreeVersion(v) && a < |v.names| && Above(p, AssetPath(v, a))
    ensures b < |v.names| && AssetPath(v, b) == p && IsDirPath(v.names[b])
    decreases |AssetPath(v, a)|
  {
    b := ParentAsset(v, a);
    if AssetPath(v, b) != p {
      b := AboveIsAsset(v, b, p);
    }
  }

  lemma NothingInTheWay(tree: Tree, v: VersionIndex, a: nat)
    requires IsTreeVersion(v) && a < |v.names| && PartOf(tree, v)
    ensures Unobstructed(tree, v.names[a])
  {
    hide Above, Rooted;
    forall p | Above(p, AssetPath(v, a)) && p in tree
      ensures tree[p].Dir?
    {
      var b := AboveIsAsset(v, a, p);
    }
  }

  // ----- Permissions that are not retained -----

  /** The permissions of an entry that was created, when nobody has set them. */
  function NewPermissions(e: Entry): nat {
    if e.Dir? then NEW_PERMISSIONS else NEW_FILE_PERMISSIONS
  }

  /** Nothing is gone, entries have the permissions they had, except that some may have become
      writable, and new entries have those of new entries. */
  ghost predicate ModesKept(before: Tree, after: Tree) {
    && (forall p :: p in before ==>
          && p in after && (after[p].Dir? <==> before[p].Dir?)
          && (after[p].permissions == before[p].permissions
              || after[p].permissions == WithBit(before[p].permissions, USER_WRITE)))
    && forall p :: p in after && p !in before ==> after[p].permissions == NewPermissions(after[p])
  }

  /** If permissions are not retained. */
  ghost predicate ModesUnless(retain: bool, before: Tree, after: Tree) {
    !retain ==> ModesKept(before, after)
  }

  lemma SameUnless(retain: bool, tree: Tree)
    ensures ModesUnless(retain, tree, tree)
  {
    SameModes(tree);
  }

  lemma ModesGoOn(retain: bool, a: Tree, b: Tree, c: Tree)
    requires ModesUnless(retain, a, b) && ModesUnless(retain, b, c)
    ensures ModesUnless(retain, a, c)
  {
    hide ModesKept;
    if !retain {
      ModesTwice(a, b, c);
    }
  }

  lemma SameModes(tree: Tree)
    ensures ModesKept(tree, tree)
  {
  }

  lemma NewIsWritable()
    ensures HasBit(NEW_PERMISSIONS, USER_WRITE) && HasBit(NEW_FILE_PERMISSIONS, USER_WRITE)
  {
  }

  lemma ModesTwice(a: Tree, b: Tree, c: Tree)
    requires ModesKept(a, b) && ModesKept(b, c)
    ensures ModesKept(a, c)
  {
    hide HasBit;
    NewIsWritable();
    forall p | p in a
      ensures p in c && (c[p].Dir? <==> a[p].Dir?)
      ensures c[p].permissions == a[p].permissions || c[p].permissions == WithBit(a[p].permissions, USER_WRITE)
    {
      WritableNow(a[p].permissions);
    }
  }

  lemma GrewKeepsModes(before: Tree, after: Tree, name: string)
    requires GrewFor(before, after, name)
    ensures ModesKept(before, after)
  {
    hide Above;
  }

  lemma OneModeKept(before: Tree, after: Tree, path: string)
    requires path in before && path in after && after == before[path := after[path]]
    requires after[path].permissions == before[path].permissions && (after[path].Dir? <==> before[path].Dir?)
    ensures ModesKept(before, after)
  {
  }

  // ----- Files that are being written -----

  /** The content has the pieces before pos, and is not longer than all of them. */
  ghost predicate Filled(pieces: seq<seq<byte>>, pos: nat, content: seq<byte>) {
    && pos <= |pieces| && Offset(pieces, pos) <= |content| <= |Flatten(pieces)|
    && content[..Offset(pieces, pos)] == Flatten(pieces[..pos])
  }

  lemma FilledNothing(pieces: seq<seq<byte>>, content: seq<byte>)
    requires |content| <= |Flatten(pieces)|
    ensures Filled(pieces, 0, content)
  {
  }

  lemma FilledWhole(pieces: seq<seq<byte>>, content: seq<byte>)
    requires Filled(pieces, |pieces|, content)
    ensures content == Flatten(pieces)
  {
    OffsetEnds(pieces);
    assert pieces[..|pieces|] == pieces;
    assert content[..|content|] == content;
  }

  lemma FilledNext(pieces: seq<seq<byte>>, pos: nat, to: nat, content: seq<byte>)
    requires Filled(pieces, pos, content) && pos <= to <= |pieces|
    ensures Filled(pieces, to, Overwrite(content, Offset(pieces, pos), Flatten(pieces[pos..to])))
  {
    hide Flatten, Offset;
    PiecesSlice(pieces, pos, to);
    PiecesSlice(pieces, to, |pieces|);
    OffsetEnds(pieces);
    FlattenConcat(pieces[..pos], pieces[pos..to]);
    assert pieces[..to] == pieces[..pos] + pieces[pos..to];
    var data, after := Flatten(pieces[pos..to]), Overwrite(content, Offset(pieces, pos), Flatten(pieces[pos..to]));
    assert Offset(pieces, to) == Offset(pieces, pos) + |data|;
    assert after[..Offset(pieces, to)] == content[..Offset(pieces, pos)] + data;
  }

  lemma FilledLess(pieces: seq<seq<byte>>, pos: nat, to: nat, content: seq<byte>)
    requires Filled(pieces, to, content) && pos <= to
    ensures Filled(pieces, pos, content)
  {
    hide Flatten, Offset;
    OffsetMonotone(pieces, pos, to);
    OffsetEnds(pieces);
    PiecesSlice(pieces, 0, pos);
    PiecesSlice(pieces, 0, to);
    assert pieces[0..pos] == pieces[..pos] && pieces[0..to] == pieces[..to];
    assert content[..Offset(pieces, to)][..Offset(pieces, pos)] == content[..Offset(pieces, pos)];
  }

  /** The entry of an asset of which pos chunks are written. If permissions are retained, it has
      its own once all are; if they are not, it is just writable. */
  ghost predicate WrittenTo(e: Entry, v: VersionIndex, a: nat, pos: nat, bytes: nat -> seq<byte>, retain: bool)
    requires VersionShape(v) && a < |v.names|
  {
    if IsDirPath(v.names[a]) then e.Dir?
    else
      e.File? && Filled(Pieces(v, bytes, a), pos, e.content)
          && (pos == v.assetChunkCounts[a] && retain ==> e.permissions == v.permissions[a])
          && (!retain ==> HasBit(e.permissions, USER_WRITE))
  }

  ghost predicate AssetAt(tree: Tree, v: VersionIndex, a: nat, pos: nat, bytes: nat -> seq<byte>, retain: bool)
    requires VersionShape(v) && a < |v.names|
  {
    AssetPath(v, a) in tree && WrittenTo(tree[AssetPath(v, a)], v, a, pos, bytes, retain)
  }

  /** The asset is there as it should be after a write. */
  ghost predicate AssetWritten(tree: Tree, v: VersionIndex, a: nat, bytes: nat -> seq<byte>, retain: bool)
    requires VersionShape(v) && a < |v.names|
  {
    && AssetPath(v, a) in tree && IsAsset(tree[AssetPath(v, a)], v, a, bytes)
    && (!IsDirPath(v.names[a]) && retain ==> tree[AssetPath(v, a)].permissions == v.permissions[a])
    && (!IsDirPath(v.names[a]) && !retain ==> HasBit(tree[AssetPath(v, a)].permissions, USER_WRITE))
  }

  lemma AllChunksWritten(tree: Tree, v: VersionIndex, a: nat, bytes: nat -> seq<byte>, retain: bool)
    requires VersionShape(v) && a < |v.names| && AssetAt(tree, v, a, v.assetChunkCounts[a], bytes, retain)
    ensures AssetWritten(tree, v, a, bytes, retain)
  {
    hide Filled;
    if !IsDirPath(v.names[a]) {
      FilledWhole(Pieces(v, bytes, a), tree[AssetPath(v, a)].content);
    }
  }

  /** Up to pos chunks of the asset are written; other entries are as before, new ones are
      directories above. */
  ghost predicate Wrote(before: Tree, after: Tree, v: VersionIndex, a: nat, pos: nat, bytes: nat -> seq<byte>,
                        retain: bool)
    requires VersionShape(v) && a < |v.names|
  {
    var path := AssetPath(v, a);
    && OnlyTouched(before, after, path)
    && (forall p :: p in after && p !in before && p != path ==> Above(p, path) && after[p] == Dir(NEW_PERMISSIONS))
    && AssetAt(after, v, a, pos, bytes, retain)
    && (IsDirPath(v.names[a]) ==> after[path] == if path in before then before[path] else Dir(NEW_PERMISSIONS))
  }

  /** Entries other than this one are as before. */
  ghost predicate OnlyTouched(before: Tree, after: Tree, path: string) {
    forall p :: p in before && p != path ==> p in after && after[p] == before[p]
  }

  lemma RootedReplaced(tree: Tree, path: string, e: Entry)
    requires Rooted(tree) && path in tree && tree[path].File? && e.File?
    ensures Rooted(tree[path := e])
  {
    hide Parent;
  }

  /** Makes a file writable if it is there, and opens it. */
  method OpenAssetFile(store: Storage, path: string, size: nat) returns (err: Option<Errno>)
    requires IsPath(path) && Rooted(store.tree)
    modifies store`tree
    ensures Rooted(store.tree) && OnlyTouched(old(store.tree), store.tree, path)
    ensures err == None ==> path in store.tree && store.tree[path].File? && |store.tree[path].content| == size
    ensures err == None ==> store.tree == old(store.tree)[path := store.tree[path]]
    ensures path in old(store.tree) && old(store.tree)[path].Dir? ==> err.Some?
    ensures (path in old(store.tree) ==> old(store.tree)[path].File?) && DirIn(old(store.tree), Parent(path)) ==>
              err == None
    ensures ModesKept(old(store.tree), store.tree)
    ensures err == None ==> HasBit(store.tree[path].permissions, USER_WRITE)
  {
    hide HasBit, WithBit;
    NewIsWritable();
    var permissions := store.GetPermissions(path);
    if permissions.Success? && !HasBit(permissions.value, USER_WRITE) {
      WritableNow(permissions.value);
      err := store.SetPermissions(path, WithBit(permissions.value, USER_WRITE));
    }
    err := store.OpenWriteFile(path, size);
  }

  /** Everything before the first write of an asset that is a file. */
  method BeginFile(store: Storage, v: VersionIndex, a: nat, size: nat) returns (err: Option<Errno>)
    requires VersionShape(v) && a < |v.names| && IsPath(AssetPath(v, a)) && Rooted(store.tree)
    modifies store`tree
    ensures Rooted(store.tree) && OnlyTouched(old(store.tree), store.tree, AssetPath(v, a))
    ensures var path := AssetPath(v, a);
            err == None ==>
              && !IsDirPath(v.names[a]) && path in store.tree && store.tree[path].File?
                   && |store.tree[path].content| == size
              && (forall p :: p in store.tree && p !in old(store.tree) && p != path ==>
                    Above(p, path) && store.tree[p] == Dir(NEW_PERMISSIONS))
              && HasBit(store.tree[path].permissions, USER_WRITE)
    ensures Unobstructed(old(store.tree), v.names[a]) ==> (err == None <==> !IsDirPath(v.names[a]))
    ensures ModesKept(old(store.tree), store.tree)
  {
    hide Above, Parent, Rooted, ModesKept;
    ghost var before := store.tree;
    NotAboveItself(v.names[a]);
    err := MakeParents(store, v.names[a]);
    GrewKeepsModes(before, store.tree, v.names[a]);
    if err.Some? {
      return;
    }
    ghost var middle := store.tree;
    if IsDirPath(v.names[a]) {
      // no file can be opened under a name with a slash behind it
      return Some(EINVAL);
    }
    err := OpenAssetFile(store, AssetPath(v, a), size);
    ModesTwice(before, middle, store.tree);
  }

  /** Writes chunks from the blocks to the open file of an asset; behind the last chunk the
      file is closed and gets its permissions. */
  method WriteOn(store: Storage, v: VersionIndex, a: nat, from: nat, count: nat, blocks: seq<StoredBlock>, retain: bool,
                 ghost bytes: nat -> seq<byte>) returns (err: Option<Errno>)
    requires VersionDescribes(v, bytes) && a < |v.names| && from + count <= v.assetChunkCounts[a] && Rooted(store.tree)
    requires (forall b :: 0 <= b < |blocks| ==> BlockDescribes(blocks[b], bytes)) && ChunkTotal(blocks) < NONE
    requires IsPath(AssetPath(v, a)) && !IsDirPath(v.names[a]) && AssetPath(v, a) in store.tree
               && store.tree[AssetPath(v, a)].File?
    requires Filled(Pieces(v, bytes, a), from, store.tree[AssetPath(v, a)].content)
    requires !retain ==> HasBit(store.tree[AssetPath(v, a)].permissions, USER_WRITE)
    modifies store`tree
    ensures Rooted(store.tree)
    ensures AssetPath(v, a) in store.tree
              && store.tree == old(store.tree)[AssetPath(v, a) := store.tree[AssetPath(v, a)]]
    ensures err == None <==> forall c :: from <= c < from + count ==> InBlocks(HashOf(v, a, c), blocks, |blocks|)
    ensures err == None ==> AssetAt(store.tree, v, a, from + count, bytes, retain)
    ensures err.Some? ==> AssetAt(store.tree, v, a, from, bytes, retain)
    ensures !retain ==> ModesKept(old(store.tree), store.tree)
  {
    hide BlockDescribes, Flatten, Offset, AfterWrite, Rooted, InBlocks, HashOf, Overwrite, Pieces, Filled, StoppedAt,
         HasBit, ModesKept;
    var path := AssetPath(v, a);
    ghost var pieces, before := Pieces(v, bytes, a), store.tree;
    FileReaches(pieces, from, before[path].content);
    PiecesCount(v, bytes, a);
    err := WriteChunks(v, a, from, count, blocks, store, path, bytes);
    if err.Some? {
      StoppedFilled(before, store.tree, v, a, from, count, blocks, bytes);
      RootedReplaced(before, path, store.tree[path]);
      OneModeKept(before, store.tree, path);
      return;
    }
    AfterWriteIs(before, path, Offset(pieces, from), Flatten(pieces[from..from + count]));
    RootedReplaced(before, path, store.tree[path]);
    FilledNext(pieces, from, from + count, before[path].content);
    OneModeKept(before, store.tree, path);
    if from + count == v.assetChunkCounts[a] && retain {
      ghost var middle := store.tree;
      err := store.SetPermissions(path, v.permissions[a]);
      RootedReplaced(middle, path, store.tree[path]);
    }
  }

  /** A write that stops leaves what was written before. */
  lemma StoppedFilled(before: Tree, after: Tree, v: VersionIndex, a: nat, from: nat, count: nat,
                      blocks: seq<StoredBlock>, bytes: nat -> seq<byte>)
    requires VersionShape(v) && a < |v.names| && from + count <= v.assetChunkCounts[a]
    requires AssetPath(v, a) in before && before[AssetPath(v, a)].File?
    requires Offset(Pieces(v, bytes, a), from) <= |before[AssetPath(v, a)].content|
    requires Filled(Pieces(v, bytes, a), from, before[AssetPath(v, a)].content)
    requires StoppedAt(before, after, v, a, from, count, blocks, AssetPath(v, a), bytes)
    ensures AssetPath(v, a) in after && after[AssetPath(v, a)].File?
              && after == before[AssetPath(v, a) := after[AssetPath(v, a)]]
              && after[AssetPath(v, a)].permissions == before[AssetPath(v, a)].permissions
    ensures Filled(Pieces(v, bytes, a), from, after[AssetPath(v, a)].content) && from < v.assetChunkCounts[a]
  {
    hide Flatten, Offset, AfterWrite, InBlocks, HashOf, Overwrite, Pieces, Filled;
    var path, pieces := AssetPath(v, a), Pieces(v, bytes, a);
    PiecesCount(v, bytes, a);
    var c: nat :|
      && from <= c < from + count
      && after == AfterWrite(before, path, Offset(pieces, from), Flatten(pieces[from..c]));
    AfterWriteIs(before, path, Offset(pieces, from), Flatten(pieces[from..c]));
    FilledNext(pieces, from, c, before[path].content);
    FilledLess(pieces, from, c, after[path].content);
  }

  lemma FileReaches(pieces: seq<seq<byte>>, pos: nat, content: seq<byte>)
    requires Filled(pieces, pos, content)
    ensures pos <= |pieces| && Offset(pieces, pos) <= |content|
  {
  }

  lemma PiecesCount(v: VersionIndex, bytes: nat -> seq<byte>, a: nat)
    requires VersionShape(v) && a < |v.assetSizes|
    ensures |Pieces(v, bytes, a)| == v.assetChunkCounts[a]
  {
  }

  lemma AfterWriteIs(tree: Tree, path: string, at: nat, data: seq<byte>)
    requires path in tree && tree[path].File? && at <= |tree[path].content|
    ensures var after := AfterWrite(tree, path, at, data);
            && path in after && after[path] == tree[path].(content := Overwrite(tree[path].content, at, data))
            && after == tree[path := after[path]]
  {
  }

  /** One partial write of an asset that needs more blocks; the first one begins the file, or
      creates the directory. The asset goes from `from` to `from + count` written chunks. */
  method WritePartialAsset(store: Storage, v: VersionIndex, a: nat, from: nat, count: nat, blocks: seq<StoredBlock>,
                           retain: bool, ghost bytes: nat -> seq<byte>) returns (err: Option<Errno>)
    requires VersionDescribes(v, bytes) && a < |v.names| && IsPath(AssetPath(v, a)) && Rooted(store.tree)
    requires from + count <= v.assetChunkCounts[a] && (blocks == [] ==> count == 0)
    requires (forall b :: 0 <= b < |blocks| ==> BlockDescribes(blocks[b], bytes)) && ChunkTotal(blocks) < NONE
    requires from > 0 ==> !IsDirPath(v.names[a]) && AssetAt(store.tree, v, a, from, bytes, retain)
    modifies store`tree
    ensures Rooted(store.tree) && OnlyTouched(old(store.tree), store.tree, AssetPath(v, a))
    ensures err == None ==> if IsDirPath(v.names[a]) then from + count == 0
              else AssetAt(store.tree, v, a, from + count, bytes, retain)
    ensures Unobstructed(old(store.tree), v.names[a]) && err == None ==>
              Wrote(old(store.tree), store.tree, v, a, from + count, bytes, retain)
    ensures Unobstructed(old(store.tree), v.names[a]) ==>
              (err == None <==>
               && (forall c :: from <= c < from + count ==> InBlocks(HashOf(v, a, c), blocks, |blocks|))
               && (IsDirPath(v.names[a]) ==> blocks == []))
    ensures from > 0 && err.Some? ==> Wrote(old(store.tree), store.tree, v, a, from, bytes, retain)
    ensures !retain ==> ModesKept(old(store.tree), store.tree)
  {
    hide BlockDescribes, Above, Parent, Rooted, InBlocks, HashOf, VersionDescribes, Filled, Pieces, HasBit, ModesKept;
    var path := AssetPath(v, a);
    ghost var before := store.tree;
    SameModes(before);
    NotAboveItself(v.names[a]);
    if from == 0 {
      if IsDirPath(v.names[a]) {
        err := WriteDirectory(store, v, a, |blocks| > 0, bytes, retain);
        return;
      }
      err := BeginFile(store, v, a, v.assetSizes[a]);
      if err.Some? {
        return;
      }
      EmptyFits(v, a, v.assetSizes[a], store.tree[path].content, bytes);
    }
    ghost var middle := store.tree;
    err := WriteOn(store, v, a, from, count, blocks, retain, bytes);
    if !retain {
      ModesTwice(before, middle, store.tree);
    }
  }

  /** Creates the directory of an asset; it must not have chunks to read. */
  method WriteDirectory(store: Storage, v: VersionIndex, a: nat, hasBlocks: bool, ghost bytes: nat -> seq<byte>,
                        ghost retain: bool)
    returns (err: Option<Errno>)
    requires VersionShape(v) && a < |v.names| && IsPath(AssetPath(v, a)) && IsDirPath(v.names[a]) && Rooted(store.tree)
    modifies store`tree
    ensures Rooted(store.tree) && OnlyTouched(old(store.tree), store.tree, AssetPath(v, a))
    ensures hasBlocks ==> err.Some?
    ensures Unobstructed(old(store.tree), v.names[a]) && err == None ==>
              forall pos: nat :: Wrote(old(store.tree), store.tree, v, a, pos, bytes, retain)
    ensures Unobstructed(old(store.tree), v.names[a]) ==> (err == None <==> !hasBlocks)
    ensures ModesKept(old(store.tree), store.tree)
  {
    hide Above, Parent, Filled, Pieces, HasBit, ModesKept;
    ghost var before := store.tree;
    err := MakeParents(store, v.names[a]);
    GrewKeepsModes(before, store.tree, v.names[a]);
    if err.Some? {
      return;
    }
    if hasBlocks {
      return Some(EINVAL);
    }
    ghost var middle := store.tree;
    err := SafeCreateDir(store, AssetPath(v, a));
    DirCreated(middle, store.tree, AssetPath(v, a));
    ModesTwice(before, middle, store.tree);
  }

  lemma DirCreated(before: Tree, after: Tree, path: string)
    requires after == before || (path !in before && after == before[path := Dir(NEW_PERMISSIONS)])
    ensures ModesKept(before, after)
  {
  }

  lemma EmptyFits(v: VersionIndex, a: nat, size: nat, content: seq<byte>, bytes: nat -> seq<byte>)
    requires VersionDescribes(v, bytes) && a < |v.names| && |content| == size <= v.assetSizes[a]
    ensures Filled(Pieces(v, bytes, a), 0, content)
  {
    hide Filled;
    FilledNothing(Pieces(v, bytes, a), content);
  }

  /** Writes an asset whose chunks are all in one block. */
  method WriteAssetFromBlock(store: Storage, v: VersionIndex, a: nat, block: StoredBlock, retain: bool,
                             ghost bytes: nat -> seq<byte>)
    returns (err: Option<Errno>)
    requires VersionDescribes(v, bytes) && a < |v.names| && IsPath(AssetPath(v, a)) && Rooted(store.tree)
               && BlockDescribes(block, bytes)
    modifies store`tree
    ensures Rooted(store.tree) && OnlyTouched(old(store.tree), store.tree, AssetPath(v, a))
    ensures Unobstructed(old(store.tree), v.names[a]) && err == None ==>
              Wrote(old(store.tree), store.tree, v, a, v.assetChunkCounts[a], bytes, retain)
    ensures Unobstructed(old(store.tree), v.names[a]) ==>
              (err == None <==>
               !IsDirPath(v.names[a]) && forall c :: 0 <= c < v.assetChunkCounts[a] ==>
               HashOf(v, a, c) in block.chunkHashes)
    ensures !retain ==> ModesKept(old(store.tree), store.tree)
  {
    hide Above, Parent, Rooted, HashOf, VersionDescribes, Filled, Pieces, ChunkTotal, BlockDescribes, HasBit,
         ModesKept;
    ghost var before := store.tree;
    NotAboveItself(v.names[a]);
    OneBlock(block, bytes);
    err := BeginFile(store, v, a, 0);
    if err.Some? {
      return;
    }
    EmptyFits(v, a, 0, store.tree[AssetPath(v, a)].content, bytes);
    ghost var middle := store.tree;
    err := WriteOn(store, v, a, 0, v.assetChunkCounts[a], [block], retain, bytes);
    if !retain {
      ModesTwice(before, middle, store.tree);
    }
  }

  lemma OneBlock(block: StoredBlock, bytes: nat -> seq<byte>)
    requires BlockDescribes(block, bytes)
    ensures ChunkTotal([block]) < NONE && forall h :: InBlocks(h, [block], 1) <==> h in block.chunkHashes
  {
    assert [block][..0] == [];
    forall h
      ensures InBlocks(h, [block], 1) <==> h in block.chunkHashes
    {
      assert [block][0] == block;
    }
  }

  // ----- What a write of several assets keeps -----

  /** Entries that are not in the list stay as they were. */
  ghost predicate Untouched(before: Tree, after: Tree, v: VersionIndex, list: seq<nat>)
    requires forall k :: 0 <= k < |list| ==> list[k] < |v.names|
  {
    forall p :: p in before && !PathListed(v, list, p) ==> p in after && after[p] == before[p]
  }

  /** So do directories; new directories have the permissions of new directories. */
  ghost predicate KeptOthers(before: Tree, after: Tree, v: VersionIndex, list: seq<nat>)
    requires forall k :: 0 <= k < |list| ==> list[k] < |v.names|
  {
    && Untouched(before, after, v, list)
    && (forall p :: p in before && before[p].Dir? ==> p in after && after[p] == before[p])
    && (forall p :: p in after && p !in before && after[p].Dir? ==> after[p] == Dir(NEW_PERMISSIONS))
  }

  lemma NothingTouched(tree: Tree, v: VersionIndex, list: seq<nat>)
    requires forall k :: 0 <= k < |list| ==> list[k] < |v.names|
    ensures KeptOthers(tree, tree, v, list)
  {
  }

  lemma NotListed(v: VersionIndex, list: seq<nat>, a: nat)
    requires IsTreeVersion(v) && a < |v.names| && a !in list && forall k :: 0 <= k < |list| ==> list[k] < |v.names|
    ensures !PathListed(v, list, AssetPath(v, a))
  {
    forall k | 0 <= k < |list|
      ensures AssetPath(v, list[k]) != AssetPath(v, a)
    {
      assert list[k] in list;
      PathsDiffer(v, list[k], a);
    }
  }

  /** An asset that is not in the list stays as far as it was written. */
  lemma StaysAt(before: Tree, after: Tree, v: VersionIndex, list: seq<nat>, a: nat, pos: nat, bytes: nat -> seq<byte>,
                retain: bool)
    requires IsTreeVersion(v) && a < |v.names| && a !in list && forall k :: 0 <= k < |list| ==> list[k] < |v.names|
    requires Untouched(before, after, v, list) && AssetAt(before, v, a, pos, bytes, retain)
    ensures AssetAt(after, v, a, pos, bytes, retain)
  {
    hide WrittenTo, PathListed, IsTreeVersion;
    NotListed(v, list, a);
  }

  lemma ListedIn(v: VersionIndex, part: seq<nat>, list: seq<nat>, p: string)
    requires (forall k :: 0 <= k < |list| ==> list[k] < |v.names|) && (forall k :: 0 <= k < |part| ==> part[k] in list)
    requires (forall k :: 0 <= k < |part| ==> part[k] < |v.names|) && PathListed(v, part, p)
    ensures PathListed(v, list, p)
  {
    var k :| 0 <= k < |part| && AssetPath(v, part[k]) == p;
    var i :| 0 <= i < |list| && list[i] == part[k];
  }

  lemma UntouchedTwice(a: Tree, b: Tree, c: Tree, v: VersionIndex, list: seq<nat>, part: seq<nat>)
    requires (forall k :: 0 <= k < |list| ==> list[k] < |v.names|) && forall k :: 0 <= k < |part| ==>
               part[k] < |v.names|
    requires (forall k :: 0 <= k < |part| ==> part[k] in list) && Untouched(a, b, v, list) && Untouched(b, c, v, part)
    ensures Untouched(a, c, v, list)
  {
    hide PathListed;
    forall p | p in a && !PathListed(v, list, p)
      ensures p in c && c[p] == a[p]
    {
      if PathListed(v, part, p) {
        ListedIn(v, part, list, p);
      }
    }
  }

  lemma KeptTwice(a: Tree, b: Tree, c: Tree, v: VersionIndex, list: seq<nat>, part: seq<nat>)
    requires (forall k :: 0 <= k < |list| ==> list[k] < |v.names|) && forall k :: 0 <= k < |part| ==>
               part[k] < |v.names|
    requires forall k :: 0 <= k < |part| ==> part[k] in list
    requires VersionShape(v) && PartOf(b, v) && PartOf(c, v) && KeptOthers(a, b, v, list) && KeptOthers(b, c, v, part)
    ensures KeptOthers(a, c, v, list)
  {
    hide PathListed, Untouched, Rooted;
    UntouchedTwice(a, b, c, v, list, part);
    forall p | p in c && p !in a && c[p].Dir?
      ensures c[p] == Dir(NEW_PERMISSIONS)
    {
      if p in b {
        var asset :| 0 <= asset < |v.names| && AssetPath(v, asset) == p;
      }
    }
  }

  lemma WroteKeepsPartOf(before: Tree, after: Tree, v: VersionIndex, a: nat, pos: nat, bytes: nat -> seq<byte>,
                         retain: bool)
    requires IsTreeVersion(v) && a < |v.names| && PartOf(before, v) && Wrote(before, after, v, a, pos, bytes, retain)
               && Rooted(after)
    ensures PartOf(after, v)
  {
    hide Above, Rooted, Filled, Pieces, IsTreeVersion, VersionShape;
    VersionShapeOf(v);
    forall p | p in after
      ensures HasPath(v, p)
    {
      if p !in before && p != AssetPath(v, a) {
        var b := AboveIsAsset(v, a, p);
      }
    }
    forall c | 0 <= c < |v.names| && AssetPath(v, c) in after
      ensures after[AssetPath(v, c)].Dir? <==> IsDirPath(v.names[c])
    {
      if c != a {
        PathsDiffer(v, a, c);
        if AssetPath(v, c) !in before {
          var b := AboveIsAsset(v, a, AssetPath(v, c));
          if b != c {
            PathsDiffer(v, b, c);
          }
        }
      }
    }
  }

  lemma WroteKeepsOthers(before: Tree, after: Tree, v: VersionIndex, a: nat, pos: nat, bytes: nat -> seq<byte>,
                         retain: bool)
    requires IsTreeVersion(v) && a < |v.names| && PartOf(before, v) && Wrote(before, after, v, a, pos, bytes, retain)
    ensures KeptOthers(before, after, v, [a])
  {
    hide Above, Rooted, Filled, Pieces;
    OneTouched(before, after, v, a);
  }

  lemma OneTouched(before: Tree, after: Tree, v: VersionIndex, a: nat)
    requires a < |v.names| && OnlyTouched(before, after, AssetPath(v, a))
    ensures Untouched(before, after, v, [a])
  {
    assert AssetPath(v, [a][0]) == AssetPath(v, a);
  }

  /** What has come of a write so far: the tree is part of the version, other entries are as
      before, and these assets are complete. */
  ghost predicate Underway(start: Tree, tree: Tree, v: VersionIndex, list: seq<nat>, written: set<nat>,
                           bytes: nat -> seq<byte>, retain: bool)
    requires VersionShape(v) && forall k :: 0 <= k < |list| ==> list[k] < |v.names|
  {
    && PartOf(tree, v) && KeptOthers(start, tree, v, list)
    && forall a :: a in written ==> a < |v.names| && AssetAt(tree, v, a, v.assetChunkCounts[a], bytes, retain)
  }

  lemma GoesOn(start: Tree, before: Tree, after: Tree, v: VersionIndex, list: seq<nat>, part: seq<nat>,
               written: set<nat>, more: set<nat>, bytes: nat -> seq<byte>, retain: bool)
    requires IsTreeVersion(v) && forall k :: 0 <= k < |list| ==> list[k] < |v.names|
    requires forall k :: 0 <= k < |part| ==>
               part[k] < |v.names| && part[k] in list && (part[k] in written ==> part[k] in more)
    requires Underway(start, before, v, list, written, bytes, retain) && PartOf(after, v)
               && KeptOthers(before, after, v, part)
    requires forall a :: a in more ==> a < |v.names| && AssetAt(after, v, a, v.assetChunkCounts[a], bytes, retain)
    ensures Underway(start, after, v, list, written + more, bytes, retain)
  {
    hide PartOf, AssetAt, IsTreeVersion, Untouched;
    VersionShapeOf(v);
    KeptTwice(start, before, after, v, list, part);
    forall a | a in written && a !in more
      ensures AssetAt(after, v, a, v.assetChunkCounts[a], bytes, retain)
    {
      StaysAt(before, after, v, part, a, v.assetChunkCounts[a], bytes, retain);
    }
  }

  // ----- The jobs -----

  /** The block that the index names for the chunk is in the store and has it. */
  ghost predicate Fetchable(ix: ContentIndex, blocks: BlockStore, h: nat)
    requires ContentOk(ix)
  {
    var b := BlockHashOf(ix, h);
    b.Some? && b.value in blocks && h in blocks[b.value].chunkHashes
  }

  /** All chunks of the asset can be fetched; a directory has none. */
  ghost predicate Available(v: VersionIndex, a: nat, ix: ContentIndex, blocks: BlockStore)
    requires VersionShape(v) && a < |v.names| && ContentOk(ix)
  {
    && (IsDirPath(v.names[a]) ==> v.assetChunkCounts[a] == 0)
    && forall c :: 0 <= c < v.assetChunkCounts[a] ==> Fetchable(ix, blocks, HashOf(v, a, c))
  }

  /** One job writes the whole asset: all chunks are in one block, or in no more blocks than a
      partial write reads. */
  ghost predicate WrittenAtOnce(v: VersionIndex, a: nat, ix: ContentIndex, max: nat)
    requires VersionShape(v) && a < |v.names| && ContentOk(ix)
  {
    SingleBlock(v, a, ix) || Assets.Gather(AssetBlocks(v, a, ix), 0, max, []).end == v.assetChunkCounts[a]
  }

  /** If the asset cannot be written, that is reported; or it can be written. */
  ghost predicate Reliable(v: VersionIndex, a: nat, ix: ContentIndex, blocks: BlockStore, max: nat)
    requires VersionShape(v) && a < |v.names| && ContentOk(ix)
  {
    Available(v, a, ix, blocks) || WrittenAtOnce(v, a, ix, max)
  }

  ghost predicate AllReliable(v: VersionIndex, list: seq<nat>, ix: ContentIndex, blocks: BlockStore, max: nat)
    requires VersionShape(v) && ContentOk(ix) && forall k :: 0 <= k < |list| ==> list[k] < |v.names|
  {
    forall k :: 0 <= k < |list| ==> Reliable(v, list[k], ix, blocks, max)
  }

  /** The blocks with these hashes, or an error if one is not there. */
  method FetchBlocks(blocks: BlockStore, hashes: seq<nat>) returns (r: Result<seq<StoredBlock>>)
    ensures r.Success? <==> forall d :: 0 <= d < |hashes| ==> hashes[d] in blocks
    ensures r.Success? ==> |r.value| == |hashes| && forall d :: 0 <= d < |hashes| ==>
              hashes[d] in blocks && r.value[d] == blocks[hashes[d]]
    ensures r.Failure? ==> r == Failure(ENOENT)
  {
    var fetched := [];
    for d := 0 to |hashes|
      invariant |fetched| == d && forall i :: 0 <= i < d ==> hashes[i] in blocks && fetched[i] == blocks[hashes[i]]
    {
      if hashes[d] !in blocks {
        return Failure(ENOENT);
      }
      fetched := fetched + [blocks[hashes[d]]];
    }
    r := Success(fetched);
  }

  /** Looks up the block of every chunk of an asset. */
  method ChunkBlocks(v: VersionIndex, a: nat, table: LookupTable, ix: ContentIndex) returns (hashes: seq<nat>)
    requires VersionShape(v) && a < |v.names| && ContentOk(ix) && FindsBlocks(table, ix) && InContent(v, a, ix)
    ensures hashes == AssetBlocks(v, a, ix)
    ensures forall c :: 0 <= c < |hashes| ==> Some(hashes[c]) == BlockHashOf(ix, HashOf(v, a, c))
  {
    hide LookupTable.Valid, FirstMatch, Lookup;
    hashes := [];
    for c := 0 to v.assetChunkCounts[a]
      invariant |hashes| == c && forall i :: 0 <= i < c ==> Some(hashes[i]) == BlockHashOf(ix, HashOf(v, a, i))
    {
      LookupPresent(ix.chunkHashes, ix.chunkBlockIndexes, HashOf(v, a, c));
      LookupIsBlock(ix, HashOf(v, a, c));
      var block := table.Get(ChunkHash(v, a, c));
      hashes := hashes + [ix.blockHashes[block.value]];
    }
  }

  lemma LookupIsBlock(ix: ContentIndex, h: nat)
    requires ContentOk(ix)
    ensures var block := Lookup(ix.chunkHashes, ix.chunkBlockIndexes, h);
            && (block.None? <==> BlockHashOf(ix, h).None?)
            && (block.Some? ==>
                  block.value < |ix.blockHashes| && BlockHashOf(ix, h) == Some(ix.blockHashes[block.value]))
  {
    FirstMatchNone(ix.chunkHashes, h);
  }

  lemma {:induction false} TotalBound(blocks: seq<StoredBlock>, bytes: nat -> seq<byte>)
    requires forall b :: 0 <= b < |blocks| ==> BlockDescribes(blocks[b], bytes)
    ensures ChunkTotal(blocks) <= |blocks| * MAX_COUNT
  {
    if blocks != [] {
      TotalBound(blocks[..|blocks| - 1], bytes);
    }
  }

  /** The next partial write of an asset: its blocks are gathered and fetched, and its chunks
      are written. */
  method NextPartialWrite(store: Storage, v: VersionIndex, a: nat, at: nat, ix: ContentIndex, table: LookupTable,
                          blocks: BlockStore, max: nat, retain: bool, ghost bytes: nat -> seq<byte>)
    returns (err: Option<Errno>, end: nat)
    requires VersionDescribes(v, bytes) && a < |v.names| && IsPath(AssetPath(v, a)) && at <= v.assetChunkCounts[a]
    requires Rooted(store.tree) && (at > 0 ==> !IsDirPath(v.names[a]) && AssetAt(store.tree, v, a, at, bytes, retain))
    requires ContentOk(ix) && FindsBlocks(table, ix) && InContent(v, a, ix) && BlocksDescribed(blocks, bytes)
    requires 0 < max <= Assets.MAX_BLOCKS_PER_PARTIAL_ASSET_WRITE
    modifies store`tree
    ensures Rooted(store.tree) && OnlyTouched(old(store.tree), store.tree, AssetPath(v, a))
    ensures at <= end <= v.assetChunkCounts[a] && (at < v.assetChunkCounts[a] ==> at < end)
    ensures err == None ==> if IsDirPath(v.names[a]) then end == 0 else AssetAt(store.tree, v, a, end, bytes, retain)
    ensures Unobstructed(old(store.tree), v.names[a]) && err == None ==>
              Wrote(old(store.tree), store.tree, v, a, end, bytes, retain)
    ensures Unobstructed(old(store.tree), v.names[a]) && Available(v, a, ix, blocks) ==> err == None
    ensures end == Assets.Gather(AssetBlocks(v, a, ix), at, max, []).end
    ensures at > 0 && err.Some? ==> Wrote(old(store.tree), store.tree, v, a, at, bytes, retain)
    ensures !retain ==> ModesKept(old(store.tree), store.tree)
  {
    hide ModesKept, Above, Rooted, Unobstructed, Wrote, AssetAt, FindsBlocks, Available, VersionDescribes,
         Assets.Gather, BlockDescribes, ChunkTotal, InContent, OnlyTouched, AssetBlocks;
    var hashes := ChunkBlocks(v, a, table, ix);
    var readers := new nat[Assets.MAX_BLOCKS_PER_PARTIAL_ASSET_WRITE];
    var count;
    end, count := Assets.GatherBlocks(hashes, at, max, readers);
    ghost var batch := Assets.Gather(hashes, at, max, []);
    assert batch.readers == readers[..count] && batch.end == end;
    var fetched := FetchBlocks(blocks, readers[..count]);
    GatheredAvailable(v, a, at, ix, blocks, hashes, max);
    if at < |hashes| {
      Assets.BatchReads(hashes, at, max);
    }
    if fetched.Failure? {
      SameModes(store.tree);
      NothingTouchedAt(store.tree, AssetPath(v, a));
      if at > 0 {
        NothingWrote(store.tree, v, a, at, bytes, retain);
      }
      return Some(fetched.errno), end;
    }
    TotalBound(fetched.value, bytes);
    MulMonotone(|fetched.value|, Assets.MAX_BLOCKS_PER_PARTIAL_ASSET_WRITE, MAX_COUNT);
    err := WritePartialAsset(store, v, a, at, end - at, fetched.value, retain, bytes);
    if Available(v, a, ix, blocks) {
      GatheredIn(v, a, at, ix, blocks, hashes, max, fetched.value);
    }
  }

  lemma NothingTouchedAt(tree: Tree, path: string)
    ensures OnlyTouched(tree, tree, path)
  {
  }

  lemma NothingWrote(tree: Tree, v: VersionIndex, a: nat, at: nat, bytes: nat -> seq<byte>, retain: bool)
    requires VersionShape(v) && a < |v.names| && !IsDirPath(v.names[a]) && AssetAt(tree, v, a, at, bytes, retain)
    ensures Wrote(tree, tree, v, a, at, bytes, retain)
  {
    hide AssetAt;
  }

  /** If the asset is available, the blocks of a batch are in the store, and hold the chunks. */
  lemma GatheredAvailable(v: VersionIndex, a: nat, at: nat, ix: ContentIndex, blocks: BlockStore, hashes: seq<nat>,
                          max: nat)
    requires VersionShape(v) && a < |v.names| && ContentOk(ix) && at <= |hashes| == v.assetChunkCounts[a]
    requires forall c :: 0 <= c < |hashes| ==> Some(hashes[c]) == BlockHashOf(ix, HashOf(v, a, c))
    ensures Available(v, a, ix, blocks) ==> forall h :: h in Assets.Gather(hashes, at, max, []).readers ==> h in blocks
    ensures Available(v, a, ix, blocks) && IsDirPath(v.names[a]) ==> Assets.Gather(hashes, at, max, []).readers == []
  {
    hide BlockHashOf;
    if Available(v, a, ix, blocks) {
      forall h | h in Assets.Gather(hashes, at, max, []).readers
        ensures h in blocks
      {
        var c := Assets.ReaderOfChunk(hashes, at, max, [], h);
        assert Fetchable(ix, blocks, HashOf(v, a, c));
      }
    }
  }

  lemma GatheredIn(v: VersionIndex, a: nat, at: nat, ix: ContentIndex, blocks: BlockStore, hashes: seq<nat>, max: nat,
                   fetched: seq<StoredBlock>)
    requires VersionShape(v) && a < |v.names| && ContentOk(ix) && at <= |hashes| == v.assetChunkCounts[a]
    requires forall c :: 0 <= c < |hashes| ==> Some(hashes[c]) == BlockHashOf(ix, HashOf(v, a, c))
    requires Available(v, a, ix, blocks)
    requires var readers := Assets.Gather(hashes, at, max, []).readers;
             |fetched| == |readers| && forall d :: 0 <= d < |fetched| ==>
                 readers[d] in blocks && fetched[d] == blocks[readers[d]]
    ensures forall c :: at <= c < Assets.Gather(hashes, at, max, []).end ==>
              InBlocks(HashOf(v, a, c), fetched, |fetched|)
  {
    hide BlockHashOf, Assets.Gather;
    forall c | at <= c < Assets.Gather(hashes, at, max, []).end
      ensures InBlocks(HashOf(v, a, c), fetched, |fetched|)
    {
      Assets.GatherCovers(hashes, at, max, [], c);
      var readers := Assets.Gather(hashes, at, max, []).readers;
      var d :| 0 <= d < |readers| && readers[d] == hashes[c];
      assert Fetchable(ix, blocks, HashOf(v, a, c));
      assert fetched[d] == blocks[hashes[c]];
    }
  }

  /** The block has all chunks of the assets, and none of them is a directory. */
  ghost predicate BlockServes(v: VersionIndex, assets: seq<nat>, block: StoredBlock)
    requires VersionShape(v) && forall k :: 0 <= k < |assets| ==> assets[k] < |v.names|
  {
    forall k :: 0 <= k < |assets| ==>
      && !IsDirPath(v.names[assets[k]])
      && forall c :: 0 <= c < v.assetChunkCounts[assets[k]] ==> HashOf(v, assets[k], c) in block.chunkHashes
  }

  /** Writes the assets of one block, one after the other. */
  method WriteAssetsFromBlock(store: Storage, v: VersionIndex, assets: seq<nat>, block: StoredBlock, retain: bool,
                              ghost bytes: nat -> seq<byte>) returns (err: Option<Errno>)
    requires VersionDescribes(v, bytes) && IsTreeVersion(v) && Distinct(assets) && forall k :: 0 <= k < |assets| ==>
               assets[k] < |v.names|
    requires Rooted(store.tree) && BlockDescribes(block, bytes)
    modifies store`tree
    ensures Rooted(store.tree) && Untouched(old(store.tree), store.tree, v, assets)
    ensures PartOf(old(store.tree), v) && err == None ==>
              && PartOf(store.tree, v) && KeptOthers(old(store.tree), store.tree, v, assets)
              && forall a :: a in assets ==> AssetAt(store.tree, v, a, v.assetChunkCounts[a], bytes, retain)
    ensures PartOf(old(store.tree), v) && BlockServes(v, assets, block) ==> err == None
    ensures !retain ==> ModesKept(old(store.tree), store.tree)
  {
    hide ModesKept, PartOf, Untouched, AssetAt, Rooted, KeptOthers, VersionDescribes, BlockDescribes, OnlyTouched,
         Wrote, Unobstructed, Distinct, BlockServes;
    ghost var start := store.tree;
    NothingTouched(start, v, assets);
    SameModes(start);
    VersionShapeOf(v);
    KeptIsUntouched(start, start, v, assets);
    for k := 0 to |assets|
      invariant Rooted(store.tree) && Untouched(start, store.tree, v, assets)
      invariant !retain ==> ModesKept(start, store.tree)
      invariant PartOf(start, v) ==> Underway(start, store.tree, v, assets, Elems(assets[..k]), bytes, retain)
    {
      ghost var before := store.tree;
      var a := assets[k];
      PathOf(v, a);
      if PartOf(start, v) {
        NothingInTheWay(before, v, a);
      }
      err := WriteAssetFromBlock(store, v, a, block, retain, bytes);
      if !retain {
        ModesTwice(start, before, store.tree);
      }
      OneTouched(before, store.tree, v, a);
      UntouchedTwice(start, before, store.tree, v, assets, [a]);
      if err.Some? {
        ServesOne(v, assets, block, k);
        return;
      }
      if PartOf(start, v) {
        WroteWhole(start, before, store.tree, v, assets, a, Elems(assets[..k]), bytes, retain);
        assert assets[..k + 1] == assets[..k] + [a];
        ElemsSnoc(assets[..k], a);
      }
    }
    assert assets[..|assets|] == assets;
    err := None;
  }

  lemma KeptIsUntouched(before: Tree, after: Tree, v: VersionIndex, list: seq<nat>)
    requires (forall k :: 0 <= k < |list| ==> list[k] < |v.names|) && KeptOthers(before, after, v, list)
    ensures Untouched(before, after, v, list)
  {
  }

  lemma PathOf(v: VersionIndex, a: nat)
    requires IsTreeVersion(v) && a < |v.names|
    ensures IsPath(AssetPath(v, a))
  {
  }

  lemma ServesOne(v: VersionIndex, assets: seq<nat>, block: StoredBlock, k: nat)
    requires VersionShape(v) && k < |assets| && forall i :: 0 <= i < |assets| ==> assets[i] < |v.names|
    ensures BlockServes(v, assets, block) ==>
              !IsDirPath(v.names[assets[k]]) && forall c :: 0 <= c < v.assetChunkCounts[assets[k]] ==>
                  HashOf(v, assets[k], c) in block.chunkHashes
  {
  }

  /** An asset is complete, the others go on as they were. */
  lemma WroteWhole(start: Tree, before: Tree, after: Tree, v: VersionIndex, list: seq<nat>, a: nat, written: set<nat>,
                   bytes: nat -> seq<byte>, retain: bool)
    requires IsTreeVersion(v) && (forall k :: 0 <= k < |list| ==> list[k] < |v.names|) && a in list && a < |v.names|
    requires Underway(start, before, v, list, written, bytes, retain) && Rooted(after)
    requires Wrote(before, after, v, a, v.assetChunkCounts[a], bytes, retain)
    ensures Underway(start, after, v, list, written + {a}, bytes, retain)
  {
    hide PartOf, AssetAt, IsTreeVersion, Rooted, KeptOthers;
    VersionShapeOf(v);
    WroteKeepsPartOf(before, after, v, a, v.assetChunkCounts[a], bytes, retain);
    WroteKeepsOthers(before, after, v, a, v.assetChunkCounts[a], bytes, retain);
    GoesOn(start, before, after, v, list, [a], written, {a}, bytes, retain);
  }

  /** A part of an asset is written, the others go on as they were. */
  lemma WrotePart(start: Tree, before: Tree, after: Tree, v: VersionIndex, list: seq<nat>, a: nat, pos: nat,
                  written: set<nat>, bytes: nat -> seq<byte>, retain: bool)
    requires IsTreeVersion(v) && (forall k :: 0 <= k < |list| ==> list[k] < |v.names|) && a in list && a < |v.names|
               && a !in written
    requires Underway(start, before, v, list, written, bytes, retain) && Rooted(after)
    requires Wrote(before, after, v, a, pos, bytes, retain)
    ensures Underway(start, after, v, list, written, bytes, retain)
  {
    hide PartOf, AssetAt, IsTreeVersion, Rooted, KeptOthers;
    VersionShapeOf(v);
    WroteKeepsPartOf(before, after, v, a, pos, bytes, retain);
    WroteKeepsOthers(before, after, v, a, pos, bytes, retain);
    GoesOn(start, before, after, v, list, [a], written, {}, bytes, retain);
    assert written + {} == written;
  }

  // ----- All jobs of a write -----

  /** The setting of a write: which assets of the list are written how, from which blocks. */
  ghost predicate WriteSetting(v: VersionIndex, list: seq<nat>, blockJobs: seq<nat>, assetJobs: seq<nat>,
                               ix: ContentIndex, blocks: BlockStore, bytes: nat -> seq<byte>)
    ensures WriteSetting(v, list, blockJobs, assetJobs, ix, blocks, bytes) ==>
              VersionShape(v) && ContentOk(ix) && forall k :: 0 <= k < |list| ==> list[k] < |v.names|
  {
    && VersionDescribes(v, bytes) && IsTreeVersion(v) && ContentOk(ix) && BlocksDescribed(blocks, bytes)
    && (forall k :: 0 <= k < |list| ==> list[k] < |v.names| && InContent(v, list[k], ix))
    && SplitsInto(list, blockJobs, assetJobs, v, ix)
  }

  /** All assets of the list are available. */
  ghost predicate AllAvailable(v: VersionIndex, list: seq<nat>, ix: ContentIndex, blocks: BlockStore)
    requires VersionShape(v) && ContentOk(ix) && forall k :: 0 <= k < |list| ==> list[k] < |v.names|
  {
    forall k :: 0 <= k < |list| ==> Available(v, list[k], ix, blocks)
  }

  /** The assets of a job. */
  function JobAssets(blockJobs: seq<nat>, job: BlockJob): (r: seq<nat>)
    ensures forall a :: a in r ==> a in blockJobs
    ensures forall k ::
              && job.first <= k < job.first + job.count && k < |blockJobs|
              && job.first + job.count <= |blockJobs| ==>
                blockJobs[k] in r
  {
    if job.first + job.count <= |blockJobs| then
      var r := blockJobs[job.first..job.first + job.count];
      assert forall k :: job.first <= k < job.first + job.count ==> r[k - job.first] == blockJobs[k];
      r
    else []
  }

  /** What the lists say about the assets of a job: they are different assets of the list. */
  lemma JobAssetsOk(v: VersionIndex, list: seq<nat>, blockJobs: seq<nat>, assetJobs: seq<nat>, ix: ContentIndex,
                    blocks: BlockStore, jobs: seq<BlockJob>, i: nat, bytes: nat -> seq<byte>)
    requires WriteSetting(v, list, blockJobs, assetJobs, ix, blocks, bytes)
    requires TakesRuns(jobs, BlocksOfList(v, ix, blockJobs)) && i < |jobs|
    ensures var assets := JobAssets(blockJobs, jobs[i]);
            && Distinct(assets) && assets != [] && jobs[i].block < |ix.blockHashes|
            && forall k :: 0 <= k < |assets| ==> assets[k] < |v.names| && assets[k] in list && assets[k] !in assetJobs
  {
    hide VersionDescribes, IsTreeVersion, BlocksDescribed, SingleBlock, InContent, Lookup, BlockHashOf;
    var assets, first := JobAssets(blockJobs, jobs[i]), jobs[i].first;
    JobAsset(v, list, blockJobs, assetJobs, ix, jobs, i, first);
    forall k | 0 <= k < |assets|
      ensures assets[k] < |v.names| && assets[k] in list && assets[k] !in assetJobs
    {
      JobAsset(v, list, blockJobs, assetJobs, ix, jobs, i, first + k);
    }
  }

  /** If the assets of the list are available, the block of the job has all their chunks. */
  lemma JobIsServed(v: VersionIndex, list: seq<nat>, blockJobs: seq<nat>, assetJobs: seq<nat>, ix: ContentIndex,
                    blocks: BlockStore, jobs: seq<BlockJob>, i: nat, bytes: nat -> seq<byte>)
    requires WriteSetting(v, list, blockJobs, assetJobs, ix, blocks, bytes) && AllAvailable(v, list, ix, blocks)
    requires TakesRuns(jobs, BlocksOfList(v, ix, blockJobs)) && i < |jobs|
    ensures var assets := JobAssets(blockJobs, jobs[i]);
            && jobs[i].block < |ix.blockHashes| && ix.blockHashes[jobs[i].block] in blocks
            && (forall k :: 0 <= k < |assets| ==> assets[k] < |v.names|)
            && BlockServes(v, assets, blocks[ix.blockHashes[jobs[i].block]])
  {
    hide WriteSetting, AllAvailable, TakesRuns, JobAssets, BlocksOfList;
    JobAssetsOk(v, list, blockJobs, assetJobs, ix, blocks, jobs, i, bytes);
    var assets, h := JobAssets(blockJobs, jobs[i]), ix.blockHashes[jobs[i].block];
    AssetIsServed(v, list, blockJobs, assetJobs, ix, blocks, jobs, i, 0, bytes);
    forall k | 0 <= k < |assets|
      ensures h in blocks && !IsDirPath(v.names[assets[k]])
      ensures forall c :: 0 <= c < v.assetChunkCounts[assets[k]] ==> HashOf(v, assets[k], c) in blocks[h].chunkHashes
    {
      AssetIsServed(v, list, blockJobs, assetJobs, ix, blocks, jobs, i, k, bytes);
    }
  }

  lemma AssetIsServed(v: VersionIndex, list: seq<nat>, blockJobs: seq<nat>, assetJobs: seq<nat>, ix: ContentIndex,
                      blocks: BlockStore, jobs: seq<BlockJob>, i: nat, k: nat, bytes: nat -> seq<byte>)
    requires WriteSetting(v, list, blockJobs, assetJobs, ix, blocks, bytes) && AllAvailable(v, list, ix, blocks)
    requires TakesRuns(jobs, BlocksOfList(v, ix, blockJobs)) && i < |jobs| && k < |JobAssets(blockJobs, jobs[i])|
    ensures var a := JobAssets(blockJobs, jobs[i])[k];
            && jobs[i].block < |ix.blockHashes| && ix.blockHashes[jobs[i].block] in blocks && a < |v.names|
                 && !IsDirPath(v.names[a])
            && forall c :: 0 <= c < v.assetChunkCounts[a] ==>
                 HashOf(v, a, c) in blocks[ix.blockHashes[jobs[i].block]].chunkHashes
  {
    hide VersionDescribes, IsTreeVersion, BlocksDescribed, SingleBlock, InContent, Lookup, BlockHashOf, TakesRuns,
         SplitsInto, JobAssets, BlocksOfList;
    EntryOfJob(v, ix, blockJobs, jobs, i, k);
    JobAsset(v, list, blockJobs, assetJobs, ix, jobs, i, jobs[i].first + k);
    var a := JobAssets(blockJobs, jobs[i])[k];
    var n :| 0 <= n < |list| && list[n] == a;
    assert Available(v, list[n], ix, blocks);
    assert forall c :: 0 <= c < v.assetChunkCounts[a] ==> Fetchable(ix, blocks, HashOf(v, a, c));
    assert Fetchable(ix, blocks, HashOf(v, a, 0));
  }

  lemma {:induction false} EntryOfJob(v: VersionIndex, ix: ContentIndex, blockJobs: seq<nat>, jobs: seq<BlockJob>,
                                      i: nat, k: nat)
    requires TakesRuns(jobs, BlocksOfList(v, ix, blockJobs)) && i < |jobs| && k < |JobAssets(blockJobs, jobs[i])|
    ensures jobs[i].first + k < |blockJobs| && k < jobs[i].count
              && JobAssets(blockJobs, jobs[i])[k] == blockJobs[jobs[i].first + k]
  {
    hide FirstBlock;
  }

  lemma JobAsset(v: VersionIndex, list: seq<nat>, blockJobs: seq<nat>, assetJobs: seq<nat>, ix: ContentIndex,
                 jobs: seq<BlockJob>, i: nat, k: nat)
    requires VersionShape(v) && ContentOk(ix) && forall n :: 0 <= n < |list| ==>
               list[n] < |v.names| && InContent(v, list[n], ix)
    requires SplitsInto(list, blockJobs, assetJobs, v, ix) && TakesRuns(jobs, BlocksOfList(v, ix, blockJobs))
    requires i < |jobs| && jobs[i].first <= k < jobs[i].first + jobs[i].count
    ensures k < |blockJobs| && blockJobs[k] < |v.names| && blockJobs[k] in list && blockJobs[k] !in assetJobs
    ensures jobs[i].block < |ix.blockHashes| && v.assetChunkCounts[blockJobs[k]] > 0
    ensures forall c :: 0 <= c < v.assetChunkCounts[blockJobs[k]] ==>
              BlockHashOf(ix, HashOf(v, blockJobs[k], c)) == Some(ix.blockHashes[jobs[i].block])
  {
    hide Lookup, BlockHashOf, TakesRuns, InContent;
    JobBlockHoldsAsset(v, ix, list, blockJobs, assetJobs, jobs, i, k, 0);
    var a := blockJobs[k];
    assert a in blockJobs && SingleBlock(v, a, ix);
    forall c | 0 <= c < v.assetChunkCounts[a]
      ensures jobs[i].block < |ix.blockHashes|
                && BlockHashOf(ix, HashOf(v, a, c)) == Some(ix.blockHashes[jobs[i].block])
    {
      JobBlockHoldsAsset(v, ix, list, blockJobs, assetJobs, jobs, i, k, c);
      LookupIsBlock(ix, HashOf(v, a, c));
    }
    assert HasChunk(v, a, 0);
  }

  /** Reads the block of a job and writes its assets. */
  method RunBlockJob(store: Storage, v: VersionIndex, assets: seq<nat>, blockHash: nat, blocks: BlockStore,
                     retain: bool, ghost start: Tree, ghost list: seq<nat>, ghost written: set<nat>,
                     ghost bytes: nat -> seq<byte>)
    returns (err: Option<Errno>)
    requires VersionDescribes(v, bytes) && IsTreeVersion(v) && BlocksDescribed(blocks, bytes) && Rooted(store.tree)
    requires forall k :: 0 <= k < |list| ==> list[k] < |v.names|
    requires Distinct(assets) && forall k :: 0 <= k < |assets| ==> assets[k] < |v.names| && assets[k] in list
    modifies store`tree
    ensures Rooted(store.tree) && Untouched(old(store.tree), store.tree, v, assets)
    ensures Underway(start, old(store.tree), v, list, written, bytes, retain) && err == None ==>
              Underway(start, store.tree, v, list, written + Elems(assets), bytes, retain)
    ensures Underway(start, old(store.tree), v, list, written, bytes, retain) && blockHash in blocks
              && BlockServes(v, assets, blocks[blockHash]) ==>
              err == None
    ensures !retain ==> ModesKept(old(store.tree), store.tree)
  {
    hide ModesKept, PartOf, Untouched, AssetAt, Rooted, KeptOthers, VersionDescribes, BlockDescribes, Distinct,
         BlockServes, IsTreeVersion;
    ghost var before := store.tree;
    NothingTouched(before, v, assets);
    SameModes(before);
    KeptIsUntouched(before, before, v, assets);
    if blockHash !in blocks {
      return Some(ENOENT);
    }
    err := WriteAssetsFromBlock(store, v, assets, blocks[blockHash], retain, bytes);
    if err == None && Underway(start, before, v, list, written, bytes, retain) {
      GoesOn(start, before, store.tree, v, list, assets, written, Elems(assets), bytes, retain);
    }
  }

  ghost predicate NoErrors(errs: seq<Option<Errno>>) {
    forall e :: 0 <= e < |errs| ==> errs[e] == None
  }

  /** The assets that still need partial writes are there as far as they were written. */
  ghost predicate Waiting(tree: Tree, v: VersionIndex, assetJobs: seq<nat>, at: seq<nat>, pending: set<nat>,
                          bytes: nat -> seq<byte>, retain: bool)
    requires VersionShape(v)
  {
    |at| == |assetJobs| &&
    forall j :: j in pending ==>
      && 0 <= j < |assetJobs| && assetJobs[j] < |v.names| && at[j] <= v.assetChunkCounts[assetJobs[j]]
      && (at[j] > 0 ==> !IsDirPath(v.names[assetJobs[j]]) && AssetAt(tree, v, assetJobs[j], at[j], bytes, retain))
  }

  lemma WaitingStays(before: Tree, after: Tree, v: VersionIndex, assetJobs: seq<nat>, at: seq<nat>, pending: set<nat>,
                     part: seq<nat>, bytes: nat -> seq<byte>, retain: bool)
    requires IsTreeVersion(v) && forall k :: 0 <= k < |part| ==> part[k] < |v.names| && part[k] !in assetJobs
    requires Untouched(before, after, v, part) && Waiting(before, v, assetJobs, at, pending, bytes, retain)
    ensures Waiting(after, v, assetJobs, at, pending, bytes, retain)
  {
    hide AssetAt, IsTreeVersion, Untouched;
    VersionShapeOf(v);
    forall j | j in pending && at[j] > 0
      ensures AssetAt(after, v, assetJobs[j], at[j], bytes, retain)
    {
      assert assetJobs[j] in assetJobs;
      StaysAt(before, after, v, part, assetJobs[j], at[j], bytes, retain);
    }
  }

  /** A partial write leaves the other waiting assets as they are. */
  lemma WaitingGoesOn(before: Tree, after: Tree, v: VersionIndex, assetJobs: seq<nat>, at: seq<nat>, pending: set<nat>,
                      j: nat, end: nat, bytes: nat -> seq<byte>, retain: bool)
    requires IsTreeVersion(v) && Distinct(assetJobs) && j < |assetJobs| && assetJobs[j] < |v.names| && j !in pending
    requires OnlyTouched(before, after, AssetPath(v, assetJobs[j]))
               && Waiting(before, v, assetJobs, at, pending + {j}, bytes, retain)
    ensures Waiting(after, v, assetJobs, at, pending, bytes, retain)
    ensures end <= v.assetChunkCounts[assetJobs[j]]
            && (if IsDirPath(v.names[assetJobs[j]]) then end == 0
                else AssetAt(after, v, assetJobs[j], end, bytes, retain)) ==>
              Waiting(after, v, assetJobs, at[j := end], pending + {j}, bytes, retain)
  {
    hide AssetAt, IsTreeVersion, Untouched, OnlyTouched;
    VersionShapeOf(v);
    OneTouched(before, after, v, assetJobs[j]);
    forall i | i in pending && at[i] > 0
      ensures AssetAt(after, v, assetJobs[i], at[i], bytes, retain)
    {
      assert i in pending + {j};
      assert assetJobs[if i < j then i else j] != assetJobs[if i < j then j else i];
      StaysAt(before, after, v, [assetJobs[j]], assetJobs[i], at[i], bytes, retain);
    }
  }

  /** The assets of these jobs. */
  ghost function AssetsOf(assetJobs: seq<nat>, js: set<nat>): set<nat> {
    set j | j in js && 0 <= j < |assetJobs| :: assetJobs[j]
  }

  /** Jobs that are not pending have written their assets; waiting assets are not written. */
  ghost predicate Accounted(written: set<nat>, blockJobs: seq<nat>, jobs: seq<BlockJob>, pendingBlocks: set<nat>,
                            assetJobs: seq<nat>, pendingAssets: set<nat>)
  {
    && (forall i, a :: 0 <= i < |jobs| && i !in pendingBlocks && a in JobAssets(blockJobs, jobs[i]) ==> a in written)
    && (forall j :: 0 <= j < |assetJobs| ==> (assetJobs[j] in written <==> j !in pendingAssets))
  }

  lemma BlockAccounted(written: set<nat>, blockJobs: seq<nat>, jobs: seq<BlockJob>, pendingBlocks: set<nat>,
                       assetJobs: seq<nat>, pendingAssets: set<nat>, i: nat)
    requires Accounted(written, blockJobs, jobs, pendingBlocks, assetJobs, pendingAssets) && i < |jobs|
    requires forall a :: a in JobAssets(blockJobs, jobs[i]) ==> a !in assetJobs
    ensures Accounted(written + Elems(JobAssets(blockJobs, jobs[i])), blockJobs, jobs, pendingBlocks - {i}, assetJobs,
                      pendingAssets)
  {
    hide JobAssets;
  }

  lemma AssetAccounted(written: set<nat>, blockJobs: seq<nat>, jobs: seq<BlockJob>, pendingBlocks: set<nat>,
                       assetJobs: seq<nat>, pendingAssets: set<nat>, j: nat)
    requires Accounted(written, blockJobs, jobs, pendingBlocks, assetJobs, pendingAssets) && j < |assetJobs|
               && Distinct(assetJobs)
    ensures Accounted(written + {assetJobs[j]}, blockJobs, jobs, pendingBlocks, assetJobs, pendingAssets - {j})
  {
    hide JobAssets;
    forall i | 0 <= i < |assetJobs| && i != j
      ensures assetJobs[i] != assetJobs[j]
    {
      assert assetJobs[if i < j then i else j] != assetJobs[if i < j then j else i];
    }
  }

  /** When no job is pending, everything is written but for what was lost. */
  lemma AllAccounted(written: set<nat>, lost: set<nat>, v: VersionIndex, list: seq<nat>, ix: ContentIndex,
                     blockJobs: seq<nat>, jobs: seq<BlockJob>, assetJobs: seq<nat>)
    requires VersionShape(v) && ContentOk(ix) && forall k :: 0 <= k < |list| ==> list[k] < |v.names|
    requires SplitsInto(list, blockJobs, assetJobs, v, ix) && Accounted(written, blockJobs, jobs, {}, assetJobs, lost)
    requires TakesRuns(jobs, BlocksOfList(v, ix, blockJobs)) && End(jobs) == |blockJobs|
    ensures forall a :: a in list && a !in AssetsOf(assetJobs, lost) ==> a in written
  {
    hide SingleBlock, JobAssets, BlocksOfList;
    forall a | a in list && a !in AssetsOf(assetJobs, lost)
      ensures a in written
    {
      var n :| 0 <= n < |list| && list[n] == a;
      if a in blockJobs {
        var k :| 0 <= k < |blockJobs| && blockJobs[k] == a;
        var i := EntryHasJob(jobs, BlocksOfList(v, ix, blockJobs), k);
        assert a in JobAssets(blockJobs, jobs[i]);
      } else {
        var j :| 0 <= j < |assetJobs| && assetJobs[j] == a;
        assert j !in lost;
      }
    }
  }

  lemma NothingAccounted(blockJobs: seq<nat>, jobs: seq<BlockJob>, assetJobs: seq<nat>)
    ensures Accounted({}, blockJobs, jobs, UpTo(|jobs|), assetJobs, UpTo(|assetJobs|))
  {
  }

  ghost function ChunkCounts(v: VersionIndex, assets: seq<nat>): (counts: seq<nat>)
    ensures |counts| == |assets|
    ensures forall j :: 0 <= j < |assets| && assets[j] < |v.assetChunkCounts| ==>
              counts[j] == v.assetChunkCounts[assets[j]]
  {
    seq(|assets|, j requires 0 <= j < |assets| => if assets[j] < |v.assetChunkCounts| then v.assetChunkCounts[assets[j]]
        else 0)
  }

  /** How many chunks are still to be written. */
  ghost function Remaining(counts: seq<nat>, at: seq<nat>): nat
    requires |counts| == |at|
  {
    if counts == [] then 0
    else
      var last := |counts| - 1;
      Remaining(counts[..last], at[..last]) + if at[last] < counts[last] then counts[last] - at[last] else 0
  }

  lemma {:induction false} RemainingLess(counts: seq<nat>, at: seq<nat>, j: nat, end: nat)
    requires |counts| == |at| && j < |at| && at[j] < end <= counts[j]
    ensures Remaining(counts, at[j := end]) < Remaining(counts, at)
  {
    var last := |counts| - 1;
    if j < last {
      RemainingLess(counts[..last], at[..last], j, end);
      assert at[j := end][..last] == at[..last][j := end];
    } else {
      assert at[j := end][..last] == at[..last];
    }
  }

  lemma NothingUnderway(tree: Tree, v: VersionIndex, list: seq<nat>, bytes: nat -> seq<byte>, retain: bool)
    requires VersionShape(v) && forall k :: 0 <= k < |list| ==> list[k] < |v.names|
    ensures PartOf(tree, v) ==> Underway(tree, tree, v, list, {}, bytes, retain)
  {
    NothingTouched(tree, v, list);
  }

  lemma SettingParts(v: VersionIndex, list: seq<nat>, blockJobs: seq<nat>, assetJobs: seq<nat>, ix: ContentIndex,
                     blocks: BlockStore, bytes: nat -> seq<byte>)
    requires WriteSetting(v, list, blockJobs, assetJobs, ix, blocks, bytes)
    ensures VersionDescribes(v, bytes) && IsTreeVersion(v) && BlocksDescribed(blocks, bytes)
              && SplitsInto(list, blockJobs, assetJobs, v, ix)
    ensures Distinct(assetJobs)
    ensures forall j :: 0 <= j < |assetJobs| ==>
              assetJobs[j] < |v.names| && assetJobs[j] in list && IsPath(AssetPath(v, assetJobs[j]))
                  && InContent(v, assetJobs[j], ix)
  {
    hide VersionDescribes, BlocksDescribed, InContent, SingleBlock;
    forall j | 0 <= j < |assetJobs|
      ensures assetJobs[j] < |v.names| && assetJobs[j] in list && InContent(v, assetJobs[j], ix)
    {
      assert assetJobs[j] in assetJobs;
      var n :| 0 <= n < |list| && list[n] == assetJobs[j];
    }
  }

  lemma AvailableIn(v: VersionIndex, list: seq<nat>, ix: ContentIndex, blocks: BlockStore, a: nat)
    requires VersionShape(v) && ContentOk(ix) && forall k :: 0 <= k < |list| ==> list[k] < |v.names|
    requires AllAvailable(v, list, ix, blocks) && a in list
    ensures a < |v.names| && Available(v, a, ix, blocks)
  {
  }

  /** The jobs that need more than one partial write. */
  ghost function SeveralWrites(v: VersionIndex, assetJobs: seq<nat>, ix: ContentIndex, max: nat): set<nat>
    requires VersionShape(v) && ContentOk(ix) && forall j :: 0 <= j < |assetJobs| ==> assetJobs[j] < |v.names|
  {
    set j | 0 <= j < |assetJobs|
            && Assets.Gather(AssetBlocks(v, assetJobs[j], ix), 0, max, []).end < v.assetChunkCounts[assetJobs[j]]
  }

  /** The jobs of which all chunks can be fetched. */
  ghost function ServedJobs(v: VersionIndex, assetJobs: seq<nat>, ix: ContentIndex, blocks: BlockStore): set<nat>
    requires VersionShape(v) && ContentOk(ix) && forall j :: 0 <= j < |assetJobs| ==> assetJobs[j] < |v.names|
  {
    set j | 0 <= j < |assetJobs| && Available(v, assetJobs[j], ix, blocks)
  }

  ghost predicate Measured(v: VersionIndex, assetJobs: seq<nat>, ix: ContentIndex, blocks: BlockStore, max: nat,
                           several: set<nat>, served: set<nat>) {
    && VersionShape(v) && ContentOk(ix) && (forall j :: 0 <= j < |assetJobs| ==> assetJobs[j] < |v.names|)
    && several == SeveralWrites(v, assetJobs, ix, max) && served == ServedJobs(v, assetJobs, ix, blocks)
  }

  lemma MeasuredAt(v: VersionIndex, assetJobs: seq<nat>, ix: ContentIndex, blocks: BlockStore, max: nat,
                   several: set<nat>, served: set<nat>, j: nat)
    requires Measured(v, assetJobs, ix, blocks, max, several, served) && j < |assetJobs|
    ensures VersionShape(v) && ContentOk(ix) && assetJobs[j] < |v.names|
    ensures j in several <==>
              Assets.Gather(AssetBlocks(v, assetJobs[j], ix), 0, max, []).end < v.assetChunkCounts[assetJobs[j]]
    ensures j in served <==> Available(v, assetJobs[j], ix, blocks)
  {
    hide Available, Assets.Gather, AssetBlocks;
  }

  /** Only jobs that need several partial writes are between two of them. */
  ghost predicate Midway(at: seq<nat>, pending: set<nat>, several: set<nat>) {
    forall j :: j in pending && 0 <= j < |at| && at[j] > 0 ==> j in several
  }

  /** The jobs whose failure was not reported: they failed after their first partial write. */
  ghost predicate LostLate(at: seq<nat>, lost: set<nat>, several: set<nat>, served: set<nat>) {
    lost <= several && (forall j :: j in lost ==> j < |at| && at[j] > 0) && lost !! served
  }

  /** The state of a run: errors are those reported for jobs that are over, waiting assets are
      as far as they were written, and unless an error was reported all others are complete,
      but for those whose failure was lost; these are as far as they were written, too. */
  ghost predicate Running(start: Tree, tree: Tree, v: VersionIndex, list: seq<nat>, blockJobs: seq<nat>,
                          jobs: seq<BlockJob>, assetJobs: seq<nat>, at: seq<nat>, errs: seq<Option<Errno>>,
                          pendingBlocks: set<nat>, pendingAssets: set<nat>, written: set<nat>, lost: set<nat>,
                          several: set<nat>, served: set<nat>, available: bool, bytes: nat -> seq<byte>, retain: bool)
    requires VersionShape(v) && forall k :: 0 <= k < |list| ==> list[k] < |v.names|
  {
    && Rooted(tree) && |errs| == |jobs| + |assetJobs| && |at| == |assetJobs|
    && (forall i :: i in pendingBlocks ==> 0 <= i < |jobs|) && (forall j :: j in pendingAssets ==> 0 <= j < |assetJobs|)
    && pendingAssets !! lost && Waiting(tree, v, assetJobs, at, pendingAssets + lost, bytes, retain)
    && Midway(at, pendingAssets, several)
    && (NoErrors(errs) ==> Accounted(written, blockJobs, jobs, pendingBlocks, assetJobs, pendingAssets + lost))
    && (PartOf(start, v) && NoErrors(errs) ==>
          Underway(start, tree, v, list, written, bytes, retain) && LostLate(at, lost, several, served))
    && (PartOf(start, v) && available ==> NoErrors(errs))
  }

  lemma {:induction false} RunBegins(tree: Tree, v: VersionIndex, list: seq<nat>, blockJobs: seq<nat>,
                                     jobs: seq<BlockJob>, assetJobs: seq<nat>, at: seq<nat>, errs: seq<Option<Errno>>,
                                     several: set<nat>, served: set<nat>, available: bool, bytes: nat -> seq<byte>,
                                     retain: bool)
    requires VersionShape(v) && (forall k :: 0 <= k < |list| ==> list[k] < |v.names|) && Rooted(tree)
    requires forall j :: 0 <= j < |assetJobs| ==> assetJobs[j] < |v.names|
    requires |errs| == |jobs| + |assetJobs| && |at| == |assetJobs|
    requires NoErrors(errs) && forall j :: 0 <= j < |at| ==> at[j] == 0
    ensures Running(tree, tree, v, list, blockJobs, jobs, assetJobs, at, errs, UpTo(|jobs|), UpTo(|assetJobs|), {}, {},
                    several, served, available, bytes, retain)
  {
    hide Underway, PartOf, Accounted, Rooted, AssetAt, Waiting, NoErrors, VersionShape;
    NothingUnderway(tree, v, list, bytes, retain);
    NothingAccounted(blockJobs, jobs, assetJobs);
    NothingWaiting(tree, v, assetJobs, at, bytes, retain);
    assert UpTo(|assetJobs|) + {} == UpTo(|assetJobs|);
  }

  lemma {:induction false} NothingWaiting(tree: Tree, v: VersionIndex, assetJobs: seq<nat>, at: seq<nat>,
                                          bytes: nat -> seq<byte>, retain: bool)
    requires VersionShape(v) && |at| == |assetJobs|
    requires (forall j :: 0 <= j < |assetJobs| ==> assetJobs[j] < |v.names|) && forall j :: 0 <= j < |at| ==> at[j] == 0
    ensures Waiting(tree, v, assetJobs, at, UpTo(|assetJobs|), bytes, retain)
  {
    hide AssetAt;
  }

  lemma NoErrorsYet(errs: seq<Option<Errno>>)
    requires forall e :: 0 <= e < |errs| ==> errs[e] == None
    ensures NoErrors(errs)
  {
  }

  lemma AnError(errs: seq<Option<Errno>>, e: nat, err: Option<Errno>)
    requires e < |errs| && err.Some?
    ensures !NoErrors(errs[e := err])
  {
    assert errs[e := err][e] == err;
  }

  /** Runs a block job that is pending. */
  method BlockStep(store: Storage, v: VersionIndex, ghost list: seq<nat>, blockJobs: seq<nat>, jobs: seq<BlockJob>,
                   assetJobs: seq<nat>, ix: ContentIndex, blocks: BlockStore, retain: bool, i: nat, ghost at: seq<nat>,
                   errs: seq<Option<Errno>>, ghost pendingBlocks: set<nat>, ghost pendingAssets: set<nat>,
                   ghost written: set<nat>, ghost lost: set<nat>, ghost several: set<nat>, ghost served: set<nat>,
                   ghost start: Tree, ghost bytes: nat -> seq<byte>)
    returns (errs': seq<Option<Errno>>)
    requires WriteSetting(v, list, blockJobs, assetJobs, ix, blocks, bytes)
    requires TakesRuns(jobs, BlocksOfList(v, ix, blockJobs)) && i in pendingBlocks && i < |jobs|
    requires Running(start, store.tree, v, list, blockJobs, jobs, assetJobs, at, errs, pendingBlocks, pendingAssets,
                     written, lost, several, served, AllAvailable(v, list, ix, blocks), bytes, retain)
    requires ModesUnless(retain, start, store.tree)
    modifies store`tree
    ensures Running(start, store.tree, v, list, blockJobs, jobs, assetJobs, at, errs', pendingBlocks - {i},
                    pendingAssets, written + Elems(JobAssets(blockJobs, jobs[i])), lost, several, served,
                    AllAvailable(v, list, ix, blocks), bytes, retain)
    ensures ModesUnless(retain, start, store.tree)
  {
    hide ModesKept, WriteSetting, TakesRuns, Rooted, Underway, PartOf, Waiting, Accounted, AllAvailable, Available,
         VersionDescribes, IsTreeVersion, SplitsInto, Distinct, InContent, Untouched, BlockServes, JobAssets,
         BlocksOfList, NoErrors, BlocksDescribed, Midway, LostLate;
    SettingParts(v, list, blockJobs, assetJobs, ix, blocks, bytes);
    ghost var before := store.tree;
    var assets := JobAssets(blockJobs, jobs[i]);
    JobAssetsOk(v, list, blockJobs, assetJobs, ix, blocks, jobs, i, bytes);
    if AllAvailable(v, list, ix, blocks) {
      JobIsServed(v, list, blockJobs, assetJobs, ix, blocks, jobs, i, bytes);
    }
    var err := RunBlockJob(store, v, assets, ix.blockHashes[jobs[i].block], blocks, retain, start, list, written,
                           bytes);
    ModesGoOn(retain, start, before, store.tree);
    WaitingStays(before, store.tree, v, assetJobs, at, pendingAssets + lost, assets, bytes, retain);
    errs' := errs;
    if err.Some? {
      AnError(errs, i, err);
      errs' := errs[i := err];
    } else if NoErrors(errs) {
      NoneIn(assets, assetJobs);
      BlockAccounted(written, blockJobs, jobs, pendingBlocks, assetJobs, pendingAssets + lost, i);
    }
  }

  lemma NoneIn(assets: seq<nat>, assetJobs: seq<nat>)
    requires forall k :: 0 <= k < |assets| ==> assets[k] !in assetJobs
    ensures forall a :: a in assets ==> a !in assetJobs
  {
  }

  /** The next partial write of an asset that waits. If it fails and is not the first one of the
      asset, the partial write before it can store its success afterwards, and nobody learns of
      the failure. */
  method AssetStep(store: Storage, v: VersionIndex, ghost list: seq<nat>, ghost blockJobs: seq<nat>,
                   jobs: seq<BlockJob>, assetJobs: seq<nat>, ix: ContentIndex, table: LookupTable, blocks: BlockStore,
                   max: nat, retain: bool, j: nat, at: seq<nat>, errs: seq<Option<Errno>>,
                   ghost pendingBlocks: set<nat>, pendingAssets: set<nat>, ghost written: set<nat>,
                   ghost lost: set<nat>, ghost several: set<nat>, ghost served: set<nat>, ghost start: Tree,
                   ghost bytes: nat -> seq<byte>)
    returns (at': seq<nat>, errs': seq<Option<Errno>>, pendingAssets': set<nat>, ghost written': set<nat>,
             ghost lost': set<nat>)
    requires WriteSetting(v, list, blockJobs, assetJobs, ix, blocks, bytes) && FindsBlocks(table, ix)
    requires 0 < max <= Assets.MAX_BLOCKS_PER_PARTIAL_ASSET_WRITE && Measured(v, assetJobs, ix, blocks, max, several,
                                                                            served)
    requires j in pendingAssets && j < |assetJobs|
    requires Running(start, store.tree, v, list, blockJobs, jobs, assetJobs, at, errs, pendingBlocks, pendingAssets,
                     written, lost, several, served, AllAvailable(v, list, ix, blocks), bytes, retain)
    requires ModesUnless(retain, start, store.tree)
    modifies store`tree
    ensures Running(start, store.tree, v, list, blockJobs, jobs, assetJobs, at', errs', pendingBlocks, pendingAssets',
                    written', lost', several, served, AllAvailable(v, list, ix, blocks), bytes, retain)
    ensures assetJobs[j] < |v.assetChunkCounts|
    ensures pendingAssets' == pendingAssets - {j} ||
            (pendingAssets' == pendingAssets && |at| == |assetJobs| && at' == at[j := at'[j]]
             && at[j] < at'[j] <= v.assetChunkCounts[assetJobs[j]])
    ensures ModesUnless(retain, start, store.tree)
  {
    hide ModesKept, WriteSetting, FindsBlocks, Rooted, PartOf, AllAvailable, Available, VersionDescribes, IsTreeVersion,
         SplitsInto, Distinct, InContent, OnlyTouched, AssetAt, Unobstructed, Wrote, NoErrors, BlocksDescribed,
         Assets.Gather, AssetBlocks, Measured, Running;
    SettingParts(v, list, blockJobs, assetJobs, ix, blocks, bytes);
    ghost var before, available := store.tree, AllAvailable(v, list, ix, blocks);
    var a := assetJobs[j];
    BeforeStep(start, before, v, list, blockJobs, jobs, assetJobs, at, errs, pendingBlocks, pendingAssets, written,
               lost, several, served, available, j, bytes, retain);
    if available {
      AvailableIn(v, list, ix, blocks, a);
    }
    MeasuredAt(v, assetJobs, ix, blocks, max, several, served, j);
    var err, end := NextPartialWrite(store, v, a, at[j], ix, table, blocks, max, retain, bytes);
    ModesGoOn(retain, start, before, store.tree);
    at', errs', pendingAssets', written', lost' := at, errs, pendingAssets, written, lost;
    if err.Some? {
      pendingAssets' := pendingAssets - {j};
      var overwritten: bool := *;
      if at[j] > 0 && overwritten {
        lost' := lost + {j};
        LostLater(start, before, store.tree, v, list, blockJobs, jobs, assetJobs, at, errs, pendingBlocks,
                  pendingAssets, written, lost, several, served, available, j, bytes, retain);
      } else {
        errs' := errs[|jobs| + j := err];
        FailsReported(start, before, store.tree, v, list, blockJobs, jobs, assetJobs, at, errs, pendingBlocks,
                      pendingAssets, written, lost, several, served, available, j, err, bytes, retain);
      }
      return;
    }
    at' := at[j := end];
    if end == v.assetChunkCounts[a] {
      pendingAssets' := pendingAssets - {j};
      written' := written + {a};
      WrittenWhole(start, before, store.tree, v, list, blockJobs, jobs, assetJobs, at, errs, pendingBlocks,
                   pendingAssets, written, lost, several, served, available, j, bytes, retain);
    } else {
      WrittenUpTo(start, before, store.tree, v, list, blockJobs, jobs, assetJobs, at, errs, pendingBlocks,
                  pendingAssets, written, lost, several, served, available, j, end, bytes, retain);
    }
  }

  lemma BeforeStep(start: Tree, before: Tree, v: VersionIndex, list: seq<nat>, blockJobs: seq<nat>,
                   jobs: seq<BlockJob>, assetJobs: seq<nat>, at: seq<nat>, errs: seq<Option<Errno>>,
                   pendingBlocks: set<nat>, pendingAssets: set<nat>, written: set<nat>, lost: set<nat>,
                   several: set<nat>, served: set<nat>, available: bool, j: nat, bytes: nat -> seq<byte>, retain: bool)
    requires IsTreeVersion(v) && (forall k :: 0 <= k < |list| ==> list[k] < |v.names|) && Distinct(assetJobs)
    requires Running(start, before, v, list, blockJobs, jobs, assetJobs, at, errs, pendingBlocks, pendingAssets,
                     written, lost, several, served, available, bytes, retain)
    requires j in pendingAssets && j < |assetJobs| && assetJobs[j] < |v.names| && assetJobs[j] in list
    ensures Rooted(before) && |errs| == |jobs| + |assetJobs| && |at| == |assetJobs|
    ensures at[j] <= v.assetChunkCounts[assetJobs[j]]
    ensures at[j] > 0 ==>
              && j in several && !IsDirPath(v.names[assetJobs[j]])
              && AssetAt(before, v, assetJobs[j], at[j], bytes, retain)
    ensures PartOf(start, v) && NoErrors(errs) ==> Unobstructed(before, v.names[assetJobs[j]])
    ensures PartOf(start, v) && available ==> NoErrors(errs)
  {
    hide Rooted, Underway, PartOf, Waiting, Accounted, IsTreeVersion, Distinct, Untouched, OnlyTouched, AssetAt,
         JobAssets, NoErrors, Unobstructed;
    VersionShapeOf(v);
    WaitingAt(before, v, assetJobs, at, pendingAssets + lost, j, bytes, retain);
    if PartOf(start, v) && NoErrors(errs) {
      UnderwayIsPart(start, before, v, list, written, bytes, retain);
      NothingInTheWay(before, v, assetJobs[j]);
    }
  }

  /** A failure that is not reported leaves the asset as far as it was written. */
  lemma LostLater(start: Tree, before: Tree, after: Tree, v: VersionIndex, list: seq<nat>, blockJobs: seq<nat>,
                  jobs: seq<BlockJob>, assetJobs: seq<nat>, at: seq<nat>, errs: seq<Option<Errno>>,
                  pendingBlocks: set<nat>, pendingAssets: set<nat>, written: set<nat>, lost: set<nat>,
                  several: set<nat>, served: set<nat>, available: bool, j: nat, bytes: nat -> seq<byte>,
                  retain: bool)
    requires IsTreeVersion(v) && (forall k :: 0 <= k < |list| ==> list[k] < |v.names|) && Distinct(assetJobs)
    requires Running(start, before, v, list, blockJobs, jobs, assetJobs, at, errs, pendingBlocks, pendingAssets,
                     written, lost, several, served, available, bytes, retain)
    requires j in pendingAssets && j < |assetJobs| && assetJobs[j] < |v.names| && assetJobs[j] in list
    requires Wrote(before, after, v, assetJobs[j], at[j], bytes, retain) && Rooted(after)
    requires at[j] > 0 && (PartOf(start, v) && NoErrors(errs) ==> j !in served && !available)
    ensures Running(start, after, v, list, blockJobs, jobs, assetJobs, at, errs, pendingBlocks, pendingAssets - {j},
                    written, lost + {j}, several, served, available, bytes, retain)
  {
    hide Rooted, Underway, PartOf, Waiting, Accounted, IsTreeVersion, Distinct, Untouched, OnlyTouched, AssetAt,
         JobAssets, NoErrors;
    VersionShapeOf(v);
    var others := pendingAssets + lost - {j};
    assert others + {j} == pendingAssets + lost == pendingAssets - {j} + (lost + {j}) && at[j := at[j]] == at;
    WaitingAt(before, v, assetJobs, at, pendingAssets + lost, j, bytes, retain);
    WaitingGoesOn(before, after, v, assetJobs, at, others, j, at[j], bytes, retain);
    if PartOf(start, v) && NoErrors(errs) {
      StillWaits(written, blockJobs, jobs, pendingBlocks, assetJobs, pendingAssets + lost, j);
      WrotePart(start, before, after, v, list, assetJobs[j], at[j], written, bytes, retain);
    }
  }

  lemma FailsReported(start: Tree, before: Tree, after: Tree, v: VersionIndex, list: seq<nat>, blockJobs: seq<nat>,
                      jobs: seq<BlockJob>, assetJobs: seq<nat>, at: seq<nat>, errs: seq<Option<Errno>>,
                      pendingBlocks: set<nat>, pendingAssets: set<nat>, written: set<nat>, lost: set<nat>,
                      several: set<nat>, served: set<nat>, available: bool, j: nat, err: Option<Errno>,
                      bytes: nat -> seq<byte>, retain: bool)
    requires IsTreeVersion(v) && (forall k :: 0 <= k < |list| ==> list[k] < |v.names|) && Distinct(assetJobs)
    requires Running(start, before, v, list, blockJobs, jobs, assetJobs, at, errs, pendingBlocks, pendingAssets,
                     written, lost, several, served, available, bytes, retain)
    requires j in pendingAssets && j < |assetJobs| && assetJobs[j] < |v.names| && assetJobs[j] in list
    requires OnlyTouched(before, after, AssetPath(v, assetJobs[j])) && Rooted(after) && err.Some?
    requires PartOf(start, v) && NoErrors(errs) ==> !available
    ensures Running(start, after, v, list, blockJobs, jobs, assetJobs, at, errs[|jobs| + j := err], pendingBlocks,
                    pendingAssets - {j}, written, lost, several, served, available, bytes, retain)
  {
    hide Rooted, Underway, PartOf, Waiting, Accounted, IsTreeVersion, Distinct, Untouched, OnlyTouched, AssetAt,
         JobAssets, NoErrors;
    var others := pendingAssets + lost - {j};
    assert others + {j} == pendingAssets + lost && others == pendingAssets - {j} + lost;
    WaitingGoesOn(before, after, v, assetJobs, at, others, j, 0, bytes, retain);
    AnError(errs, |jobs| + j, err);
  }

  /** The last partial write of an asset succeeds. */
  lemma WrittenWhole(start: Tree, before: Tree, after: Tree, v: VersionIndex, list: seq<nat>, blockJobs: seq<nat>,
                     jobs: seq<BlockJob>, assetJobs: seq<nat>, at: seq<nat>, errs: seq<Option<Errno>>,
                     pendingBlocks: set<nat>, pendingAssets: set<nat>, written: set<nat>, lost: set<nat>,
                     several: set<nat>, served: set<nat>, available: bool, j: nat, bytes: nat -> seq<byte>,
                     retain: bool)
    requires IsTreeVersion(v) && (forall k :: 0 <= k < |list| ==> list[k] < |v.names|) && Distinct(assetJobs)
    requires Running(start, before, v, list, blockJobs, jobs, assetJobs, at, errs, pendingBlocks, pendingAssets,
                     written, lost, several, served, available, bytes, retain)
    requires j in pendingAssets && j < |assetJobs| && assetJobs[j] < |v.names| && assetJobs[j] in list
    requires OnlyTouched(before, after, AssetPath(v, assetJobs[j])) && Rooted(after)
    requires PartOf(start, v) && NoErrors(errs) ==>
               Wrote(before, after, v, assetJobs[j], v.assetChunkCounts[assetJobs[j]], bytes, retain)
    ensures Running(start, after, v, list, blockJobs, jobs, assetJobs, at[j := v.assetChunkCounts[assetJobs[j]]], errs,
                    pendingBlocks, pendingAssets - {j}, written + {assetJobs[j]}, lost, several, served, available,
                    bytes, retain)
  {
    hide Rooted, Underway, PartOf, Waiting, Accounted, IsTreeVersion, Distinct, Untouched, OnlyTouched, AssetAt,
         JobAssets, NoErrors, Wrote;
    VersionShapeOf(v);
    var others, end := pendingAssets + lost - {j}, v.assetChunkCounts[assetJobs[j]];
    assert others + {j} == pendingAssets + lost && others == pendingAssets - {j} + lost;
    WaitingGoesOn(before, after, v, assetJobs, at, others, j, end, bytes, retain);
    WaitingForget(after, v, assetJobs, at, others, j, end, bytes, retain);
    if NoErrors(errs) {
      AssetAccounted(written, blockJobs, jobs, pendingBlocks, assetJobs, pendingAssets + lost, j);
      if PartOf(start, v) {
        WroteWhole(start, before, after, v, list, assetJobs[j], written, bytes, retain);
      }
    }
  }

  lemma WaitingForget(tree: Tree, v: VersionIndex, assetJobs: seq<nat>, at: seq<nat>, pending: set<nat>, j: nat,
                      end: nat, bytes: nat -> seq<byte>, retain: bool)
    requires VersionShape(v) && Waiting(tree, v, assetJobs, at, pending, bytes, retain) && j !in pending && j < |at|
    ensures Waiting(tree, v, assetJobs, at[j := end], pending, bytes, retain)
  {
    hide AssetAt;
  }

  /** A partial write that is not the last one succeeds. */
  lemma WrittenUpTo(start: Tree, before: Tree, after: Tree, v: VersionIndex, list: seq<nat>, blockJobs: seq<nat>,
                    jobs: seq<BlockJob>, assetJobs: seq<nat>, at: seq<nat>, errs: seq<Option<Errno>>,
                    pendingBlocks: set<nat>, pendingAssets: set<nat>, written: set<nat>, lost: set<nat>,
                    several: set<nat>, served: set<nat>, available: bool, j: nat, end: nat, bytes: nat -> seq<byte>,
                    retain: bool)
    requires IsTreeVersion(v) && (forall k :: 0 <= k < |list| ==> list[k] < |v.names|) && Distinct(assetJobs)
    requires Running(start, before, v, list, blockJobs, jobs, assetJobs, at, errs, pendingBlocks, pendingAssets,
                     written, lost, several, served, available, bytes, retain)
    requires j in pendingAssets && j < |assetJobs| && assetJobs[j] < |v.names| && assetJobs[j] in list
    requires OnlyTouched(before, after, AssetPath(v, assetJobs[j])) && Rooted(after)
    requires end < v.assetChunkCounts[assetJobs[j]] && !IsDirPath(v.names[assetJobs[j]]) && j in several
    requires AssetAt(after, v, assetJobs[j], end, bytes, retain)
    requires PartOf(start, v) && NoErrors(errs) ==> Wrote(before, after, v, assetJobs[j], end, bytes, retain)
    ensures Running(start, after, v, list, blockJobs, jobs, assetJobs, at[j := end], errs, pendingBlocks, pendingAssets,
                    written, lost, several, served, available, bytes, retain)
  {
    hide Rooted, Underway, PartOf, Waiting, Accounted, IsTreeVersion, Distinct, Untouched, OnlyTouched, AssetAt,
         JobAssets, NoErrors, Wrote;
    VersionShapeOf(v);
    var others := pendingAssets + lost - {j};
    assert others + {j} == pendingAssets + lost;
    WaitingGoesOn(before, after, v, assetJobs, at, others, j, end, bytes, retain);
    if NoErrors(errs) && PartOf(start, v) {
      StillWaits(written, blockJobs, jobs, pendingBlocks, assetJobs, pendingAssets + lost, j);
      WrotePart(start, before, after, v, list, assetJobs[j], end, written, bytes, retain);
    }
  }

  lemma WaitingAt(tree: Tree, v: VersionIndex, assetJobs: seq<nat>, at: seq<nat>, pending: set<nat>, j: nat,
                  bytes: nat -> seq<byte>, retain: bool)
    requires VersionShape(v) && Waiting(tree, v, assetJobs, at, pending, bytes, retain) && j in pending
    ensures |at| == |assetJobs| && j < |assetJobs| && assetJobs[j] < |v.names|
              && at[j] <= v.assetChunkCounts[assetJobs[j]]
    ensures at[j] > 0 ==> !IsDirPath(v.names[assetJobs[j]]) && AssetAt(tree, v, assetJobs[j], at[j], bytes, retain)
  {
  }

  lemma StillWaits(written: set<nat>, blockJobs: seq<nat>, jobs: seq<BlockJob>, pendingBlocks: set<nat>,
                   assetJobs: seq<nat>, pendingAssets: set<nat>, j: nat)
    requires Accounted(written, blockJobs, jobs, pendingBlocks, assetJobs, pendingAssets) && j < |assetJobs|
               && j in pendingAssets
    ensures assetJobs[j] !in written
  {
  }

  lemma UnderwayIsPart(start: Tree, tree: Tree, v: VersionIndex, list: seq<nat>, written: set<nat>,
                       bytes: nat -> seq<byte>, retain: bool)
    requires VersionShape(v) && forall k :: 0 <= k < |list| ==> list[k] < |v.names|
    requires Underway(start, tree, v, list, written, bytes, retain)
    ensures PartOf(tree, v)
  {
  }

  /** Runs all jobs: the next step is any block job that has not run, or the next partial
      write of any asset that is not complete. */
  method RunJobs(store: Storage, v: VersionIndex, ghost list: seq<nat>, blockJobs: seq<nat>, jobs: seq<BlockJob>,
                 assetJobs: seq<nat>, ix: ContentIndex, table: LookupTable, blocks: BlockStore, max: nat, retain: bool,
                 ghost bytes: nat -> seq<byte>)
    returns (errs: seq<Option<Errno>>, ghost lost: set<nat>)
    requires WriteSetting(v, list, blockJobs, assetJobs, ix, blocks, bytes) && FindsBlocks(table, ix)
    requires store !in table.Repr
    requires TakesRuns(jobs, BlocksOfList(v, ix, blockJobs)) && End(jobs) == |blockJobs|
    requires Rooted(store.tree) && 0 < max <= Assets.MAX_BLOCKS_PER_PARTIAL_ASSET_WRITE
    modifies store`tree
    ensures Rooted(store.tree) && |errs| == |jobs| + |assetJobs|
    ensures PartOf(old(store.tree), v) && NoErrors(errs) ==>
              && Underway(old(store.tree), store.tree, v, list, Elems(list) - lost, bytes, retain)
              && Losses(store.tree, v, list, ix, blocks, max, lost, bytes, retain)
    ensures PartOf(old(store.tree), v) && AllAvailable(v, list, ix, blocks) ==> NoErrors(errs)
    ensures ModesUnless(retain, old(store.tree), store.tree)
  {
    hide ModesUnless, WriteSetting, FindsBlocks, TakesRuns, Running, Rooted, Underway, PartOf, AllAvailable, JobAssets,
         BlocksOfList, Remaining, NoErrors, IsTreeVersion, VersionDescribes, BlocksDescribed, SplitsInto, InContent,
         VersionShape, ContentOk, Distinct, SeveralWrites, ServedJobs, Losses, AssetsOf;
    SettingParts(v, list, blockJobs, assetJobs, ix, blocks, bytes);
    ghost var start, available := store.tree, AllAvailable(v, list, ix, blocks);
    errs := seq(|jobs| + |assetJobs|, e => None);
    var at := seq(|assetJobs|, j => 0);
    var pendingBlocks, pendingAssets := UpTo(|jobs|), UpTo(|assetJobs|);
    ghost var written: set<nat>, late: set<nat> := {}, {};
    ghost var counts := ChunkCounts(v, assetJobs);
    ghost var several, served := SeveralWrites(v, assetJobs, ix, max), ServedJobs(v, assetJobs, ix, blocks);
    NoErrorsYet(errs);
    SameUnless(retain, start);
    RunBegins(start, v, list, blockJobs, jobs, assetJobs, at, errs, several, served, available, bytes, retain);
    while pendingBlocks != {} || pendingAssets != {}
      invariant (forall i :: i in pendingBlocks ==> 0 <= i < |jobs|)
                  && (forall j :: j in pendingAssets ==> 0 <= j < |assetJobs|)
      invariant Running(start, store.tree, v, list, blockJobs, jobs, assetJobs, at, errs, pendingBlocks, pendingAssets,
                        written, late, several, served, available, bytes, retain)
      invariant |at| == |assetJobs| && ModesUnless(retain, start, store.tree)
      decreases |pendingBlocks|, |pendingAssets|, Remaining(counts, at)
    {
      var blockFirst: bool := *;
      if pendingBlocks != {} && (blockFirst || pendingAssets == {}) {
        var i :| i in pendingBlocks;
        errs := BlockStep(store, v, list, blockJobs, jobs, assetJobs, ix, blocks, retain, i, at, errs, pendingBlocks,
                          pendingAssets, written, late, several, served, start, bytes);
        pendingBlocks := pendingBlocks - {i};
        written := written + Elems(JobAssets(blockJobs, jobs[i]));
      } else {
        var j :| j in pendingAssets;
        ghost var before := at;
        at, errs, pendingAssets, written, late :=
            AssetStep(store, v, list, blockJobs, jobs, assetJobs, ix, table, blocks, max, retain, j, at, errs,
                      pendingBlocks, pendingAssets, written, late, several, served, start, bytes);
        RunShape(start, store.tree, v, list, blockJobs, jobs, assetJobs, at, errs, pendingBlocks, pendingAssets,
                 written, late, several, served, available, bytes, retain);
        if j in pendingAssets {
          RemainingLess(counts, before, j, at[j]);
        }
      }
    }
    lost := AssetsOf(assetJobs, late);
    RunEnds(start, store.tree, v, list, blockJobs, jobs, assetJobs, ix, blocks, max, at, errs, written, late, several,
            served, available, bytes, retain);
  }

  lemma RunShape(start: Tree, tree: Tree, v: VersionIndex, list: seq<nat>, blockJobs: seq<nat>, jobs: seq<BlockJob>,
                 assetJobs: seq<nat>, at: seq<nat>, errs: seq<Option<Errno>>, pendingBlocks: set<nat>,
                 pendingAssets: set<nat>, written: set<nat>, lost: set<nat>, several: set<nat>, served: set<nat>,
                 available: bool, bytes: nat -> seq<byte>, retain: bool)
    requires VersionShape(v) && forall k :: 0 <= k < |list| ==> list[k] < |v.names|
    requires Running(start, tree, v, list, blockJobs, jobs, assetJobs, at, errs, pendingBlocks, pendingAssets, written,
                     lost, several, served, available, bytes, retain)
    ensures |at| == |assetJobs| && forall j :: j in pendingAssets ==> 0 <= j < |assetJobs|
  {
    hide Underway, PartOf, Rooted, Waiting, Accounted, NoErrors, Midway, LostLate;
  }

  /** These are assets of the list whose failure nobody learns of: not all their chunks can be
      fetched, and they need several partial writes, of which the first one succeeded. They
      are files that have their first chunks. */
  ghost predicate Losses(tree: Tree, v: VersionIndex, list: seq<nat>, ix: ContentIndex, blocks: BlockStore, max: nat,
                         lost: set<nat>, bytes: nat -> seq<byte>, retain: bool)
    requires VersionShape(v) && ContentOk(ix) && forall k :: 0 <= k < |list| ==> list[k] < |v.names|
  {
    forall a :: a in lost ==>
      && a in list && a < |v.names| && !Reliable(v, a, ix, blocks, max) && !IsDirPath(v.names[a])
      && exists pos: nat :: 0 < pos <= v.assetChunkCounts[a] && AssetAt(tree, v, a, pos, bytes, retain)
  }

  /** Nothing is lost of what can be fetched, or is written at once. */
  lemma NoLosses(tree: Tree, v: VersionIndex, list: seq<nat>, ix: ContentIndex, blocks: BlockStore, max: nat,
                 lost: set<nat>, bytes: nat -> seq<byte>, retain: bool)
    requires VersionShape(v) && ContentOk(ix) && forall k :: 0 <= k < |list| ==> list[k] < |v.names|
    requires Losses(tree, v, list, ix, blocks, max, lost, bytes, retain)
    ensures AllReliable(v, list, ix, blocks, max) ==> lost == {}
  {
    hide Reliable, AssetAt;
    if a :| a in lost {
      var k :| 0 <= k < |list| && list[k] == a;
    }
  }

  lemma LostAre(tree: Tree, v: VersionIndex, list: seq<nat>, blockJobs: seq<nat>, assetJobs: seq<nat>,
                ix: ContentIndex, blocks: BlockStore, max: nat, at: seq<nat>, lost: set<nat>, several: set<nat>,
                served: set<nat>, bytes: nat -> seq<byte>, retain: bool)
    requires WriteSetting(v, list, blockJobs, assetJobs, ix, blocks, bytes)
    requires Measured(v, assetJobs, ix, blocks, max, several, served) && LostLate(at, lost, several, served)
    requires Waiting(tree, v, assetJobs, at, lost, bytes, retain)
    ensures Losses(tree, v, list, ix, blocks, max, AssetsOf(assetJobs, lost), bytes, retain)
  {
    hide WriteSetting, SplitsInto, AssetAt, Available, SingleBlock, Assets.Gather, AssetBlocks, Measured, Waiting;
    SettingParts(v, list, blockJobs, assetJobs, ix, blocks, bytes);
    forall a | a in AssetsOf(assetJobs, lost)
      ensures a in list && a < |v.names| && !Reliable(v, a, ix, blocks, max) && !IsDirPath(v.names[a])
      ensures exists pos: nat :: 0 < pos <= v.assetChunkCounts[a] && AssetAt(tree, v, a, pos, bytes, retain)
    {
      var j :| j in lost && 0 <= j < |assetJobs| && assetJobs[j] == a;
      MeasuredAt(v, assetJobs, ix, blocks, max, several, served, j);
      WaitingAt(tree, v, assetJobs, at, lost, j, bytes, retain);
      NotSingle(list, blockJobs, assetJobs, v, ix, j);
      assert AssetAt(tree, v, a, at[j], bytes, retain);
    }
  }

  lemma NotSingle(list: seq<nat>, blockJobs: seq<nat>, assetJobs: seq<nat>, v: VersionIndex, ix: ContentIndex, j: nat)
    requires VersionShape(v) && ContentOk(ix) && (forall k :: 0 <= k < |list| ==> list[k] < |v.names|)
    requires SplitsInto(list, blockJobs, assetJobs, v, ix) && j < |assetJobs| && assetJobs[j] < |v.names|
    ensures !SingleBlock(v, assetJobs[j], ix)
  {
    hide SingleBlock;
    assert assetJobs[j] in assetJobs;
  }

  lemma RunEnds(start: Tree, tree: Tree, v: VersionIndex, list: seq<nat>, blockJobs: seq<nat>, jobs: seq<BlockJob>,
                assetJobs: seq<nat>, ix: ContentIndex, blocks: BlockStore, max: nat, at: seq<nat>,
                errs: seq<Option<Errno>>, written: set<nat>, lost: set<nat>, several: set<nat>, served: set<nat>,
                available: bool, bytes: nat -> seq<byte>, retain: bool)
    requires WriteSetting(v, list, blockJobs, assetJobs, ix, blocks, bytes)
    requires Measured(v, assetJobs, ix, blocks, max, several, served)
    requires TakesRuns(jobs, BlocksOfList(v, ix, blockJobs)) && End(jobs) == |blockJobs|
    requires Running(start, tree, v, list, blockJobs, jobs, assetJobs, at, errs, {}, {}, written, lost, several, served,
                     available, bytes, retain)
    ensures Rooted(tree) && |errs| == |jobs| + |assetJobs| && (PartOf(start, v) && available ==> NoErrors(errs))
    ensures PartOf(start, v) && NoErrors(errs) ==>
              && Underway(start, tree, v, list, Elems(list) - AssetsOf(assetJobs, lost), bytes, retain)
              && Losses(tree, v, list, ix, blocks, max, AssetsOf(assetJobs, lost), bytes, retain)
  {
    hide WriteSetting, PartOf, Rooted, Waiting, Accounted, NoErrors, TakesRuns, KeptOthers, AssetAt, Measured,
         LostLate, Midway, Losses, AssetsOf;
    SettingParts(v, list, blockJobs, assetJobs, ix, blocks, bytes);
    assert {} + lost == lost;
    if PartOf(start, v) && NoErrors(errs) {
      AllAccounted(written, lost, v, list, ix, blockJobs, jobs, assetJobs);
      LostAre(tree, v, list, blockJobs, assetJobs, ix, blocks, max, at, lost, several, served, bytes, retain);
    }
  }

  /** No job before this one failed. */
  ghost predicate IsFirst(errs: seq<Option<Errno>>, f: int) {
    0 <= f < |errs| && errs[f].Some? && forall i :: 0 <= i < f ==> errs[i] == None
  }

  /** All these partial writes succeeded, or failed with this error. */
  ghost predicate NoneElse(errs: seq<Option<Errno>>, from: nat, to: nat) {
    forall i :: from <= i < to && i < |errs| ==> errs[i] == None || errs[i] == Some(ENOTRECOVERABLE)
  }

  /** What is reported: the first error; or the first other error of a partial write, if that
      is ENOTRECOVERABLE and there is one. */
  ghost predicate IsReported(errs: seq<Option<Errno>>, blockCount: nat, f: int, err: Option<Errno>, to: nat) {
    && IsFirst(errs, f)
    && if errs[f] != Some(ENOTRECOVERABLE) then err == errs[f]
       else if err == errs[f] then NoneElse(errs, blockCount, to)
       else exists k ::
         blockCount <= k < |errs| && k < to && errs[k] == err && err.Some? && NoneElse(errs, blockCount, k)
  }

  /** The error that a write returns. */
  method ReportedError(errs: seq<Option<Errno>>, blockCount: nat) returns (err: Option<Errno>)
    requires blockCount <= |errs|
    ensures err == None <==> NoErrors(errs)
    ensures err.Some? ==> exists f :: IsReported(errs, blockCount, f, err, |errs|)
  {
    err := None;
    ghost var first := -1;
    for e := 0 to blockCount
      invariant if err == None then forall i :: 0 <= i < e ==> errs[i] == None
                else first < e && IsFirst(errs, first) && err == errs[first]
    {
      if errs[e].Some? && err == None {
        err, first := errs[e], e;
      }
    }
    for e := blockCount to |errs|
      invariant if err == None then forall i :: 0 <= i < e ==> errs[i] == None
                else first < e && IsReported(errs, blockCount, first, err, e)
    {
      if errs[e].Some? {
        if err == None {
          err, first := errs[e], e;
        } else if err == Some(ENOTRECOVERABLE) && errs[e] != Some(ENOTRECOVERABLE) {
          err := errs[e];
        }
      }
    }
    assert err.Some? ==> !NoErrors(errs);
  }

  /** The assets are written but for those that were lost, and nothing else has changed. */
  ghost predicate ListWritten(before: Tree, after: Tree, v: VersionIndex, list: seq<nat>, lost: set<nat>,
                              bytes: nat -> seq<byte>, retain: bool)
    requires VersionShape(v) && forall k :: 0 <= k < |list| ==> list[k] < |v.names|
  {
    && PartOf(after, v) && KeptOthers(before, after, v, list)
    && forall k :: 0 <= k < |list| && list[k] !in lost ==> AssetWritten(after, v, list[k], bytes, retain)
  }

  lemma AllUnderway(before: Tree, after: Tree, v: VersionIndex, list: seq<nat>, lost: set<nat>,
                    bytes: nat -> seq<byte>, retain: bool)
    requires VersionShape(v) && forall k :: 0 <= k < |list| ==> list[k] < |v.names|
    requires Underway(before, after, v, list, Elems(list) - lost, bytes, retain)
    ensures ListWritten(before, after, v, list, lost, bytes, retain)
  {
    hide PartOf, KeptOthers, AssetAt, AssetWritten, VersionShape;
    forall k | 0 <= k < |list| && list[k] !in lost
      ensures AssetWritten(after, v, list[k], bytes, retain)
    {
      assert list[k] in Elems(list);
      AllChunksWritten(after, v, list[k], bytes, retain);
    }
  }

  lemma AvailableReliable(v: VersionIndex, list: seq<nat>, ix: ContentIndex, blocks: BlockStore, max: nat)
    requires VersionShape(v) && ContentOk(ix) && forall k :: 0 <= k < |list| ==> list[k] < |v.names|
    ensures AllAvailable(v, list, ix, blocks) ==> AllReliable(v, list, ix, blocks, max)
  {
    hide Available, WrittenAtOnce;
  }

  /** Writes the assets of both lists: one job for every block, and partial writes. */
  method WriteAssets(store: Storage, v: VersionIndex, ghost list: seq<nat>, blockJobs: seq<nat>, assetJobs: seq<nat>,
                     ix: ContentIndex, table: LookupTable, blocks: BlockStore, workerCount: nat, retain: bool,
                     ghost bytes: nat -> seq<byte>)
    returns (err: Option<Errno>, ghost lost: set<nat>)
    requires WriteSetting(v, list, blockJobs, assetJobs, ix, blocks, bytes) && FindsBlocks(table, ix)
               && store !in table.Repr
    requires Rooted(store.tree)
    modifies store`tree
    ensures Rooted(store.tree)
    ensures PartOf(old(store.tree), v) && err == None ==>
              && ListWritten(old(store.tree), store.tree, v, list, lost, bytes, retain)
              && Losses(store.tree, v, list, ix, blocks, Assets.MaxReads(workerCount), lost, bytes, retain)
    ensures PartOf(old(store.tree), v) && AllAvailable(v, list, ix, blocks) ==> err == None
    ensures !retain ==> ModesKept(old(store.tree), store.tree)
  {
    hide ModesKept, WriteSetting, FindsBlocks, TakesRuns, Rooted, Underway, PartOf, AllAvailable, NoErrors, ListWritten,
         Losses;
    ghost var before := store.tree;
    var jobs := CreateBlockJobs(BlocksOfList(v, ix, blockJobs));
    var errs;
    errs, lost := RunJobs(store, v, list, blockJobs, jobs, assetJobs, ix, table, blocks, Assets.MaxReads(workerCount),
                          retain, bytes);
    err := ReportedError(errs, |jobs|);
    if PartOf(before, v) && err == None {
      AllUnderway(before, store.tree, v, list, lost, bytes, retain);
    }
  }

  /** Writes the listed assets from the blocks of the store, unless a chunk is not in the
      content index. No error is returned if all their chunks can be fetched. If none is
      returned, the assets have their content, but for those that were lost: not all their
      chunks can be fetched, and they need several partial writes. */
  method WriteTarget(store: Storage, content: ContentIndex, blocks: BlockStore, v: VersionIndex, list: seq<nat>,
                     workerCount: nat, retain: bool, ghost bytes: nat -> seq<byte>)
    returns (err: Option<Errno>, ghost lost: set<nat>)
    requires ContentOk(content) && VersionDescribes(v, bytes) && IsTreeVersion(v) && BlocksDescribed(blocks, bytes)
    requires Distinct(list) && (forall k :: 0 <= k < |list| ==> list[k] < |v.names|) && Rooted(store.tree)
    modifies store`tree
    ensures !(forall k :: 0 <= k < |list| ==> InContent(v, list[k], content)) ==>
              err == Some(ENOENT) && store.tree == old(store.tree)
    ensures PartOf(old(store.tree), v) && err == None ==>
              && ListWritten(old(store.tree), store.tree, v, list, lost, bytes, retain)
              && Losses(store.tree, v, list, content, blocks, Assets.MaxReads(workerCount), lost, bytes, retain)
    ensures PartOf(old(store.tree), v) && AllAvailable(v, list, content, blocks) ==> err == None
    ensures !retain ==> ModesKept(old(store.tree), store.tree)
  {
    hide ModesKept, PartOf, InContent, SplitsInto, Rooted, LookupTable.Valid, Lookup, Available, IsTreeVersion,
         VersionDescribes, KeptOthers, BlocksDescribed, Distinct, Reliable;
    ghost var before := store.tree;
    SameModes(before);
    lost := {};
    if |list| == 0 {
      NothingTouched(before, v, list);
      return None, lost;
    }
    var table := MergeContent.ChunkTable(content, |content.chunkHashes|);
    assert FindsBlocks(table, content);
    var blockJobs, assetJobs;
    err, blockJobs, assetJobs := BuildAssetWriteList(v, list, table, content);
    if AllAvailable(v, list, content, blocks) {
      AvailableIsIn(v, list, content, blocks);
    }
    if err.Some? {
      return;
    }
    err, lost := WriteAssets(store, v, list, blockJobs, assetJobs, content, table, blocks, workerCount, retain, bytes);
  }

  lemma AvailableIsIn(v: VersionIndex, list: seq<nat>, ix: ContentIndex, blocks: BlockStore)
    requires VersionShape(v) && ContentOk(ix) && forall k :: 0 <= k < |list| ==> list[k] < |v.names|
    requires AllAvailable(v, list, ix, blocks)
    ensures forall k :: 0 <= k < |list| ==> InContent(v, list[k], ix)
  {
    forall k | 0 <= k < |list|
      ensures InContent(v, list[k], ix)
    {
      assert Available(v, list[k], ix, blocks);
      forall c | 0 <= c < v.assetChunkCounts[list[k]]
        ensures HashOf(v, list[k], c) in ix.chunkHashes
      {
        assert Fetchable(ix, blocks, HashOf(v, list[k], c));
        FirstMatchNone(ix.chunkHashes, HashOf(v, list[k], c));
      }
    }
  }

  // ----- The pipeline of an asset -----

  /** What the pipelined writer gets to know of an asset of a version. */
  ghost function PipelineOf(v: VersionIndex, a: nat, hashes: seq<nat>, max: nat): Assets.Asset
    requires VersionShape(v) && a < |v.names|
  {
    var n := v.assetChunkCounts[a];
    Assets.Asset(seq(n, c requires 0 <= c < n => HashOf(v, a, c)), seq(n, c requires 0 <= c < n => SizeOf(v, a, c)),
                 hashes, v.assetSizes[a], max)
  }

  lemma PipelineDescribed(v: VersionIndex, a: nat, hashes: seq<nat>, max: nat, blocks: BlockStore,
                          bytes: nat -> seq<byte>)
    requires VersionDescribes(v, bytes) && a < |v.names| && |hashes| == v.assetChunkCounts[a] && max > 0
               && BlocksDescribed(blocks, bytes)
    ensures Assets.Described(PipelineOf(v, a, hashes, max), blocks, bytes)
    ensures Assets.Contents(PipelineOf(v, a, hashes, max), bytes) == Pieces(v, bytes, a)
  {
    hide Flatten, BlockDescribes;
    var asset := PipelineOf(v, a, hashes, max);
    assert Assets.Contents(asset, bytes) == Pieces(v, bytes, a);
    forall c | 0 <= c < |asset.sizes|
      ensures asset.sizes[c] == |bytes(asset.hashes[c])|
    {
      assert HasChunk(v, a, c);
    }
  }

  /** In whatever order blocks are read and partial writes run: if the file of the asset is
      closed and no write job failed, it has the content of the asset. */
  lemma EveryPipelineWritesTheAsset(v: VersionIndex, a: nat, hashes: seq<nat>, max: nat, blocks: BlockStore,
                                    bytes: nat -> seq<byte>, es: seq<Assets.WriteEvent>)
    requires VersionDescribes(v, bytes) && a < |v.names| && |hashes| == v.assetChunkCounts[a] && max > 0
               && BlocksDescribed(blocks, bytes)
    requires Assets.Run(PipelineOf(v, a, hashes, max), blocks, es).Some?
    ensures var s := Assets.Run(PipelineOf(v, a, hashes, max), blocks, es).value;
            s.file.Closed? && !Assets.GoneWrong(Assets.Last(s.writers)) ==> s.file.content == AssetBytes(v, bytes, a)
  {
    hide Assets.Run, Flatten, Assets.Covers, Assets.AssetJobs, Assets.Described, VersionDescribes, BlocksDescribed;
    PipelineDescribed(v, a, hashes, max, blocks, bytes);
    Assets.EveryRunWritesTheAsset(PipelineOf(v, a, hashes, max), blocks, bytes, es);
  }

  /** Whatever the asset, if its first partial write can read its blocks and leaves chunks to
      others: a later partial write can fail in a run that reports success. The file is then
      not the asset, and no tree with this file holds the version. */
  lemma LateFailureUnnoticed(v: VersionIndex, a: nat, ix: ContentIndex, blocks: BlockStore, workerCount: nat,
                             bytes: nat -> seq<byte>)
    returns (es: seq<Assets.WriteEvent>)
    requires VersionDescribes(v, bytes) && a < |v.names| && !IsDirPath(v.names[a]) && ContentOk(ix)
    requires BlocksDescribed(blocks, bytes) && InContent(v, a, ix) && workerCount > 0
    requires var end := Assets.Gather(AssetBlocks(v, a, ix), 0, Assets.MaxReads(workerCount), []).end;
             end < v.assetChunkCounts[a] && forall c :: 0 <= c < end ==> Fetchable(ix, blocks, HashOf(v, a, c))
    ensures var asset := PipelineOf(v, a, AssetBlocks(v, a, ix), Assets.MaxReads(workerCount));
            && Assets.LosesFailure(asset, blocks, es)
            && var s := Assets.Run(asset, blocks, es).value;
               && s.file.Closed? && s.file.content != AssetBytes(v, bytes, a)
               && forall tree: Tree :: AssetPath(v, a) in tree && tree[AssetPath(v, a)].File?
                                       && tree[AssetPath(v, a)].content == s.file.content ==>
                                         !Holds(tree, v, bytes)
  {
    hide Flatten, Offset, Assets.Run, Assets.LosesFailure, Assets.Gather, Assets.Described, VersionDescribes,
         AssetBytes, BlocksDescribed, Fetchable, AssetBlocks, Pieces, InContent, Assets.Contents, Assets.Behind;
    var hashes, max := AssetBlocks(v, a, ix), Assets.MaxReads(workerCount);
    var asset, whole := PipelineOf(v, a, hashes, max), AssetBytes(v, bytes, a);
    PipelineDescribed(v, a, hashes, max, blocks, bytes);
    FirstChunksHeld(v, a, ix, blocks, max);
    var end := Assets.Gather(hashes, 0, max, []).end;
    var start := StartsInside(v, bytes, a, end);
    var last := |whole| - 1;
    var other: byte := if whole[last] == 0 then 1 else 0;
    es := Assets.LaterFailureIsLost(asset, blocks, bytes, whole[last := other]);
    BehindDiffers(whole, last, other, start);
  }

  lemma BehindDiffers(whole: seq<byte>, at: nat, other: byte, start: nat)
    requires start <= at < |whole| && whole[at] != other
    ensures Assets.Behind(whole[at := other], start) != Assets.Behind(whole, start)
  {
    assert Assets.Behind(whole[at := other], start)[at - start] == other;
    assert Assets.Behind(whole, start)[at - start] == whole[at];
  }

  /** A chunk of an asset starts before the end of the asset. */
  lemma StartsInside(v: VersionIndex, bytes: nat -> seq<byte>, a: nat, c: nat) returns (start: nat)
    requires VersionDescribes(v, bytes) && a < |v.names| && c < v.assetChunkCounts[a]
    ensures start == Offset(Pieces(v, bytes, a), c) < |AssetBytes(v, bytes, a)| == v.assetSizes[a]
  {
    hide Flatten, Offset;
    start := Offset(Pieces(v, bytes, a), c);
    PieceSlice(Pieces(v, bytes, a), c);
    assert HasChunk(v, a, c);
  }

  lemma FirstChunksHeld(v: VersionIndex, a: nat, ix: ContentIndex, blocks: BlockStore, max: nat)
    requires VersionShape(v) && a < |v.names| && ContentOk(ix) && InContent(v, a, ix) && max > 0
    requires forall c :: 0 <= c < Assets.Gather(AssetBlocks(v, a, ix), 0, max, []).end ==>
               Fetchable(ix, blocks, HashOf(v, a, c))
    ensures Assets.FirstHeld(PipelineOf(v, a, AssetBlocks(v, a, ix), max), blocks)
  {
    hide Assets.Gather, BlockHashOf;
    var asset, hashes := PipelineOf(v, a, AssetBlocks(v, a, ix), max), AssetBlocks(v, a, ix);
    forall c | 0 <= c < Assets.Gather(hashes, 0, max, []).end
      ensures hashes[c] in blocks && asset.hashes[c] in blocks[hashes[c]].chunkHashes
    {
      assert Fetchable(ix, blocks, HashOf(v, a, c));
    }
  }
}

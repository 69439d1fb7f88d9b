/** A storage: a tree of directories and files below a root, with the path
    helpers of src/longtail.c. Paths are relative to the root; a directory may be named
    with or without a slash behind it. */
module Storages {
  import opened Prelude

  datatype Entry = Dir(permissions: nat) | File(content: seq<byte>, permissions: nat)

  const USER_WRITE: nat := 128
  const GROUP_WRITE: nat := 16
  const OTHER_WRITE: nat := 2
  const NEW_PERMISSIONS: nat := 509
  const NEW_FILE_PERMISSIONS: nat := 420

  predicate IsDirPath(path: string) {
    path != [] && path[|path| - 1] == '/'
  }

  /** The path without the slash that marks a directory. */
  function Key(path: string): string {
    if IsDirPath(path) then path[..|path| - 1] else path
  }

  /** The position of the last slash, or the length of the path. */
  function LastSlash(path: string): (i: nat)
    ensures i <= |path| && (i < |path| ==> path[i] == '/') && forall j :: i < j < |path| ==> path[j] != '/'
    ensures i == |path| ==> '/' !in path
  {
    if path == [] then 0
    else if path[|path| - 1] == '/' then |path| - 1
    else
      var i := LastSlash(path[..|path| - 1]);
      if i == |path| - 1 then |path| else i
  }

  /** The directory a path lies in; the root is the empty path. */
  function Parent(path: string): (p: string)
    ensures path != [] ==> |p| < |path|
  {
    var i := LastSlash(path);
    if i == |path| then [] else path[..i]
  }

  /** A path is the directory it lies in, a slash, and a name without slashes, or just a name. */
  lemma ParentIff(path: string, p: string)
    ensures p == Parent(path) <==>
            if '/' in path then p + "/" <= path && '/' !in path[|p| + 1..] else p == []
  {
    var i := LastSlash(path);
    if '/' in path {
      assert path[..i] + "/" == path[..i + 1];
      if p + "/" <= path && '/' !in path[|p| + 1..] {
        assert path[|p|] == (p + "/")[|p|] == '/';
        assert p == (p + "/")[..|p|] == path[..|p|];
      }
    }
  }

  /** a is a directory above the path. */
  predicate Above(a: string, path: string)
    decreases |path|
  {
    a != [] && path != [] && (Parent(path) == a || Above(a, Parent(path)))
  }

  predicate HasBit(permissions: nat, bit: nat)
    requires bit > 0
  {
    permissions / bit % 2 == 1
  }

  function WithBit(permissions: nat, bit: nat): nat
    requires bit > 0
  {
    if HasBit(permissions, bit) then permissions else permissions + bit
  }

  function WithPermissions(e: Entry, permissions: nat): Entry {
    match e
    case Dir(_) => Dir(permissions)
    case File(content, _) => File(content, permissions)
  }

  /** The content with the data in it from this position on. */
  function Overwrite(content: seq<byte>, at: nat, data: seq<byte>): (r: seq<byte>)
    requires at <= |content|
    ensures |r| == if at + |data| <= |content| then |content| else at + |data|
  {
    content[..at] + data + if at + |data| <= |content| then content[at + |data|..] else []
  }

  /** Two writes, one behind the other, are one write. */
  lemma OverwriteTwice(content: seq<byte>, at: nat, a: seq<byte>, b: seq<byte>)
    requires at <= |content|
    ensures Overwrite(Overwrite(content, at, a), at + |a|, b) == Overwrite(content, at, a + b)
  {
    var once := Overwrite(content, at, a);
    assert once[..at + |a|] == content[..at] + a;
    if at + |a + b| <= |content| {
      assert once[at + |a + b|..] == content[at + |a + b|..];
    }
  }

  /** The tree with data written into one of its files. */
  ghost function AfterWrite(tree: map<string, Entry>, path: string, at: nat, data: seq<byte>): map<string, Entry>
    requires path in tree && tree[path].File? && at <= |tree[path].content|
  {
    tree[path := tree[path].(content := Overwrite(tree[path].content, at, data))]
  }

  lemma AfterTwoWrites(tree: map<string, Entry>, path: string, at: nat, a: seq<byte>, b: seq<byte>)
    requires path in tree && tree[path].File? && at <= |tree[path].content|
    ensures AfterWrite(AfterWrite(tree, path, at, a), path, at + |a|, b) == AfterWrite(tree, path, at, a + b)
  {
    OverwriteTwice(tree[path].content, at, a, b);
  }

  lemma AfterNoWrite(tree: map<string, Entry>, path: string, at: nat)
    requires path in tree && tree[path].File? && at <= |tree[path].content|
    ensures AfterWrite(tree, path, at, []) == tree
  {
    assert Overwrite(tree[path].content, at, []) == tree[path].content;
  }

  /** Every entry lies in a directory of the tree. */
  ghost predicate Rooted(tree: map<string, Entry>) {
    forall p :: p in tree ==> p != [] && (Parent(p) == [] || (Parent(p) in tree && tree[Parent(p)].Dir?))
  }

  ghost predicate EmptyIn(tree: map<string, Entry>, path: string) {
    forall p :: p in tree ==> Parent(p) != path
  }

  predicate DirIn(tree: map<string, Entry>, path: string) {
    path == [] || (path in tree && tree[path].Dir?)
  }

  /** Only contents and permissions have changed. */
  ghost predicate SameKinds(before: map<string, Entry>, after: map<string, Entry>) {
    after.Keys == before.Keys && forall p :: p in before ==> (after[p].Dir? <==> before[p].Dir?)
  }

  lemma SameKindsKeep(before: map<string, Entry>, after: map<string, Entry>, path: string)
    requires Rooted(before) && SameKinds(before, after)
    ensures Rooted(after) && (DirIn(after, path) <==> DirIn(before, path))
              && (EmptyIn(after, path) <==> EmptyIn(before, path))
  {
    hide Parent;
  }

  /** What nothing lies in can be taken out. */
  lemma RootedWithout(tree: map<string, Entry>, path: string)
    requires Rooted(tree) && EmptyIn(tree, path)
    ensures Rooted(tree - {path})
  {
    hide Parent;
  }

  class Storage {
    var tree: map<string, Entry>
    /** Entries that something else holds on to; they cannot be removed. */
    var busy: set<string>
    /** How many removals were refused. */
    ghost var refusals: nat

    constructor (busy: set<string>)
      ensures tree == map[] && this.busy == busy && refusals == 0
    {
      this.busy := busy;
      tree := map[];
      refusals := 0;
    }

    /** Meanwhile others may let go of entries. */
    method LetGo()
      modifies `busy
      ensures busy <= old(busy)
    {
      var held :| held <= busy;
      busy := held;
    }

    predicate IsDir(path: string)
      reads this
    {
      DirIn(tree, path)
    }

    predicate IsFile(path: string)
      reads this
    {
      path in tree && tree[path].File?
    }

    method GetPermissions(path: string) returns (r: Result<nat>)
      ensures r == if Key(path) in tree then Success(tree[Key(path)].permissions) else Failure(ENOENT)
    {
      r := if Key(path) in tree then Success(tree[Key(path)].permissions) else Failure(ENOENT);
    }

    method SetPermissions(path: string, permissions: nat) returns (err: Option<Errno>)
      modifies `tree
      ensures err == if Key(path) in old(tree) then None else Some(ENOENT)
      ensures tree == if err.Some? then old(tree)
                else old(tree)[Key(path) := WithPermissions(old(tree)[Key(path)], permissions)]
    {
      if Key(path) !in tree {
        return Some(ENOENT);
      }
      tree := tree[Key(path) := WithPermissions(tree[Key(path)], permissions)];
      err := None;
    }

    /** A directory is removed when it is writable, free and empty. */
    method RemoveDir(path: string) returns (err: Option<Errno>)
      modifies `tree, `refusals
      ensures err == None <==>
              && path in old(tree) && old(tree)[path].Dir? && HasBit(old(tree)[path].permissions, USER_WRITE)
              && path !in busy && EmptyIn(old(tree), path)
      ensures tree == if err.Some? then old(tree) else old(tree) - {path}
      ensures refusals == old(refusals) + if err.Some? then 1 else 0
    {
      refusals := refusals + 1;
      if path !in tree || !tree[path].Dir? {
        return Some(ENOENT);
      }
      if !HasBit(tree[path].permissions, USER_WRITE) {
        return Some(EACCES);
      }
      if path in busy {
        return Some(EACCES);
      }
      if exists p :: p in tree.Keys && Parent(p) == path {
        return Some(ENOTEMPTY);
      }
      refusals := refusals - 1;
      tree := tree - {path};
      err := None;
    }

    method RemoveFile(path: string) returns (err: Option<Errno>)
      modifies `tree, `refusals
      ensures err == None <==>
              path in old(tree) && old(tree)[path].File? && HasBit(old(tree)[path].permissions, USER_WRITE)
                  && path !in busy
      ensures tree == if err.Some? then old(tree) else old(tree) - {path}
      ensures refusals == old(refusals) + if err.Some? then 1 else 0
    {
      refusals := refusals + 1;
      if path !in tree || !tree[path].File? {
        return Some(ENOENT);
      }
      if !HasBit(tree[path].permissions, USER_WRITE) || path in busy {
        return Some(EACCES);
      }
      refusals := refusals - 1;
      tree := tree - {path};
      err := None;
    }

    method CreateDir(path: string) returns (err: Option<Errno>)
      requires path != []
      modifies `tree
      ensures err == if path in old(tree) then Some(EEXIST)
                     else if !DirIn(old(tree), Parent(path)) then Some(ENOENT) else None
      ensures tree == if err.Some? then old(tree) else old(tree)[path := Dir(NEW_PERMISSIONS)]
    {
      if path in tree {
        return Some(EEXIST);
      }
      if !IsDir(Parent(path)) {
        return Some(ENOENT);
      }
      tree := tree[path := Dir(NEW_PERMISSIONS)];
      err := None;
    }

    /** Opens a file for writing and gives it a size; a new file is created. What is in it
        then is not known. */
    method OpenWriteFile(path: string, size: nat) returns (err: Option<Errno>)
      requires path != []
      modifies `tree
      ensures err == if path in old(tree) && old(tree)[path].Dir? then Some(EINVAL)
                     else if path in old(tree) && !HasBit(old(tree)[path].permissions, USER_WRITE) then Some(EACCES)
                     else if !DirIn(old(tree), Parent(path)) then Some(ENOENT) else None
      ensures err.Some? ==> tree == old(tree)
      ensures err.None? ==>
                && path in tree && tree[path].File? && |tree[path].content| == size
                && tree[path].permissions ==
                     (if path in old(tree) then old(tree)[path].permissions else NEW_FILE_PERMISSIONS)
                && tree == old(tree)[path := tree[path]]
    {
      if path in tree && tree[path].Dir? {
        return Some(EINVAL);
      }
      if path in tree && !HasBit(tree[path].permissions, USER_WRITE) {
        return Some(EACCES);
      }
      if !IsDir(Parent(path)) {
        return Some(ENOENT);
      }
      tree := tree[path := File(seq(size, i => 0), if path in tree then tree[path].permissions
                                else NEW_FILE_PERMISSIONS)];
      err := None;
    }

    /** Writes into an open file; it grows if the data reaches beyond its end. */
    method Write(path: string, at: nat, data: seq<byte>) returns (err: Option<Errno>)
      modifies `tree
      ensures err == if path !in old(tree) || !old(tree)[path].File? then Some(EINVAL)
                     else if at > |old(tree)[path].content| then Some(EIO) else None
      ensures tree == if err.Some? then old(tree)
                      else AfterWrite(old(tree), path, at, data)
    {
      if path !in tree || !tree[path].File? {
        return Some(EINVAL);
      }
      if at > |tree[path].content| {
        return Some(EIO);
      }
      tree := tree[path := tree[path].(content := Overwrite(tree[path].content, at, data))];
      err := None;
    }
  }

  /** Creates a directory; one that exists is fine. */
  method SafeCreateDir(store: Storage, path: string) returns (err: Option<Errno>)
    requires path != []
    modifies store`tree
    ensures err == if path in old(store.tree) || DirIn(old(store.tree), Parent(path)) then None else Some(ENOENT)
    ensures store.tree == if path in old(store.tree) || err.Some? then old(store.tree)
                          else old(store.tree)[path := Dir(NEW_PERMISSIONS)]
  {
    err := store.CreateDir(path);
    if err == Some(EEXIST) || (err.Some? && store.IsDir(path)) {
      err := None;
    }
  }

  /** The tree has the old entries and new directories above the path. */
  ghost predicate GrewAbove(before: map<string, Entry>, after: map<string, Entry>, path: string) {
    && (forall p :: p in before ==> p in after && after[p] == before[p])
    && (forall p :: p in after && p !in before ==> Above(p, path) && after[p] == Dir(NEW_PERMISSIONS))
  }

  /** Creates all directories above the path, if no file is in the way. */
  method EnsureParentPathExists(store: Storage, path: string) returns (err: Option<Errno>)
    requires Rooted(store.tree)
    modifies store`tree
    ensures Rooted(store.tree) && GrewAbove(old(store.tree), store.tree, path)
    ensures (forall p :: Above(p, path) && p in old(store.tree) ==> old(store.tree)[p].Dir?) ==>
              err == None && DirIn(store.tree, Parent(path))
    decreases |path|
  {
    var delim := LastSlash(path);
    if delim == |path| {
      return None;
    }
    var dir := path[..delim];
    if store.IsDir(dir) {
      return None;
    }
    err := EnsureParentPathExists(store, dir);
    if err.Some? {
      return;
    }
    err := SafeCreateDir(store, dir);
  }
}

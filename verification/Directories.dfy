/** The directory index of the block store storage (lib/blockstorestorage): assets sorted
    by their parent directory, so that the children of a directory are adjacent. */
module Directories {
  import opened Prelude
  import opened LookupTables
  import opened Sorting
  import opened Storages

  // ----- Parents -----

  /** The directory of a path, with its slash; empty for the root. */
  function ParentDir(path: string): string {
    if Parent(Key(path)) == [] then [] else Parent(Key(path)) + "/"
  }

  /** The hash that stands for a directory; the root is 0. */
  function DirHash(dir: string, pathHash: string -> nat): nat {
    if dir == [] then 0 else pathHash(dir)
  }

  method GetParentPathHash(path: string, pathHash: string -> nat) returns (h: nat)
    ensures h == if Parent(Key(path)) == [] then 0 else pathHash(Parent(Key(path)) + "/")
  {
    var scan: nat := |path|;
    if scan > 0 && path[scan - 1] == '/' {
      scan := scan - 1;
    }
    ghost var body := path[..scan];
    var found := false;
    while scan > 0 && !found
      invariant scan <= |body|
      invariant !found ==> forall k :: scan <= k < |body| ==> body[k] != '/'
      invariant found ==> scan < |body| && body[scan] == '/' && forall k :: scan < k < |body| ==> body[k] != '/'
      decreases scan, !found
    {
      scan := scan - 1;
      if path[scan] == '/' {
        found := true;
      }
    }
    LastSlashIs(body, scan);
    assert body == Key(path);
    if scan == 0 {
      return 0;
    }
    assert path[..scan + 1] == body[..scan] + "/";
    h := pathHash(path[..scan + 1]);
  }

  lemma LastSlashIs(path: string, i: nat)
    ensures i < |path| && path[i] == '/' && (forall j :: i < j < |path| ==> path[j] != '/') ==> LastSlash(path) == i
    ensures (forall j :: 0 <= j < |path| ==> path[j] != '/') ==> LastSlash(path) == |path|
  {
  }

  // ----- Entries -----

  datatype PathEntry = PathEntry(path: string, parent: nat, asset: nat, childStart: nat, childCount: nat)

  /** By parent, directories before files, then by name. */
  function EntryOrder(nameLe: (string, string) -> bool): (PathEntry, PathEntry) -> bool {
    (a: PathEntry, b: PathEntry) =>
      a.parent < b.parent
      || (a.parent == b.parent
          && ((IsDirPath(a.path) && !IsDirPath(b.path))
              || (IsDirPath(a.path) == IsDirPath(b.path) && nameLe(a.path, b.path))))
  }

  lemma EntryOrderIsOrder(nameLe: (string, string) -> bool)
    requires IsOrder(nameLe)
    ensures IsOrder(EntryOrder(nameLe))
  {
    var le := EntryOrder(nameLe);
    forall x: PathEntry, y: PathEntry
      ensures le(x, y) || le(y, x)
    {
      assert nameLe(x.path, y.path) || nameLe(y.path, x.path);
    }
    forall x: PathEntry, y: PathEntry, z: PathEntry | le(x, y) && le(y, z)
      ensures le(x, z)
    {
      assert nameLe(x.path, y.path) && nameLe(y.path, z.path) ==> nameLe(x.path, z.path);
    }
  }

  /** How many entries have this parent. */
  function CountOf(es: seq<PathEntry>, h: nat): nat {
    if es == [] then 0 else CountOf(es[..|es| - 1], h) + if es[|es| - 1].parent == h then 1 else 0
  }

  /** The first entry with this parent, or the number of entries. */
  function FirstOf(es: seq<PathEntry>, h: nat): (i: nat)
    ensures i <= |es| && (i < |es| ==> es[i].parent == h) && forall j :: 0 <= j < i ==> es[j].parent != h
  {
    if es == [] then 0
    else
      var i := FirstOf(es[..|es| - 1], h);
      if i < |es| - 1 || es[|es| - 1].parent == h then i else |es|
  }

  lemma CountNext(es: seq<PathEntry>, p: nat, h: nat)
    requires p < |es|
    ensures CountOf(es[..p + 1], h) == CountOf(es[..p], h) + if es[p].parent == h then 1 else 0
  {
    assert es[..p + 1][..p] == es[..p];
  }

  /** In sorted entries those with the same parent are adjacent. */
  lemma {:induction false} Adjacent(es: seq<PathEntry>, h: nat, nameLe: (string, string) -> bool)
    requires SortedBy(es, EntryOrder(nameLe))
    ensures FirstOf(es, h) + CountOf(es, h) <= |es|
    ensures forall p :: 0 <= p < |es| ==> (es[p].parent == h <==> FirstOf(es, h) <= p < FirstOf(es, h) + CountOf(es, h))
    ensures CountOf(es, h) == 0 <==> FirstOf(es, h) == |es|
  {
    if es != [] {
      var last := |es| - 1;
      Adjacent(es[..last], h, nameLe);
      forall p | 0 <= p < last
        ensures es[p].parent <= es[last].parent
      {
        assert EntryOrder(nameLe)(es[p], es[last]);
      }
    }
  }

  /** Parents are listed, and hashes tell the paths apart. */
  ghost predicate IsListing(names: seq<string>, pathHash: string -> nat) {
    && |names| + 1 < NONE
    && (forall a, b :: 0 <= a < b < |names| ==> pathHash(names[a]) != pathHash(names[b]))
    && (forall a :: 0 <= a < |names| ==> pathHash(names[a]) != 0)
    && (forall a :: 0 <= a < |names| && ParentDir(names[a]) != [] ==> ParentDir(names[a]) in names)
  }

  /** The entry of an asset, before its children are known. */
  function EntryOf(names: seq<string>, a: nat, pathHash: string -> nat): PathEntry
    requires a < |names|
  {
    PathEntry(names[a], DirHash(ParentDir(names[a]), pathHash), a, 0, 0)
  }

  /** The sorted entries are those of the assets, each once. */
  ghost predicate IsSortedListing(es: seq<PathEntry>, names: seq<string>, pathHash: string -> nat,
                                  nameLe: (string, string) -> bool) {
    && |es| == |names| && SortedBy(es, EntryOrder(nameLe))
    && (forall p :: 0 <= p < |es| ==> es[p].asset < |names| && es[p] == EntryOf(names, es[p].asset, pathHash))
    && (forall p, q :: 0 <= p < q < |es| ==> es[p].asset != es[q].asset)
    && (forall a :: 0 <= a < |names| ==> Lists(es, a))
  }

  ghost predicate Lists(es: seq<PathEntry>, a: nat) {
    exists p :: 0 <= p < |es| && es[p].asset == a
  }

  method SortEntries(names: seq<string>, pathHash: string -> nat, nameLe: (string, string) -> bool)
    returns (es: seq<PathEntry>)
    requires IsOrder(nameLe)
    ensures IsSortedListing(es, names, pathHash, nameLe)
  {
    var a := new PathEntry[|names|](_ => PathEntry([], 0, 0, 0, 0));
    for i := 0 to |names|
      invariant forall k :: 0 <= k < i ==> a[k] == EntryOf(names, k, pathHash)
    {
      var parent := GetParentPathHash(names[i], pathHash);
      a[i] := PathEntry(names[i], parent, i, 0, 0);
    }
    ghost var before := a[..];
    assert a[..|names|] == before;
    EntryOrderIsOrder(nameLe);
    Qsort(a, |names|, EntryOrder(nameLe));
    es := a[..|names|];
    PermutedListing(before, es, names, pathHash, nameLe);
  }

  lemma PermutedListing(before: seq<PathEntry>, es: seq<PathEntry>, names: seq<string>, pathHash: string -> nat,
                        nameLe: (string, string) -> bool)
    requires |before| == |names| && forall k :: 0 <= k < |before| ==> before[k] == EntryOf(names, k, pathHash)
    requires multiset(before) == multiset(es) && SortedBy(es, EntryOrder(nameLe))
    ensures IsSortedListing(es, names, pathHash, nameLe)
  {
    SameElems(before, es);
    forall i, j | 0 <= i < j < |before|
      ensures before[i] != before[j]
    {
      assert before[i].asset == i && before[j].asset == j;
    }
    DistinctPermutation(before, es);
    forall p | 0 <= p < |es|
      ensures es[p].asset < |names| && es[p] == EntryOf(names, es[p].asset, pathHash)
    {
      assert es[p] in before;
    }
    forall a | 0 <= a < |names|
      ensures Lists(es, a)
    {
      assert before[a] in es;
      var p :| 0 <= p < |es| && es[p] == before[a];
    }
  }

  // ----- The lookup -----

  function HashAt(es: seq<PathEntry>, pathHash: string -> nat, i: nat): nat
    requires i <= |es|
  {
    if i == 0 then 0 else pathHash(es[i - 1].path)
  }

  /** The hash of every entry: the root, then the sorted assets. */
  function EntryHashes(es: seq<PathEntry>, pathHash: string -> nat): (hs: seq<nat>)
    ensures |hs| == |es| + 1 && hs[0] == 0 && forall p :: 0 <= p < |es| ==> hs[p + 1] == pathHash(es[p].path)
  {
    seq(|es| + 1, i requires 0 <= i <= |es| => HashAt(es, pathHash, i))
  }

  /** Where the children of a directory start, if it has any. */
  function ChildStart(es: seq<PathEntry>, h: nat): nat {
    if CountOf(es, h) == 0 then 0 else FirstOf(es, h) + 1
  }

  /** The entries with the children counted among the first p. */
  ghost predicate Counted(entries: seq<PathEntry>, es: seq<PathEntry>, pathHash: string -> nat, p: nat)
    requires p <= |es|
  {
    && |entries| == |es| + 1
    && (forall q :: 0 <= q < |es| ==> entries[q + 1].(childStart := 0, childCount := 0) == es[q])
    && forall i :: 0 <= i < |entries| ==>
         entries[i].childCount == CountOf(es[..p], EntryHashes(es, pathHash)[i])
         && entries[i].childStart == ChildStart(es[..p], EntryHashes(es, pathHash)[i])
  }

  /** The entries know their children, and the table knows the entries. */
  ghost predicate IsLookup(entries: array<PathEntry>, table: LookupTable, es: seq<PathEntry>, pathHash: string -> nat)
    reads entries, table, table.Repr
  {
    && Counted(entries[..], es, pathHash, |es|)
    && table.Valid() && table.Keys() == EntryHashes(es, pathHash) && Places(table.Values())
  }

  ghost predicate Places(values: seq<nat>) {
    forall i :: 0 <= i < |values| ==> values[i] == i
  }

  lemma HashesDiffer(es: seq<PathEntry>, names: seq<string>, pathHash: string -> nat, nameLe: (string, string) -> bool)
    requires IsListing(names, pathHash) && IsSortedListing(es, names, pathHash, nameLe)
    ensures Distinct(EntryHashes(es, pathHash))
  {
    hide EntryHashes;
    var hs := EntryHashes(es, pathHash);
    forall i, j | 0 <= i < j < |hs|
      ensures hs[i] != hs[j]
    {
      EntryHash(es, names, pathHash, nameLe, j - 1);
      if i > 0 {
        EntryHash(es, names, pathHash, nameLe, i - 1);
        NamesDiffer(names, pathHash, es[i - 1].asset, es[j - 1].asset);
      }
    }
  }

  lemma EntryHash(es: seq<PathEntry>, names: seq<string>, pathHash: string -> nat, nameLe: (string, string) -> bool,
                  p: nat)
    requires IsSortedListing(es, names, pathHash, nameLe) && p < |es|
    ensures es[p].asset < |names| && EntryHashes(es, pathHash)[p + 1] == pathHash(names[es[p].asset])
    ensures forall q :: 0 <= q < |es| && q != p ==> es[q].asset != es[p].asset
  {
    forall q | 0 <= q < |es| && q != p
      ensures es[q].asset != es[p].asset
    {
      assert es[if p < q then p else q].asset != es[if p < q then q else p].asset;
    }
    assert es[p] == EntryOf(names, es[p].asset, pathHash);
  }

  lemma NamesDiffer(names: seq<string>, pathHash: string -> nat, a: nat, b: nat)
    requires IsListing(names, pathHash) && a < |names| && b < |names| && a != b
    ensures pathHash(names[a]) != pathHash(names[b])
  {
    assert pathHash(names[if a < b then a else b]) != pathHash(names[if a < b then b else a]);
  }

  /** The parent of every entry has an entry. */
  lemma ParentListed(es: seq<PathEntry>, names: seq<string>, pathHash: string -> nat, nameLe: (string, string) -> bool,
                     p: nat)
    requires IsListing(names, pathHash) && IsSortedListing(es, names, pathHash, nameLe) && p < |es|
    ensures es[p].parent in EntryHashes(es, pathHash)
  {
    var hs, dir := EntryHashes(es, pathHash), ParentDir(names[es[p].asset]);
    assert es[p] == EntryOf(names, es[p].asset, pathHash);
    if dir == [] {
      assert hs[0] == 0;
    } else {
      var a :| 0 <= a < |names| && names[a] == dir;
      assert Lists(es, a);
      var q :| 0 <= q < |es| && es[q].asset == a;
      assert hs[q + 1] == pathHash(es[q].path);
    }
  }

  /** One more child for the entry that has its parent hash. */
  lemma CountedNext(before: seq<PathEntry>, after: seq<PathEntry>, es: seq<PathEntry>, pathHash: string -> nat, p: nat,
                    i: nat)
    requires p < |es| && Counted(before, es, pathHash, p) && Distinct(EntryHashes(es, pathHash))
    requires i < |before| && EntryHashes(es, pathHash)[i] == es[p].parent
    requires after == before[i :=
                             before[i].(childStart := if CountOf(es[..p], es[p].parent) == 0 then p + 1
                                        else before[i].childStart,
                                             childCount := before[i].childCount + 1)]
    ensures Counted(after, es, pathHash, p + 1)
  {
    hide CountOf, FirstOf, ChildStart;
    forall j | 0 <= j < |after|
      ensures after[j].childCount == CountOf(es[..p + 1], EntryHashes(es, pathHash)[j])
      ensures after[j].childStart == ChildStart(es[..p + 1], EntryHashes(es, pathHash)[j])
    {
      var h := EntryHashes(es, pathHash)[j];
      CountNext(es, p, h);
      StartNext(es, p, h);
      if j != i {
        assert h != es[p].parent;
      }
    }
    forall q | 0 <= q < |es|
      ensures after[q + 1].(childStart := 0, childCount := 0) == es[q]
    {
      assert before[q + 1].(childStart := 0, childCount := 0) == es[q];
    }
  }

  lemma StartNext(es: seq<PathEntry>, p: nat, h: nat)
    requires p < |es|
    ensures ChildStart(es[..p + 1], h) ==
            if es[p].parent == h && CountOf(es[..p], h) == 0 then p + 1 else ChildStart(es[..p], h)
  {
    CountNext(es, p, h);
    CountFirst(es[..p], h);
    assert es[..p + 1][..p] == es[..p];
  }

  lemma {:induction false} CountFirst(es: seq<PathEntry>, h: nat)
    ensures CountOf(es, h) == 0 <==> FirstOf(es, h) == |es|
    ensures CountOf(es, h) > 0 <==> exists p :: 0 <= p < |es| && es[p].parent == h
  {
    if es != [] {
      CountFirst(es[..|es| - 1], h);
    }
  }

  /** Builds the lookup: the entries, a table of their hashes, and the children of each. */
  method CreatePathLookup(names: seq<string>, pathHash: string -> nat, nameLe: (string, string) -> bool)
    returns (entries: array<PathEntry>, table: LookupTable, ghost es: seq<PathEntry>)
    requires IsListing(names, pathHash) && IsOrder(nameLe)
    ensures IsSortedListing(es, names, pathHash, nameLe) && IsLookup(entries, table, es, pathHash)
  {
    hide IsListing, IsSortedListing, Counted, LookupTable.Valid, IsOrder;
    var sorted := SortEntries(names, pathHash, nameLe);
    es := sorted;
    ListingSize(sorted, names, pathHash, nameLe);
    entries := new PathEntry[|sorted| + 1](i requires 0 <= i <= |sorted| =>
      if i == 0 then PathEntry([], 0, 0, 0, 0) else sorted[i - 1]);
    table := PutAll(EntryHashes(sorted, pathHash), seq(|sorted| + 1, i => i));
    NothingCounted(entries[..], sorted, pathHash, names, nameLe);
    CountChildren(entries, table, sorted, names, pathHash, nameLe);
  }

  lemma ListingSize(es: seq<PathEntry>, names: seq<string>, pathHash: string -> nat, nameLe: (string, string) -> bool)
    requires IsListing(names, pathHash) && IsSortedListing(es, names, pathHash, nameLe)
    ensures |es| == |names| && |names| + 1 < NONE
  {
  }

  lemma NothingCounted(entries: seq<PathEntry>, es: seq<PathEntry>, pathHash: string -> nat, names: seq<string>,
                       nameLe: (string, string) -> bool)
    requires IsSortedListing(es, names, pathHash, nameLe) && |entries| == |es| + 1
               && entries[0] == PathEntry([], 0, 0, 0, 0)
    requires forall q :: 0 <= q < |es| ==> entries[q + 1] == es[q]
    ensures Counted(entries, es, pathHash, 0)
  {
    forall i | 0 <= i < |entries|
      ensures entries[i].childCount == 0 && entries[i].childStart == 0
    {
      if i > 0 {
        var q := i - 1;
        assert entries[q + 1] == es[q];
      }
    }
  }

  /** Counts the children of every entry and notes where they start. */
  method CountChildren(entries: array<PathEntry>, table: LookupTable, es: seq<PathEntry>, ghost names: seq<string>,
                       ghost pathHash: string -> nat, ghost nameLe: (string, string) -> bool)
    requires IsListing(names, pathHash) && IsSortedListing(es, names, pathHash, nameLe) && |es| < NONE
    requires Counted(entries[..], es, pathHash, 0)
    requires table.Valid() && table.Keys() == EntryHashes(es, pathHash) && Places(table.Values())
               && entries !in table.Repr
    modifies entries
    ensures Counted(entries[..], es, pathHash, |es|)
    ensures table.Valid() && table.Keys() == EntryHashes(es, pathHash) && Places(table.Values())
  {
    hide IsListing, IsSortedListing, Counted, LookupTable.Valid, CountOf, Places, Distinct;
    HashesDiffer(es, names, pathHash, nameLe);
    var firsts := new LookupTable(|es|);
    NothingCountedYet(es);
    for p := 0 to |es|
      invariant Counted(entries[..], es, pathHash, p)
      invariant table.Valid() && table.Keys() == EntryHashes(es, pathHash) && Places(table.Values())
      invariant firsts.Valid() && fresh(firsts.Repr) && firsts.keys.Length == |es| && firsts.count <= p
      invariant forall h :: h in firsts.Keys() <==> CountOf(es[..p], h) > 0
    {
      ParentListed(es, names, pathHash, nameLe, p);
      CountChild(entries, table, firsts, es, p, pathHash);
    }
    assert es[..|es|] == es;
  }

  /** Counts entry p as a child of its parent. */
  method CountChild(entries: array<PathEntry>, table: LookupTable, firsts: LookupTable, ghost es: seq<PathEntry>,
                    p: nat, ghost pathHash: string -> nat)
    requires p < |es| && Counted(entries[..], es, pathHash, p) && es[p].parent in EntryHashes(es, pathHash)
               && Distinct(EntryHashes(es, pathHash))
    requires table.Valid() && table.Keys() == EntryHashes(es, pathHash) && Places(table.Values())
    requires firsts.Valid() && firsts.count < firsts.keys.Length && entries !in firsts.Repr
    requires forall h :: h in firsts.Keys() <==> CountOf(es[..p], h) > 0
    modifies entries, firsts.Repr
    ensures Counted(entries[..], es, pathHash, p + 1)
    ensures firsts.Valid() && firsts.count <= old(firsts.count) + 1
    ensures forall h :: h in firsts.Keys() <==> CountOf(es[..p + 1], h) > 0
  {
    hide Counted, LookupTable.Valid, CountOf, FirstMatch, Lookup, LookupTable.FirstWins, Distinct, EntryHashes, Places;
    EntryParent(entries[..], es, pathHash, p);
    var parentHash := entries[p + 1].parent;
    var parentIndex := FindEntry(table, EntryHashes(es, pathHash), parentHash);
    forall h
      ensures CountOf(es[..p + 1], h) == CountOf(es[..p], h) + if es[p].parent == h then 1 else 0
    {
      CountNext(es, p, h);
    }
    ghost var before := entries[..];
    var existing := firsts.PutUnique(parentHash, p);
    var e := entries[parentIndex];
    entries[parentIndex] := e.(childStart := if existing.None? then p + 1
                               else e.childStart, childCount := e.childCount + 1);
    CountedNext(before, entries[..], es, pathHash, p, parentIndex);
  }

  lemma NothingCountedYet(es: seq<PathEntry>)
    ensures forall h :: CountOf(es[..0], h) == 0
  {
  }

  lemma EntryParent(entries: seq<PathEntry>, es: seq<PathEntry>, pathHash: string -> nat, p: nat)
    requires p < |es| && Counted(entries, es, pathHash, p)
    ensures |entries| == |es| + 1 && entries[p + 1].parent == es[p].parent
  {
    assert entries[p + 1].(childStart := 0, childCount := 0) == es[p];
  }

  method FindEntry(table: LookupTable, ghost hs: seq<nat>, h: nat) returns (i: nat)
    requires table.Valid() && table.Keys() == hs && Places(table.Values()) && h in hs
    ensures i < |hs| && hs[i] == h
  {
    hide LookupTable.Valid, FirstMatch;
    FirstMatchNone(hs, h);
    var found := table.Get(h);
    i := found.value;
  }

  // ----- Iterating over a directory -----

  class Iterator {
    var offset: nat
    var end: nat

    constructor (start: nat, count: nat)
      ensures offset == start && end == start + count
    {
      offset := start;
      end := start + count;
    }

    /** Moves to the next child; ENOENT when there is none. */
    method FindNext() returns (err: Option<Errno>)
      requires offset <= end
      modifies this
      ensures old(offset) == end ==> err == Some(EINVAL) && offset == end
      ensures old(offset) < end ==> offset == old(offset) + 1 && err == (if offset == end then Some(ENOENT) else None)
      ensures end == old(end)
    {
      if offset == end {
        return Some(EINVAL);
      }
      offset := offset + 1;
      if offset == end {
        return Some(ENOENT);
      }
      err := None;
    }
  }

  /** The path as it is looked up: with its slash, unless it is the root. */
  function DirPath(path: string): string {
    if path == [] || IsDirPath(path) then path else path + "/"
  }

  /** Starts at the first child of a directory; ENOENT if it is unknown or empty. */
  method StartFind(entries: array<PathEntry>, table: LookupTable, ghost es: seq<PathEntry>, path: string,
                   pathHash: string -> nat)
    returns (r: Result<Iterator>)
    requires IsLookup(entries, table, es, pathHash)
    ensures var h := DirHash(DirPath(path), pathHash);
            && (r.Success? <==> h in EntryHashes(es, pathHash) && CountOf(es, h) > 0)
            && (r.Success? ==>
                  && fresh(r.value) && r.value.offset == FirstOf(es, h) + 1
                  && r.value.end == FirstOf(es, h) + 1 + CountOf(es, h))
    ensures r.Failure? ==> r.errno == ENOENT
  {
    hide LookupTable.Valid, FirstMatch, CountOf, FirstOf, DirPath, DirHash;
    assert es[..|es|] == es;
    var hash := DirHash(DirPath(path), pathHash);
    FirstMatchNone(EntryHashes(es, pathHash), hash);
    var index := table.Get(hash);
    if index.None? {
      return Failure(ENOENT);
    }
    var e := entries[index.value];
    assert e == entries[..][index.value];
    if e.childCount == 0 {
      return Failure(ENOENT);
    }
    var it := new Iterator(e.childStart, e.childCount);
    r := Success(it);
  }

  /** The asset lies in the directory. */
  ghost predicate IsChild(names: seq<string>, a: nat, dir: string, pathHash: string -> nat) {
    a < |names| && DirHash(ParentDir(names[a]), pathHash) == DirHash(dir, pathHash)
  }

  /** The asset lies directly in the directory; a slash behind its path makes no difference. */
  ghost predicate LiesIn(names: seq<string>, a: nat, path: string) {
    a < |names| && Parent(Key(names[a])) == Key(path)
  }

  /** The root, or a directory with a hash that is told from those of the assets. */
  ghost predicate PathTold(names: seq<string>, path: string, pathHash: string -> nat) {
    path == []
    || (Key(path) != [] && pathHash(Key(path) + "/") != 0
        && forall k :: 0 <= k < |names| && pathHash(names[k]) == pathHash(Key(path) + "/") ==>
             names[k] == Key(path) + "/")
  }

  /** Then its children are what lies in it. */
  lemma ChildByPath(names: seq<string>, a: nat, path: string, pathHash: string -> nat)
    requires IsListing(names, pathHash) && a < |names| && PathTold(names, path, pathHash)
    ensures IsChild(names, a, DirPath(path), pathHash) <==> LiesIn(names, a, path)
  {
    hide Parent;
    DirPathIs(path);
    var parent := ParentDir(names[a]);
    if parent != [] {
      var p :| 0 <= p < |names| && names[p] == parent;
      assert LiesIn(names, a, path) ==> parent == Key(path) + "/";
      if parent == Key(path) + "/" {
        assert Parent(Key(names[a])) == parent[..|parent| - 1] == Key(path);
      }
    }
  }

  lemma DirPathIs(path: string)
    ensures path == [] || Key(path) != [] ==> DirPath(path) == if Key(path) == [] then [] else Key(path) + "/"
  {
  }

  /** Directories that are listed are told. */
  lemma ListedIsTold(names: seq<string>, path: string, pathHash: string -> nat)
    requires IsListing(names, pathHash) && Key(path) != [] && Key(path) + "/" in names
    ensures PathTold(names, path, pathHash)
  {
    var d :| 0 <= d < |names| && names[d] == Key(path) + "/";
    forall k | 0 <= k < |names| && k != d
      ensures pathHash(names[k]) != pathHash(names[d])
    {
      NamesDiffer(names, pathHash, k, d);
    }
  }

  /** The list is of these assets, each once, directories before files, then by name. */
  ghost predicate ListsInOrder(list: seq<nat>, names: seq<string>, nameLe: (string, string) -> bool) {
    && Distinct(list) && (forall i :: 0 <= i < |list| ==> list[i] < |names|)
    && forall i, j :: 0 <= i < j < |list| && list[i] < |names| && list[j] < |names| ==>
         && (IsDirPath(names[list[j]]) ==> IsDirPath(names[list[i]]))
         && (IsDirPath(names[list[i]]) == IsDirPath(names[list[j]]) ==> nameLe(names[list[i]], names[list[j]]))
  }

  /** The list has every child of the directory. */
  ghost predicate ListsChildren(list: seq<nat>, names: seq<string>, dir: string, pathHash: string -> nat) {
    forall a: nat :: a in list <==> IsChild(names, a, dir, pathHash)
  }

  lemma ChildrenByPath(list: seq<nat>, names: seq<string>, path: string, pathHash: string -> nat)
    requires IsListing(names, pathHash) && PathTold(names, path, pathHash)
    ensures ListsChildren(list, names, DirPath(path), pathHash) ==>
              forall a: nat :: a in list <==> LiesIn(names, a, path)
    ensures (exists a :: IsChild(names, a, DirPath(path), pathHash)) <==> exists a :: LiesIn(names, a, path)
  {
    hide IsListing, PathTold, DirPath;
    forall a: nat
      ensures IsChild(names, a, DirPath(path), pathHash) <==> LiesIn(names, a, path)
    {
      if a < |names| {
        ChildByPath(names, a, path, pathHash);
      }
    }
  }

  /** Iterates over a directory: exactly what lies in it is visited, each asset once,
      directories before files, then by name. */
  method ListDirectory(entries: array<PathEntry>, table: LookupTable, ghost es: seq<PathEntry>, path: string,
                       ghost names: seq<string>, pathHash: string -> nat, ghost nameLe: (string, string) -> bool)
    returns (r: Result<seq<nat>>)
    requires IsListing(names, pathHash) && IsSortedListing(es, names, pathHash, nameLe)
               && IsLookup(entries, table, es, pathHash)
    ensures r == Failure(ENOENT) <==> forall a :: !IsChild(names, a, DirPath(path), pathHash)
    ensures r.Failure? ==> r.errno == ENOENT
    ensures r.Success? ==>
              ListsChildren(r.value, names, DirPath(path), pathHash) && ListsInOrder(r.value, names, nameLe)
    ensures PathTold(names, path, pathHash) ==>
              && (r == Failure(ENOENT) <==> forall a :: !LiesIn(names, a, path))
              && (r.Success? ==> forall a: nat :: a in r.value <==> LiesIn(names, a, path))
  {
    hide LookupTable.Valid, CountOf, FirstOf, IsListing, IsSortedListing, Counted, EntryHashes, IsLookup, IsChild,
         ListsChildren, ListsInOrder, DirHash, DirPath, LiesIn, PathTold;
    ghost var h := DirHash(DirPath(path), pathHash);
    ChildrenAdjacent(es, names, pathHash, nameLe, path);
    var it := StartFind(entries, table, es, path, pathHash);
    if PathTold(names, path, pathHash) {
      ChildrenByPath([], names, path, pathHash);
    }
    if it.Failure? {
      return Failure(ENOENT);
    }
    var position := it.value;
    var list: seq<nat>, err := [], None;
    while err == None
      invariant position.end == FirstOf(es, h) + 1 + CountOf(es, h) && FirstOf(es, h) < position.offset <= position.end
                  && fresh(position)
      invariant IsLookup(entries, table, es, pathHash)
      invariant err == None <==> position.offset < position.end
      invariant |list| == position.offset - FirstOf(es, h) - 1
      invariant forall i :: 0 <= i < |list| ==> list[i] == es[FirstOf(es, h) + i].asset
      decreases position.end - position.offset
    {
      EntryAsset(entries, table, es, pathHash, position.offset - 1);
      list := list + [entries[position.offset].asset];
      err := position.FindNext();
    }
    ListedChildren(es, names, pathHash, nameLe, path, list);
    if PathTold(names, path, pathHash) {
      ChildrenByPath(list, names, path, pathHash);
    }
    r := Success(list);
  }

  lemma EntryAsset(entries: array<PathEntry>, table: LookupTable, es: seq<PathEntry>, pathHash: string -> nat, p: nat)
    requires IsLookup(entries, table, es, pathHash) && p < |es|
    ensures p + 1 < entries.Length && entries[p + 1].asset == es[p].asset
  {
    assert entries[..][p + 1].(childStart := 0, childCount := 0) == es[p];
  }

  /** The children of a directory are the adjacent entries that have its hash; a directory
      with children has an entry. */
  lemma ChildrenAdjacent(es: seq<PathEntry>, names: seq<string>, pathHash: string -> nat,
                         nameLe: (string, string) -> bool, path: string)
    requires IsListing(names, pathHash) && IsSortedListing(es, names, pathHash, nameLe)
    ensures var h := DirHash(DirPath(path), pathHash);
            && FirstOf(es, h) + CountOf(es, h) <= |es|
            && ((h in EntryHashes(es, pathHash) && CountOf(es, h) > 0) <==>
                exists a :: IsChild(names, a, DirPath(path), pathHash))
  {
    hide IsListing, EntryHashes;
    var dir := DirPath(path);
    var h := DirHash(dir, pathHash);
    Adjacent(es, h, nameLe);
    CountFirst(es, h);
    if CountOf(es, h) > 0 {
      var p :| 0 <= p < |es| && es[p].parent == h;
      assert es[p] == EntryOf(names, es[p].asset, pathHash);
      assert IsChild(names, es[p].asset, dir, pathHash);
      ParentListed(es, names, pathHash, nameLe, p);
    }
    if a :| IsChild(names, a, dir, pathHash) {
      assert Lists(es, a);
      var p :| 0 <= p < |es| && es[p].asset == a;
      assert es[p] == EntryOf(names, a, pathHash);
    }
  }

  lemma ListedChildren(es: seq<PathEntry>, names: seq<string>, pathHash: string -> nat,
                       nameLe: (string, string) -> bool, path: string, list: seq<nat>)
    requires IsSortedListing(es, names, pathHash, nameLe)
    requires var h := DirHash(DirPath(path), pathHash);
             && |list| == CountOf(es, h) && FirstOf(es, h) + CountOf(es, h) <= |es|
             && forall i :: 0 <= i < |list| ==> list[i] == es[FirstOf(es, h) + i].asset
    ensures ListsChildren(list, names, DirPath(path), pathHash) && ListsInOrder(list, names, nameLe)
  {
    hide CountOf, FirstOf, DirHash, DirPath, IsSortedListing, IsChild;
    var dir := DirPath(path);
    var h := DirHash(dir, pathHash);
    var first := FirstOf(es, h);
    forall a: nat
      ensures a in list <==> IsChild(names, a, dir, pathHash)
    {
      IsListedIff(es, names, pathHash, nameLe, dir, list, a);
    }
    forall i | 0 <= i < |list|
      ensures list[i] < |names|
    {
      assert list[i] in list;
      assert IsChild(names, list[i], dir, pathHash);
      IsAsset(names, list[i], dir, pathHash);
    }
    forall i, j | 0 <= i < j < |list|
      ensures list[i] != list[j]
      ensures list[i] < |names| && list[j] < |names| && (IsDirPath(names[list[j]]) ==> IsDirPath(names[list[i]]))
      ensures IsDirPath(names[list[i]]) == IsDirPath(names[list[j]]) ==> nameLe(names[list[i]], names[list[j]])
    {
      InOrder(es, names, pathHash, nameLe, h, first + i, first + j);
    }
  }

  lemma IsAsset(names: seq<string>, a: nat, dir: string, pathHash: string -> nat)
    requires IsChild(names, a, dir, pathHash)
    ensures a < |names|
  {
  }

  lemma EntryIsChild(es: seq<PathEntry>, names: seq<string>, pathHash: string -> nat, nameLe: (string, string) -> bool,
                     dir: string, p: nat)
    requires IsSortedListing(es, names, pathHash, nameLe) && p < |es|
    ensures IsChild(names, es[p].asset, dir, pathHash) <==> es[p].parent == DirHash(dir, pathHash)
  {
    hide DirHash;
    assert es[p] == EntryOf(names, es[p].asset, pathHash);
  }

  lemma EntryOfAsset(es: seq<PathEntry>, names: seq<string>, pathHash: string -> nat, nameLe: (string, string) -> bool,
                     a: nat) returns (p: nat)
    requires IsSortedListing(es, names, pathHash, nameLe) && a < |names|
    ensures p < |es| && es[p].asset == a
  {
    assert Lists(es, a);
    p :| 0 <= p < |es| && es[p].asset == a;
  }

  lemma IsListedIff(es: seq<PathEntry>, names: seq<string>, pathHash: string -> nat, nameLe: (string, string) -> bool,
                    dir: string, list: seq<nat>, a: nat)
    requires IsSortedListing(es, names, pathHash, nameLe)
    requires var h := DirHash(dir, pathHash);
             && |list| == CountOf(es, h) && FirstOf(es, h) + CountOf(es, h) <= |es|
             && forall i :: 0 <= i < |list| ==> list[i] == es[FirstOf(es, h) + i].asset
    ensures a in list <==> IsChild(names, a, dir, pathHash)
  {
    hide CountOf, FirstOf, DirHash, ParentDir, SortedBy, EntryOrder;
    var h := DirHash(dir, pathHash);
    var first := FirstOf(es, h);
    Adjacent(es, h, nameLe);
    hide IsSortedListing;
    if a in list {
      var i :| 0 <= i < |list| && list[i] == a;
      EntryIsChild(es, names, pathHash, nameLe, dir, first + i);
    }
    if IsChild(names, a, dir, pathHash) {
      var p := EntryOfAsset(es, names, pathHash, nameLe, a);
      EntryIsChild(es, names, pathHash, nameLe, dir, p);
      assert list[p - first] == a;
    }
  }

  lemma InOrder(es: seq<PathEntry>, names: seq<string>, pathHash: string -> nat, nameLe: (string, string) -> bool,
                h: nat, p: nat, q: nat)
    requires IsSortedListing(es, names, pathHash, nameLe) && p < q < |es|
    requires FirstOf(es, h) <= p && q < FirstOf(es, h) + CountOf(es, h)
    ensures es[p].asset != es[q].asset && es[p].asset < |names| && es[q].asset < |names|
    ensures IsDirPath(names[es[q].asset]) ==> IsDirPath(names[es[p].asset])
    ensures IsDirPath(names[es[p].asset]) == IsDirPath(names[es[q].asset]) ==>
              nameLe(names[es[p].asset], names[es[q].asset])
  {
    hide CountOf, FirstOf;
    Adjacent(es, h, nameLe);
    assert es[p].parent == h && es[q].parent == h;
    assert es[p] == EntryOf(names, es[p].asset, pathHash) && es[q] == EntryOf(names, es[q].asset, pathHash);
    assert EntryOrder(nameLe)(es[p], es[q]);
  }
}

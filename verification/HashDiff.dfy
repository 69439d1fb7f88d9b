/** The hash difference of src/longtail.c: sort, make unique in place, merge, and put
    the added hashes back into their original order. */
module HashDiff {
  import opened Prelude
  import opened LookupTables
  import opened Sorting

  /** The order-preserving filter "not among the references". */
  function NotIn(news: seq<nat>, refs: seq<nat>): (r: seq<nat>)
    ensures forall x :: x in r <==> x in news && x !in refs
    ensures |r| <= |news|
  {
    if news == [] then []
    else if news[0] in refs then NotIn(news[1..], refs)
    else [news[0]] + NotIn(news[1..], refs)
  }

  lemma {:induction false} NotInSnoc(news: seq<nat>, x: nat, refs: seq<nat>)
    ensures NotIn(news + [x], refs) == NotIn(news, refs) + if x in refs then [] else [x]
  {
    if news == [] {
      assert [x][1..] == [] && [] + [x] == [x];
    } else {
      assert (news + [x])[1..] == news[1..] + [x];
      NotInSnoc(news[1..], x, refs);
    }
  }

  /** The places of the hashes that are not among the references. */
  ghost function Unknown(news: seq<nat>, refs: seq<nat>): set<nat> {
    set i: nat | i < |news| && news[i] !in refs
  }

  /** They are kept in order, as often as they are listed. */
  lemma {:induction false} NotInSelects(news: seq<nat>, refs: seq<nat>)
    ensures Selects(NotIn(news, refs), news, Unknown(news, refs))
  {
    hide NotIn, Unknown, Selects;
    if news == [] {
      NoneUnknown(refs);
      NothingSelected(news);
    } else {
      var some, x := news[..|news| - 1], news[|news| - 1];
      assert news == some + [x];
      NotInSelects(some, refs);
      UnknownSnoc(some, x, refs);
      SelectsNext(NotIn(some, refs), some, Unknown(some, refs), x);
      NotInSnoc(some, x, refs);
      assert NotIn(some, refs) + [] == NotIn(some, refs) && Unknown(some, refs) + {} == Unknown(some, refs);
    }
  }

  lemma NoneUnknown(refs: seq<nat>)
    ensures Unknown([], refs) == {} && NotIn([], refs) == []
  {
  }

  lemma UnknownSnoc(news: seq<nat>, x: nat, refs: seq<nat>)
    ensures Unknown(news + [x], refs) == Unknown(news, refs) + if x in refs then {} else {|news|}
  {
    assert forall i: nat :: i < |news| ==> (news + [x])[i] == news[i];
  }

  /** Only which of the hashes are known matters. */
  lemma {:induction false} NotInSame(news: seq<nat>, refs: seq<nat>, others: seq<nat>)
    requires forall h :: h in news ==> (h in refs <==> h in others)
    ensures NotIn(news, refs) == NotIn(news, others)
  {
    if news != [] {
      NotInSame(news[1..], refs, others);
    }
  }

  lemma {:induction false} NotInDistinct(news: seq<nat>, refs: seq<nat>)
    requires Distinct(news)
    ensures Distinct(NotIn(news, refs))
  {
    if news != [] {
      NotInDistinct(news[1..], refs);
      assert news[0] !in news[1..];
    }
  }

  function Le(): (nat, nat) -> bool {
    (x: nat, y: nat) => x <= y
  }

  ghost predicate Ascending(s: seq<nat>) {
    forall i, j :: 0 <= i < j < |s| ==> s[i] < s[j]
  }

  lemma {:induction false} DistinctCount<T>(s: seq<T>)
    requires Distinct(s)
    ensures |Elems(s)| == |s|
  {
    if s != [] {
      var last := |s| - 1;
      DistinctCount(s[..last]);
      assert s == s[..last] + [s[last]];
      assert Elems(s) == Elems(s[..last]) + {s[last]};
      assert s[last] !in s[..last];
    } else {
      assert Elems(s) == {};
    }
  }

  /** Drops every element that equals the one before it. */
  function Dedup(s: seq<nat>): (r: seq<nat>)
    ensures |r| <= |s| && (s != [] ==> r != [] && r[|r| - 1] == s[|s| - 1])
  {
    if s == [] then []
    else
      var last := |s| - 1;
      if last > 0 && s[last - 1] == s[last] then Dedup(s[..last]) else Dedup(s[..last]) + [s[last]]
  }

  lemma DedupNothing()
    ensures Dedup([]) == []
  {
  }

  lemma DedupNext(s: seq<nat>, r: nat)
    requires r < |s|
    ensures Dedup(s[..r + 1]) ==
            if r > 0 && s[r - 1] == s[r] then Dedup(s[..r]) else Dedup(s[..r]) + [s[r]]
  {
    assert s[..r + 1][..r] == s[..r];
  }

  lemma {:induction false} DedupElems(s: seq<nat>)
    ensures Elems(Dedup(s)) == Elems(s)
  {
    hide Elems;
    if s != [] {
      var last := |s| - 1;
      DedupElems(s[..last]);
      assert s == s[..last] + [s[last]];
      ElemsSnoc(s[..last], s[last]);
      ElemsSnoc(Dedup(s[..last]), s[last]);
      if last > 0 && s[last - 1] == s[last] {
        ElemsHas(s[..last], last - 1);
      }
    }
  }

  lemma ElemsHas(s: seq<nat>, i: nat)
    requires i < |s|
    ensures Elems(s) + {s[i]} == Elems(s)
  {
  }

  lemma {:induction false} DedupAscending(s: seq<nat>)
    requires SortedBy(s, Le())
    ensures Ascending(Dedup(s))
  {
    if s != [] {
      var last := |s| - 1;
      DedupAscending(s[..last]);
      if last > 0 && s[last - 1] != s[last] {
        assert Le()(s[last - 1], s[last]);
      }
    }
  }

  /** Skips the elements that equal the one before r. */
  method SkipRepeats(a: array<nat>, ghost s: seq<nat>, r: nat, count: nat) returns (r': nat)
    requires 0 < r <= count == |s| <= a.Length && a[r - 1] == s[r - 1] && a[r..count] == s[r..]
    ensures r <= r' <= count && Dedup(s[..r']) == Dedup(s[..r])
    ensures r' < count ==> s[r' - 1] != s[r']
  {
    hide Dedup;
    r' := r;
    while r' < count && a[r' - 1] == a[r']
      invariant r <= r' <= count && a[r' - 1] == s[r' - 1]
      invariant Dedup(s[..r']) == Dedup(s[..r])
    {
      assert a[r'] == a[r..count][r' - r] == s[r'];
      DedupNext(s, r');
      r' := r' + 1;
    }
    assert r' < count ==> a[r'] == a[r..count][r' - r] == s[r'];
  }

  /** Moves the element at r behind those that are kept. */
  method KeepNext(a: array<nat>, ghost s: seq<nat>, w: nat, r: nat, count: nat)
    requires w <= r < count == |s| <= a.Length && a[r..count] == s[r..]
    modifies a
    ensures a[..w + 1] == old(a[..w]) + [s[r]] && a[r] == s[r] && a[r + 1..count] == s[r + 1..]
  {
    assert a[r] == a[r..count][0] && a[r + 1..count] == a[r..count][1..];
    a[w] := a[r];
  }

  /** Removes repeats from a sorted array in place. */
  method MakeUnique(a: array<nat>, count: nat) returns (w: nat)
    requires count <= a.Length && SortedBy(a[..count], Le())
    modifies a
    ensures w <= count && Ascending(a[..w])
    ensures Elems(a[..w]) == Elems(old(a[..count]))
  {
    hide Dedup, Elems, Ascending, SortedBy, Le;
    ghost var s := a[..count];
    DedupNothing();
    w := 0;
    var r := 0;
    while r < count
      invariant w <= r <= count && a[r..count] == s[r..]
      invariant a[..w] == Dedup(s[..r])
      invariant 0 < r < count ==> s[r - 1] != s[r]
    {
      DedupNext(s, r);
      KeepNext(a, s, w, r, count);
      r := r + 1;
      r := SkipRepeats(a, s, r, count);
      w := w + 1;
    }
    assert s[..count] == s;
    DedupAscending(s);
    DedupElems(s);
  }

  // ----- The merge -----

  /** `part` lists in ascending order what is in a and not in b. */
  ghost predicate IsDifference(part: seq<nat>, a: seq<nat>, b: seq<nat>) {
    Ascending(part) && forall x :: x in part <==> x in a && x !in b
  }

  /** Everything in a[..i] and b[..j] is below the rest of both. */
  ghost predicate Frontier(a: seq<nat>, i: nat, b: seq<nat>, j: nat) {
    && i <= |a| && j <= |b| && Ascending(a) && Ascending(b)
    && (forall p, q :: 0 <= p < i && j <= q < |b| ==> a[p] < b[q])
    && (forall p, q :: 0 <= p < j && i <= q < |a| ==> b[p] < a[q])
  }

  lemma DifferenceNext(part: seq<nat>, a: seq<nat>, i: nat, b: seq<nat>)
    requires i < |a| && Ascending(a) && IsDifference(part, a[..i], b)
    ensures IsDifference(if a[i] in b then part else part + [a[i]], a[..i + 1], b)
  {
    assert a[..i + 1] == a[..i] + [a[i]];
    forall k | 0 <= k < |part|
      ensures part[k] < a[i]
    {
      assert part[k] in a[..i];
    }
  }

  /** At the frontier, the smaller head is missing on the other side. */
  lemma SmallerHeadIsMissing(a: seq<nat>, i: nat, b: seq<nat>, j: nat)
    requires Frontier(a, i, b, j) && i < |a| && (j < |b| ==> a[i] < b[j])
    ensures a[i] !in b && Frontier(a, i + 1, b, j)
  {
    forall q | 0 <= q < |b|
      ensures a[i] != b[q]
    {
      if q >= j {
        assert j == q || b[j] < b[q];
      }
    }
  }

  /** The state of a merge: how far it got and what it listed. */
  ghost predicate Merging(refs: seq<nat>, ri: nat, news: seq<nat>, ni: nat, added: seq<nat>, removed: seq<nat>) {
    && Frontier(refs, ri, news, ni) && |added| <= ni && |removed| <= ri
    && IsDifference(added, news[..ni], refs) && IsDifference(removed, refs[..ri], news)
  }

  lemma MergeBoth(refs: seq<nat>, ri: nat, news: seq<nat>, ni: nat, added: seq<nat>, removed: seq<nat>)
    requires Merging(refs, ri, news, ni, added, removed)
    requires ri < |refs| && ni < |news| && refs[ri] == news[ni]
    ensures Merging(refs, ri + 1, news, ni + 1, added, removed)
  {
    DifferenceNext(added, news, ni, refs);
    DifferenceNext(removed, refs, ri, news);
  }

  lemma MergeRemoved(refs: seq<nat>, ri: nat, news: seq<nat>, ni: nat, added: seq<nat>, removed: seq<nat>)
    requires Merging(refs, ri, news, ni, added, removed)
    requires ri < |refs| && (ni < |news| ==> refs[ri] < news[ni])
    ensures Merging(refs, ri + 1, news, ni, added, removed + [refs[ri]])
  {
    hide Frontier;
    FrontierSwap(refs, ri, news, ni);
    SmallerHeadIsMissing(refs, ri, news, ni);
    DifferenceNext(removed, refs, ri, news);
  }

  lemma MergeAdded(refs: seq<nat>, ri: nat, news: seq<nat>, ni: nat, added: seq<nat>, removed: seq<nat>)
    requires Merging(refs, ri, news, ni, added, removed)
    requires ni < |news| && (ri < |refs| ==> news[ni] < refs[ri])
    ensures Merging(refs, ri, news, ni + 1, added + [news[ni]], removed)
  {
    hide Frontier;
    FrontierSwap(refs, ri, news, ni);
    SmallerHeadIsMissing(news, ni, refs, ri);
    FrontierSwap(news, ni + 1, refs, ri);
    DifferenceNext(added, news, ni, refs);
  }

  lemma FrontierSwap(a: seq<nat>, i: nat, b: seq<nat>, j: nat)
    requires Frontier(a, i, b, j)
    ensures Frontier(b, j, a, i) && Ascending(a) && Ascending(b)
  {
  }

  lemma MergeStart(refs: seq<nat>, news: seq<nat>)
    requires Ascending(refs) && Ascending(news)
    ensures Merging(refs, 0, news, 0, [], [])
  {
  }

  lemma MergeEnd(refs: seq<nat>, news: seq<nat>, added: seq<nat>, removed: seq<nat>)
    requires Merging(refs, |refs|, news, |news|, added, removed)
    ensures IsDifference(added, news, refs) && |added| <= |news|
    ensures IsDifference(removed, refs, news) && |removed| <= |refs|
  {
    assert news[..|news|] == news && refs[..|refs|] == refs;
  }

  /** Writes one hash to the removed list, if there is one. */
  method Record(removed: array?<nat>, ghost part: seq<nat>, count: nat, hash: nat)
    requires count == |part| && (removed != null ==> count < removed.Length && removed[..count] == part)
    modifies if removed != null then {removed} else {}
    ensures removed != null ==> removed[..count + 1] == part + [hash]
  {
    if removed != null {
      removed[count] := hash;
    }
  }

  /** Splits two ascending lists into what is only in the news and what is only in
      the references. The removed list is optional. */
  method Merge(refs: seq<nat>, news: seq<nat>, added: array<nat>, removed: array?<nat>)
    returns (addedCount: nat, removedCount: nat)
    requires Ascending(refs) && Ascending(news) && added.Length >= |news|
    requires removed != null ==> removed.Length >= |refs| && removed != added
    modifies added, if removed != null then {removed} else {}
    ensures addedCount <= |news| && IsDifference(added[..addedCount], news, refs)
    ensures removed != null ==> removedCount <= |refs| && IsDifference(removed[..removedCount], refs, news)
  {
    hide Merging, IsDifference, Ascending;
    addedCount, removedCount := 0, 0;
    var ni, ri := 0, 0;
    ghost var gone: seq<nat> := [];
    MergeStart(refs, news);
    assert added[..0] == [];
    while ri < |refs| && ni < |news|
      invariant ri <= |refs| && ni <= |news| && addedCount <= ni && removedCount == |gone| <= ri
      invariant Merging(refs, ri, news, ni, added[..addedCount], gone)
      invariant removed != null ==> removed[..removedCount] == gone
      decreases |refs| - ri + |news| - ni
    {
      ghost var part := added[..addedCount];
      if refs[ri] == news[ni] {
        MergeBoth(refs, ri, news, ni, part, gone);
        ri, ni := ri + 1, ni + 1;
      } else if refs[ri] < news[ni] {
        MergeRemoved(refs, ri, news, ni, part, gone);
        Record(removed, gone, removedCount, refs[ri]);
        gone := gone + [refs[ri]];
        removedCount, ri := removedCount + 1, ri + 1;
        assert added[..addedCount] == part;
      } else {
        MergeAdded(refs, ri, news, ni, part, gone);
        added[addedCount] := news[ni];
        addedCount, ni := addedCount + 1, ni + 1;
        assert added[..addedCount] == part + [news[ni - 1]];
      }
    }
    while ni < |news|
      invariant ri <= |refs| && ni <= |news| && addedCount <= ni && (ri == |refs| || ni == |news|)
      invariant Merging(refs, ri, news, ni, added[..addedCount], gone)
      invariant removed != null ==> removed[..removedCount] == gone
    {
      MergeAdded(refs, ri, news, ni, added[..addedCount], gone);
      ghost var part := added[..addedCount];
      added[addedCount] := news[ni];
      addedCount, ni := addedCount + 1, ni + 1;
      assert added[..addedCount] == part + [news[ni - 1]];
    }
    ghost var part := added[..addedCount];
    while ri < |refs|
      invariant ri <= |refs| && ni == |news| && removedCount == |gone| <= ri
      invariant Merging(refs, ri, news, ni, part, gone) && added[..addedCount] == part
      invariant removed != null ==> removed[..removedCount] == gone
    {
      MergeRemoved(refs, ri, news, ni, part, gone);
      Record(removed, gone, removedCount, refs[ri]);
      gone := gone + [refs[ri]];
      removedCount, ri := removedCount + 1, ri + 1;
      assert added[..addedCount] == part;
    }
    MergeEnd(refs, news, part, gone);
  }

  // ----- The whole difference -----

  lemma AscendingCount(s: seq<nat>)
    requires Ascending(s)
    ensures |Elems(s)| == |s|
  {
    DistinctCount(s);
  }

  /** A sorted copy of the hashes without repeats. */
  method SortedUnique(hashes: seq<nat>) returns (u: seq<nat>)
    ensures Ascending(u) && |u| == |Elems(hashes)| && forall x :: x in u <==> x in hashes
  {
    var tmp := new nat[|hashes|](i requires 0 <= i < |hashes| => hashes[i]);
    assert tmp[..|hashes|] == hashes;
    Qsort(tmp, |hashes|, Le());
    SameElems(hashes, tmp[..|hashes|]);
    assert Elems(tmp[..|hashes|]) == Elems(hashes);
    var w := MakeUnique(tmp, |hashes|);
    u := tmp[..w];
    AscendingCount(u);
    assert forall x :: x in u <==> x in Elems(u);
  }

  /** Rewrites the added list in the order of the first n new hashes. */
  method Reorder(news: seq<nat>, n: nat, ghost refs: seq<nat>, added: array<nat>, addedCount: nat)
    returns (written: nat)
    requires n <= |news| <= added.Length && addedCount <= |news| < NONE
    requires forall x :: x in added[..addedCount] <==> x in news && x !in refs
    modifies added
    ensures written <= n && added[..written] == NotIn(news[..n], refs)
  {
    hide LookupTable.Valid, NotIn, FirstMatch, Ascending, LookupTable.FirstWins;
    ghost var part := added[..addedCount];
    var lookup := PutAll(added[..addedCount], seq(addedCount, i => i));
    written := 0;
    NotInNothing(refs);
    for i := 0 to n
      invariant lookup.Valid() && lookup.Keys() == part
      invariant written <= i && added[..written] == NotIn(news[..i], refs)
    {
      NotInNext(news, i, refs);
      written := WriteIfAdded(lookup, news[i], added, written);
    }
  }

  /** Writes a hash that the table knows behind those that are written. */
  method WriteIfAdded(lookup: LookupTable, hash: nat, added: array<nat>, written: nat) returns (written': nat)
    requires lookup.Valid() && added !in lookup.Repr && written < added.Length
    modifies added
    ensures lookup.Valid() && lookup.Keys() == old(lookup.Keys()) && written <= written' <= written + 1
    ensures added[..written'] == old(added[..written]) + if hash in lookup.Keys() then [hash] else []
  {
    hide LookupTable.Valid, FirstMatch;
    LookupPresent(lookup.Keys(), lookup.Values(), hash);
    var found := lookup.Get(hash);
    written' := written;
    if found.Some? {
      added[written] := hash;
      written' := written + 1;
    }
  }

  lemma {:induction false} NotInNext(news: seq<nat>, i: nat, refs: seq<nat>)
    requires i < |news|
    ensures NotIn(news[..i + 1], refs) == NotIn(news[..i], refs) + if news[i] in refs then [] else [news[i]]
  {
    hide NotIn;
    NotInSnoc(news[..i], news[i], refs);
    assert news[..i + 1] == news[..i] + [news[i]];
  }

  lemma NotInNothing(refs: seq<nat>)
    ensures NotIn([], refs) == []
  {
  }

  /** The number of distinct new hashes is the number of slots the reordering looks
      at: with repeats it does not reach the end of the list. */
  method DiffHashes(refs: seq<nat>, news: seq<nat>, added: array<nat>, removed: array?<nat>)
    returns (addedCount: nat, removedCount: nat)
    requires added.Length >= |news| && |news| < NONE
    requires removed != null ==> removed.Length >= |refs| && removed != added
    modifies added, if removed != null then {removed} else {}
    ensures addedCount == |Elems(news) - Elems(refs)|
    ensures |Elems(news)| <= |news|
    ensures var listed := NotIn(news[..|Elems(news)|], refs); added[..|listed|] == listed
    ensures removed != null ==> removedCount <= |refs| && IsDifference(removed[..removedCount], refs, news)
  {
    hide NotIn;
    var tmpRefs := SortedUnique(refs);
    var tmpNews := SortedUnique(news);
    ElemsFit(news);
    ElemsFit(refs);
    addedCount, removedCount := Merge(tmpRefs, tmpNews, added, removed);
    ghost var part := added[..addedCount];
    AscendingCount(part);
    assert Elems(part) == Elems(news) - Elems(refs);
    ghost var gone := if removed != null then removed[..removedCount] else [];
    if addedCount > 0 {
      var written := Reorder(news, |tmpNews|, refs, added, addedCount);
    } else {
      assert part == [];
      NothingListed(news[..|Elems(news)|], refs);
    }
    assert removed != null ==> removed[..removedCount] == gone;
  }

  lemma NothingListed(s: seq<nat>, refs: seq<nat>)
    requires forall x :: x in s ==> x in refs
    ensures NotIn(s, refs) == []
  {
    assert forall x :: x !in NotIn(s, refs);
  }

  // ----- What the difference means -----

  /** For new hashes without repeats the difference is the order-preserving filter, and
      the count that is returned is its length. */
  lemma DifferenceOfDistinct(news: seq<nat>, refs: seq<nat>)
    requires Distinct(news)
    ensures |Elems(news)| == |news|
    ensures NotIn(news[..|news|], refs) == NotIn(news, refs)
    ensures |Elems(news) - Elems(refs)| == |NotIn(news, refs)|
  {
    hide NotIn;
    DistinctCount(news);
    assert news[..|news|] == news;
    NotInDistinct(news, refs);
    DistinctCount(NotIn(news, refs));
    assert Elems(NotIn(news, refs)) == Elems(news) - Elems(refs);
  }

  /** With repeats, every added hash is still listed exactly when none of them occurs
      only after the first |distinct news| entries. */
  lemma ListedIffEarly(news: seq<nat>, refs: seq<nat>)
    ensures |Elems(news)| <= |news|
    ensures var u := |Elems(news)|;
            (forall x :: x in news && x !in refs ==> x in NotIn(news[..u], refs)) <==>
            (forall i :: u <= i < |news| ==> news[i] in refs || news[i] in news[..u])
  {
    hide NotIn;
    ElemsFit(news);
    var u := |Elems(news)|;
    assert news == news[..u] + news[u..];
    if forall x :: x in news && x !in refs ==> x in NotIn(news[..u], refs) {
      forall i | u <= i < |news|
        ensures news[i] in refs || news[i] in news[..u]
      {
        assert news[i] in news;
      }
    }
    if forall i :: u <= i < |news| ==> news[i] in refs || news[i] in news[..u] {
      forall x | x in news && x !in refs
        ensures x in NotIn(news[..u], refs)
      {
        var i :| 0 <= i < |news| && news[i] == x;
        assert i < u ==> news[..u][i] == x;
      }
    }
  }

  /** The entries of a list that the reference has. */
  ghost function Known(s: seq<nat>, refs: seq<nat>): seq<nat> {
    if s == [] then [] else Known(s[..|s| - 1], refs) + if s[|s| - 1] in refs then [s[|s| - 1]] else []
  }

  lemma {:induction false} KnownOrNot(s: seq<nat>, refs: seq<nat>)
    ensures |NotIn(s, refs)| + |Known(s, refs)| == |s|
  {
    hide NotIn;
    if s == [] {
      NotInNothing(refs);
    } else {
      KnownOrNot(s[..|s| - 1], refs);
      NotInNext(s, |s| - 1, refs);
      assert s[..|s|] == s;
    }
  }

  /** The count that is returned is the number of hashes that are written exactly when the
      entries that the last loop looks at have as many that the reference has, repeats
      counted, as the whole list has distinct ones. */
  lemma CountMatchesIff(news: seq<nat>, refs: seq<nat>)
    ensures |Elems(news)| <= |news|
    ensures var u := |Elems(news)|;
            |Elems(news) - Elems(refs)| == |NotIn(news[..u], refs)| <==>
            |Known(news[..u], refs)| == |Elems(news) * Elems(refs)|
  {
    hide NotIn, Known;
    ElemsFit(news);
    KnownOrNot(news[..|Elems(news)|], refs);
    assert Elems(news) == (Elems(news) - Elems(refs)) + (Elems(news) * Elems(refs));
  }

  /** The hash 2 is lost: two distinct hashes, but the list starts with a repeat. */
  lemma RepeatsLoseAHash()
    ensures |Elems([1, 1, 2])| == 2
    ensures 2 in [1, 1, 2] && 2 !in NotIn([1, 1, 2][..2], [])
  {
    assert Elems([1, 1, 2]) == {1, 2};
    assert [1, 1, 2][..2] == [1, 1];
  }
}

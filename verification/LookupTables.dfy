/** The chained hash table of src/longtail.c: four flat arrays, buckets that hold
    the first entry of a chain, and a next index per entry. */
module LookupTables {
  import opened Prelude

  /** End-of-chain marker. */
  const NONE: nat := 0xffff_ffff_ffff_ffff

  // ----- What the table means: first insert wins over an append-only list -----

  /** Index of the earliest entry with this key, or the number of entries. */
  function FirstMatch(ks: seq<nat>, key: nat): (i: nat)
    ensures i <= |ks|
    ensures i < |ks| ==> ks[i] == key
    ensures forall j :: 0 <= j < i ==> ks[j] != key
  {
    if ks == [] || ks[0] == key then 0 else 1 + FirstMatch(ks[1..], key)
  }

  /** The value a lookup answers with. */
  function Lookup(ks: seq<nat>, vs: seq<nat>, key: nat): (r: Option<nat>)
    requires |ks| == |vs|
  {
    var i := FirstMatch(ks, key);
    if i == |ks| then None else Some(vs[i])
  }

  lemma FirstMatchIs(ks: seq<nat>, key: nat, i: nat)
    requires i < |ks| && ks[i] == key && forall j :: 0 <= j < i ==> ks[j] != key
    ensures FirstMatch(ks, key) == i
  {
  }

  lemma FirstMatchNone(ks: seq<nat>, key: nat)
    ensures FirstMatch(ks, key) == |ks| <==> key !in ks
  {
  }

  /** Appending an entry answers only for keys that were absent. */
  lemma LookupAppend(ks: seq<nat>, vs: seq<nat>, k: nat, v: nat, key: nat)
    requires |ks| == |vs|
    ensures Lookup(ks + [k], vs + [v], key) ==
            if key in ks then Lookup(ks, vs, key) else if key == k then Some(v) else None
  {
    var ks', i := ks + [k], FirstMatch(ks, key);
    FirstMatchNone(ks, key);
    if key in ks {
      FirstMatchIs(ks', key, i);
    } else if key == k {
      FirstMatchIs(ks', key, |ks|);
    } else {
      FirstMatchNone(ks', key);
    }
  }

  lemma LookupPresent(ks: seq<nat>, vs: seq<nat>, key: nat)
    requires |ks| == |vs|
    ensures Lookup(ks, vs, key).Some? <==> key in ks
    ensures Lookup(ks, vs, key).Some? ==>
              exists i :: 0 <= i < |ks| && ks[i] == key && Lookup(ks, vs, key) == Some(vs[i])
  {
    FirstMatchNone(ks, key);
  }

  // ----- Chains -----

  function Bucket(key: nat, bucketCount: nat): (b: nat)
    requires bucketCount > 0
    ensures b < bucketCount
  {
    key % bucketCount
  }

  /** The first entry at or after `from` that falls into bucket b. */
  function FirstFrom(ks: seq<nat>, n: nat, b: nat, from: nat): (r: nat)
    requires n > 0 && |ks| < NONE
    ensures r == NONE || from <= r < |ks|
    ensures r < NONE ==> Bucket(ks[r], n) == b
    ensures forall j :: from <= j < |ks| && j < r ==> Bucket(ks[j], n) != b
    decreases |ks| - from
  {
    if from >= |ks| then NONE
    else if Bucket(ks[from], n) == b then from
    else FirstFrom(ks, n, b, from + 1)
  }

  lemma FirstFromIs(ks: seq<nat>, n: nat, b: nat, from: nat, r: nat)
    requires n > 0 && |ks| < NONE
    requires r == NONE || (from <= r < |ks| && Bucket(ks[r], n) == b)
    requires forall j :: from <= j < |ks| && j < r ==> Bucket(ks[j], n) != b
    ensures FirstFrom(ks, n, b, from) == r
  {
  }

  /** Following a link skips no entry with the key. */
  lemma SkipsNone(ks: seq<nat>, n: nat, key: nat, from: nat)
    requires n > 0 && |ks| < NONE && from <= FirstMatch(ks, key)
    ensures var next := FirstFrom(ks, n, Bucket(key, n), from);
            FirstMatch(ks, key) >= if next == NONE then |ks| else next
  {
  }

  /** Appending a key changes only the chain links that had no successor. */
  lemma FirstFromAppend(ks: seq<nat>, n: nat, b: nat, from: nat, k: nat)
    requires n > 0 && |ks| + 1 < NONE && from <= |ks|
    ensures FirstFrom(ks + [k], n, b, from) ==
            if FirstFrom(ks, n, b, from) != NONE then FirstFrom(ks, n, b, from)
            else if Bucket(k, n) == b then |ks| else NONE
  {
    var r := FirstFrom(ks, n, b, from);
    if r != NONE {
      FirstFromIs(ks + [k], n, b, from, r);
    } else {
      FirstFromIs(ks + [k], n, b, from, if Bucket(k, n) == b then |ks| else NONE);
    }
  }

  /** Every link leads to the next entry of the same bucket: chains are strictly
      increasing, so acyclic, and together hold every entry once. */
  ghost predicate Linked(ks: seq<nat>, bs: seq<nat>, nx: seq<nat>) {
    && |bs| > 0 && |ks| <= |nx| < NONE
    && (forall b :: 0 <= b < |bs| ==> bs[b] == FirstFrom(ks, |bs|, b, 0))
    && (forall i :: 0 <= i < |ks| ==> nx[i] == FirstFrom(ks, |bs|, Bucket(ks[i], |bs|), i + 1))
    && (forall i :: |ks| <= i < |nx| ==> nx[i] == NONE)
  }

  /** `tail` is the end of the chain of b: its last entry, or NONE when empty. */
  ghost predicate IsTail(ks: seq<nat>, bs: seq<nat>, nx: seq<nat>, b: nat, tail: nat)
    requires Linked(ks, bs, nx) && b < |bs|
  {
    if tail == NONE then bs[b] == NONE
    else tail < |ks| && nx[tail] == NONE && Bucket(ks[tail], |bs|) == b
  }

  /** Linking a new entry behind the end of its chain. */
  lemma LinkedAppend(ks: seq<nat>, bs: seq<nat>, nx: seq<nat>, key: nat, tail: nat)
    requires Linked(ks, bs, nx) && |ks| < |nx|
    requires IsTail(ks, bs, nx, Bucket(key, |bs|), tail)
    ensures Linked(ks + [key],
                   if tail == NONE then bs[Bucket(key, |bs|) := |ks|] else bs,
                   if tail == NONE then nx else nx[tail := |ks|])
  {
    hide Bucket, FirstFrom;
    var n, ks' := |bs|, ks + [key];
    forall c | 0 <= c < n
      ensures FirstFrom(ks', n, c, 0) == if tail == NONE && c == Bucket(key, n) then |ks| else bs[c]
    {
      FirstFromAppend(ks, n, c, 0, key);
    }
    forall i | 0 <= i <= |ks|
      ensures FirstFrom(ks', n, Bucket(ks'[i], n), i + 1) == if i == tail then |ks| else nx[i]
    {
      if i == |ks| {
        FirstFromIs(ks', n, Bucket(key, n), i + 1, NONE);
      } else {
        FirstFromAppend(ks, n, Bucket(ks[i], n), i + 1, key);
      }
    }
  }

  predicate IsPowerOfTwo(n: nat) {
    n == 1 || (n > 1 && n % 2 == 0 && IsPowerOfTwo(n / 2))
  }

  /** The number of buckets: the least power of two that is at least capacity / 8. */
  method TableSize(capacity: nat) returns (n: nat)
    ensures IsPowerOfTwo(n) && n >= 1
    ensures n >= capacity / 8 && (n == 1 || n / 2 < capacity / 8)
  {
    n := 1;
    while n < capacity / 8
      invariant IsPowerOfTwo(n) && n >= 1
      invariant n == 1 || n / 2 < capacity / 8
      decreases capacity - n
    {
      n := n * 2;
    }
  }

  // ----- Rehashing into a new table -----

  /** The entries copied once all chains below b and the chain of b up to index
      `from` are done. */
  ghost function Copied(ks: seq<nat>, n: nat, b: nat, from: nat): set<nat>
    requires n > 0
  {
    set j | 0 <= j < |ks| && (Bucket(ks[j], n) < b || (Bucket(ks[j], n) == b && j < from))
  }

  /** What a lookup in the copy answers at that point. */
  ghost function Partial(ks: seq<nat>, vs: seq<nat>, n: nat, b: nat, from: nat, key: nat): Option<nat>
    requires n > 0 && |ks| == |vs| && from <= |ks|
  {
    if Bucket(key, n) < b then Lookup(ks, vs, key)
    else if Bucket(key, n) == b then Lookup(ks[..from], vs[..from], key)
    else None
  }

  lemma {:induction false} CopiedBound(ks: seq<nat>, n: nat, b: nat, from: nat)
    requires n > 0
    ensures |Copied(ks, n, b, from)| <= |ks|
  {
    if ks != [] {
      var last := |ks| - 1;
      CopiedBound(ks[..last], n, b, from);
      assert Copied(ks[..last], n, b, from) == Copied(ks, n, b, from) - {last};
    }
  }

  lemma {:induction false} CopiedAll(ks: seq<nat>, n: nat)
    requires n > 0
    ensures |Copied(ks, n, n, 0)| == |ks|
  {
    if ks != [] {
      var last := |ks| - 1;
      CopiedAll(ks[..last], n);
      assert Copied(ks, n, n, 0) == Copied(ks[..last], n, n, 0) + {last};
    }
  }

  /** Copying the next entry of the chain. */
  lemma CopyStep(ks: seq<nat>, vs: seq<nat>, n: nat, b: nat, from: nat)
    requires n > 0 && |ks| == |vs| && |ks| < NONE && from <= |ks|
    requires FirstFrom(ks, n, b, from) != NONE
    ensures var x := FirstFrom(ks, n, b, from);
            |Copied(ks, n, b, x + 1)| == |Copied(ks, n, b, from)| + 1
    ensures var x := FirstFrom(ks, n, b, from);
            forall key :: Partial(ks, vs, n, b, x + 1, key) ==
                          if Partial(ks, vs, n, b, from, key).Some? then Partial(ks, vs, n, b, from, key)
                          else if key == ks[x] then Some(vs[x]) else None
  {
    hide Bucket, FirstFrom, Lookup, FirstMatch;
    var x := FirstFrom(ks, n, b, from);
    assert Copied(ks, n, b, x + 1) == Copied(ks, n, b, from) + {x};
    assert ks[..x + 1] == ks[..x] + [ks[x]] && vs[..x + 1] == vs[..x] + [vs[x]];
    forall key
      ensures Partial(ks, vs, n, b, x + 1, key) ==
              if Partial(ks, vs, n, b, from, key).Some? then Partial(ks, vs, n, b, from, key)
              else if key == ks[x] then Some(vs[x]) else None
    {
      if Bucket(key, n) == b {
        SameChain(ks, vs, n, key, from, x);
        LookupAppend(ks[..x], vs[..x], ks[x], vs[x], key);
        LookupPresent(ks[..x], vs[..x], key);
      } else if Bucket(key, n) < b && key == ks[x] {
        assert false;
      }
    }
  }

  /** The chain of b is done: the copy is ready for the next bucket. */
  lemma CopyChainDone(ks: seq<nat>, vs: seq<nat>, n: nat, b: nat, from: nat)
    requires n > 0 && |ks| == |vs| && |ks| < NONE && from <= |ks|
    requires FirstFrom(ks, n, b, from) == NONE
    ensures Copied(ks, n, b, from) == Copied(ks, n, b + 1, 0)
    ensures forall key :: Partial(ks, vs, n, b, from, key) == Partial(ks, vs, n, b + 1, 0, key)
  {
    hide Bucket, FirstFrom, Lookup, FirstMatch;
    forall key | Bucket(key, n) == b
      ensures Lookup(ks[..from], vs[..from], key) == Lookup(ks, vs, key)
    {
      SameChain(ks, vs, n, key, from, |ks|);
      assert ks[..|ks|] == ks && vs[..|ks|] == vs;
    }
    forall key | Bucket(key, n) == b + 1
      ensures Lookup(ks[..0], vs[..0], key) == None
    {
      LookupPresent(ks[..0], vs[..0], key);
    }
  }

  /** Entries of other buckets do not matter to a lookup. */
  lemma {:induction false} SameChain(ks: seq<nat>, vs: seq<nat>, n: nat, key: nat, from: nat, x: nat)
    requires n > 0 && |ks| == |vs| && from <= x <= |ks|
    requires forall j :: from <= j < x ==> Bucket(ks[j], n) != Bucket(key, n)
    ensures Lookup(ks[..from], vs[..from], key) == Lookup(ks[..x], vs[..x], key)
  {
    hide Bucket, Lookup, FirstMatch;
    if from < x {
      SameChain(ks, vs, n, key, from, x - 1);
      assert ks[..x] == ks[..x - 1] + [ks[x - 1]] && vs[..x] == vs[..x - 1] + [vs[x - 1]];
      LookupAppend(ks[..x - 1], vs[..x - 1], ks[x - 1], vs[x - 1], key);
      LookupPresent(ks[..x - 1], vs[..x - 1], key);
    }
  }

  /** The state of a copy under way. */
  ghost predicate Mirrors(ks: seq<nat>, vs: seq<nat>, sk: seq<nat>, sv: seq<nat>, n: nat, b: nat, from: nat)
    requires n > 0 && |sk| == |sv| && from <= |sk|
  {
    && |ks| == |vs| == |Copied(sk, n, b, from)|
    && forall key :: Lookup(ks, vs, key) == Partial(sk, sv, n, b, from, key)
  }

  lemma MirrorsStart(sk: seq<nat>, sv: seq<nat>, n: nat)
    requires n > 0 && |sk| == |sv|
    ensures Mirrors([], [], sk, sv, n, 0, 0)
  {
    assert Copied(sk, n, 0, 0) == {};
  }

  lemma MirrorsPut(ks: seq<nat>, vs: seq<nat>, sk: seq<nat>, sv: seq<nat>, n: nat, b: nat, from: nat)
    requires n > 0 && |sk| == |sv| && |sk| < NONE && from <= |sk|
    requires Mirrors(ks, vs, sk, sv, n, b, from) && FirstFrom(sk, n, b, from) != NONE
    ensures var x := FirstFrom(sk, n, b, from);
            Mirrors(ks + [sk[x]], vs + [sv[x]], sk, sv, n, b, x + 1)
    ensures |ks| < |sk|
  {
    hide Bucket, FirstFrom, Lookup, Copied, Partial;
    var x := FirstFrom(sk, n, b, from);
    CopyStep(sk, sv, n, b, from);
    CopiedBound(sk, n, b, x + 1);
    forall key
      ensures Lookup(ks + [sk[x]], vs + [sv[x]], key) == Partial(sk, sv, n, b, x + 1, key)
    {
      LookupAppend(ks, vs, sk[x], sv[x], key);
      LookupPresent(ks, vs, key);
    }
  }

  lemma MirrorsNextBucket(ks: seq<nat>, vs: seq<nat>, sk: seq<nat>, sv: seq<nat>, n: nat, b: nat, from: nat)
    requires n > 0 && |sk| == |sv| && |sk| < NONE && from <= |sk|
    requires Mirrors(ks, vs, sk, sv, n, b, from) && FirstFrom(sk, n, b, from) == NONE
    ensures Mirrors(ks, vs, sk, sv, n, b + 1, 0)
  {
    CopyChainDone(sk, sv, n, b, from);
  }

  lemma MirrorsAll(ks: seq<nat>, vs: seq<nat>, sk: seq<nat>, sv: seq<nat>, n: nat)
    requires n > 0 && |sk| == |sv| && Mirrors(ks, vs, sk, sv, n, n, 0)
    ensures |ks| == |sk|
    ensures forall key :: Lookup(ks, vs, key) == Lookup(sk, sv, key)
  {
    CopiedAll(sk, n);
    assert forall key :: Bucket(key, n) < n;
  }

  class LookupTable {
    const buckets: array<nat>
    const keys: array<nat>
    const values: array<nat>
    const nextIndex: array<nat>
    var count: nat
    ghost const Repr: set<object>

    /** The entries, in insertion order. */
    ghost function Keys(): (s: seq<nat>)
      requires count <= keys.Length
      reads this, keys
    {
      keys[..count]
    }

    ghost function Values(): (s: seq<nat>)
      requires count <= values.Length
      reads this, values
    {
      values[..count]
    }

    ghost predicate Shape()
      reads this
    {
      && Repr == {this, buckets, keys, values, nextIndex}
      && buckets != keys && buckets != values && buckets != nextIndex
      && keys != values && keys != nextIndex && values != nextIndex
      && buckets.Length > 0
      && keys.Length == values.Length == nextIndex.Length < NONE
      && count <= keys.Length
    }

    ghost predicate Valid()
      reads this, Repr
      ensures Valid() ==> Shape()
    {
      Shape() && Linked(keys[..count], buckets[..], nextIndex[..])
    }

    ghost function Find(key: nat): Option<nat>
      requires Valid()
      reads this, Repr
    {
      Lookup(Keys(), Values(), key)
    }

    /** An empty table. */
    constructor (capacity: nat)
      requires capacity < NONE
      ensures Valid() && fresh(Repr)
      ensures keys.Length == capacity && count == 0
      ensures Keys() == [] && Values() == []
    {
      var n := TableSize(capacity);
      var bs := new nat[n](_ => NONE);
      var nx := new nat[capacity](_ => NONE);
      var ks := new nat[capacity];
      var vs := new nat[capacity];
      buckets, keys, values, nextIndex := bs, ks, vs, nx;
      count := 0;
      Repr := {this, bs, ks, vs, nx};
      new;
    }

    function SpaceLeft(): nat
      requires Shape()
      reads this
    {
      keys.Length - count
    }

    /** What a lookup of k answers after (key, value) was put. */
    static function FirstWins(before: Option<nat>, k: nat, key: nat, value: nat): Option<nat> {
      if before.Some? then before else if k == key then Some(value) else None
    }

    lemma PutFacts(key: nat, value: nat)
      requires Valid()
      ensures forall k :: Lookup(Keys() + [key], Values() + [value], k) == FirstWins(Find(k), k, key, value)
    {
      forall k
        ensures Lookup(Keys() + [key], Values() + [value], k) == FirstWins(Find(k), k, key, value)
      {
        LookupAppend(Keys(), Values(), key, value, k);
        LookupPresent(Keys(), Values(), k);
      }
    }

    /** The last entry of a chain, found by walking it. */
    method ChainEnd(b: nat) returns (index: nat)
      requires Valid() && b < buckets.Length && buckets[b] != NONE
      ensures index < count && Bucket(keys[index], buckets.Length) == b && nextIndex[index] == NONE
    {
      hide Bucket, FirstFrom, FirstMatch;
      index := buckets[b];
      while nextIndex[index] != NONE
        invariant index < count && Bucket(keys[index], buckets.Length) == b
        decreases count - index
      {
        index := nextIndex[index];
      }
    }

    /** Appends an entry and links it behind the end of its chain. */
    method Append(key: nat, value: nat, tail: nat)
      requires Valid() && count < keys.Length
      requires IsTail(keys[..count], buckets[..], nextIndex[..], Bucket(key, buckets.Length), tail)
      modifies Repr
      ensures Valid()
      ensures Keys() == old(Keys()) + [key] && Values() == old(Values()) + [value]
    {
      hide Bucket, FirstFrom, Linked;
      LinkedAppend(keys[..count], buckets[..], nextIndex[..], key, tail);
      keys[count], values[count] := key, value;
      if tail == NONE {
        buckets[Bucket(key, buckets.Length)] := count;
      } else {
        nextIndex[tail] := count;
      }
      count := count + 1;
      assert keys[..count] == old(Keys()) + [key];
      assert values[..count] == old(Values()) + [value];
      assert buckets[..] == old(if tail == NONE then buckets[..][Bucket(key, buckets.Length) := count]
                                else buckets[..]);
      assert nextIndex[..] == old(if tail == NONE then nextIndex[..] else nextIndex[..][tail := count]);
    }

    /** Appends an entry; the lookups of other keys, and of keys that were present,
        stay as they are. */
    method Put(key: nat, value: nat)
      requires Valid() && count < keys.Length
      modifies Repr
      ensures Valid() && count == old(count) + 1
      ensures Keys() == old(Keys()) + [key] && Values() == old(Values()) + [value]
      ensures forall k :: Find(k) == FirstWins(old(Find(k)), k, key, value)
    {
      PutFacts(key, value);
      var b := Bucket(key, buckets.Length);
      if buckets[b] == NONE {
        Append(key, value, NONE);
        return;
      }
      var tail := ChainEnd(b);
      Append(key, value, tail);
    }

    /** Walks the chain of the key: the entry found, or the end of the chain. */
    method Walk(key: nat) returns (found: bool, index: nat)
      requires Valid()
      ensures found ==> index < count && index == FirstMatch(Keys(), key)
      ensures !found ==> key !in Keys()
      ensures !found ==> IsTail(keys[..count], buckets[..], nextIndex[..], Bucket(key, buckets.Length), index)
    {
      hide Bucket, FirstFrom, FirstMatch;
      ghost var ks, n := keys[..count], buckets.Length;
      ghost var from := 0;
      var b := Bucket(key, buckets.Length);
      index := NONE;
      var next := buckets[b];
      SkipsNone(ks, n, key, 0);
      while next != NONE
        invariant from <= count && next == FirstFrom(ks, n, b, from)
        invariant FirstMatch(ks, key) >= if next == NONE then count else next
        invariant if index == NONE then next == buckets[b]
                  else index < count && next == nextIndex[index] && Bucket(ks[index], n) == b
        decreases count - from
      {
        index := next;
        if keys[index] == key {
          assert ks[index] == key;
          return true, index;
        }
        assert ks[index] != key && FirstMatch(ks, key) != index;
        from := index + 1;
        next := nextIndex[index];
        SkipsNone(ks, n, key, from);
      }
      found := false;
    }

    /** The first value put under the key. */
    method Get(key: nat) returns (value: Option<nat>)
      requires Valid()
      ensures value == Find(key)
    {
      var found, index := Walk(key);
      FirstMatchNone(Keys(), key);
      value := if found then Some(values[index]) else None;
    }

    /** Adds an entry unless the key is present; answers with the value it then
        already had. */
    method PutUnique(key: nat, value: nat) returns (existing: Option<nat>)
      requires Valid() && (key in Keys() || count < keys.Length)
      modifies Repr
      ensures Valid()
      ensures existing == old(Find(key)) && (existing.Some? <==> old(key in Keys()))
      ensures existing.Some? ==> count == old(count) && Keys() == old(Keys()) && Values() == old(Values())
      ensures existing.None? ==> count == old(count) + 1
      ensures existing.None? ==> Keys() == old(Keys()) + [key] && Values() == old(Values()) + [value]
      ensures forall k :: Find(k) == FirstWins(old(Find(k)), k, key, value)
    {
      PutFacts(key, value);
      var found, index := Walk(key);
      FirstMatchNone(Keys(), key);
      if found {
        assert Keys()[index] == key;
        existing := Some(values[index]);
      } else {
        existing := None;
        Append(key, value, index);
      }
    }

    lemma ChainHead(b: nat)
      requires Valid() && b < buckets.Length
      ensures buckets[b] == FirstFrom(Keys(), buckets.Length, b, 0)
    {
      assert buckets[..][b] == buckets[b];
    }

    lemma ChainNext(i: nat)
      requires Valid() && i < count
      ensures nextIndex[i] == FirstFrom(Keys(), buckets.Length, Bucket(keys[i], buckets.Length), i + 1)
    {
      assert nextIndex[..][i] == nextIndex[i];
    }

    /** A table of another capacity with the entries of `source`, put chain by
        chain. The entries change order, the lookups do not. */
    static method Rehash(capacity: nat, source: LookupTable) returns (t: LookupTable)
      requires source.Valid() && source.count <= capacity < NONE
      ensures t.Valid() && fresh(t.Repr)
      ensures t.keys.Length == capacity && t.count == source.count
      ensures forall key :: t.Find(key) == source.Find(key)
    {
      hide Mirrors, FirstFrom, Linked;
      ghost var sk, sv, sn := source.Keys(), source.Values(), source.buckets.Length;
      t := new LookupTable(capacity);
      MirrorsStart(sk, sv, sn);
      var b := 0;
      while b < source.buckets.Length
        invariant b <= sn && t.Valid() && source.Valid()
        invariant sk == source.Keys() && sv == source.Values()
        invariant Mirrors(t.Keys(), t.Values(), sk, sv, sn, b, 0)
      {
        t.CopyChain(source, b);
        b := b + 1;
      }
      MirrorsAll(t.Keys(), t.Values(), sk, sv, sn);
    }

    method CopyChain(source: LookupTable, b: nat)
      requires Valid() && source.Valid() && Repr !! source.Repr
      requires b < source.buckets.Length && source.count <= keys.Length
      requires Mirrors(Keys(), Values(), source.Keys(), source.Values(), source.buckets.Length, b, 0)
      modifies Repr
      ensures Valid()
      ensures Mirrors(Keys(), Values(), source.Keys(), source.Values(), source.buckets.Length, b + 1, 0)
    {
      hide Mirrors, FirstFrom, Bucket, Linked;
      ghost var sk, sv, sn := source.Keys(), source.Values(), source.buckets.Length;
      ghost var from := 0;
      var index := source.buckets[b];
      source.ChainHead(b);
      while index != NONE
        invariant Valid() && source.Valid()
        invariant sk == source.Keys() && sv == source.Values()
        invariant from <= |sk| && index == FirstFrom(sk, sn, b, from)
        invariant Mirrors(Keys(), Values(), sk, sv, sn, b, from)
        decreases |sk| - from
      {
        MirrorsPut(Keys(), Values(), sk, sv, sn, b, from);
        Put(source.keys[index], source.values[index]);
        assert Bucket(sk[index], sn) == b;
        source.ChainNext(index);
        from := index + 1;
        index := source.nextIndex[index];
      }
      MirrorsNextBucket(Keys(), Values(), sk, sv, sn, b, from);
    }
  }

  /** A table that is filled entry by entry, in order. */
  method PutAll(ks: seq<nat>, vs: seq<nat>) returns (t: LookupTable)
    requires |ks| == |vs| < NONE
    ensures t.Valid() && fresh(t) && fresh(t.Repr)
    ensures t.Keys() == ks && t.Values() == vs
  {
    hide Linked, Lookup;
    t := new LookupTable(|ks|);
    for c := 0 to |ks|
      invariant t.Valid() && fresh(t.Repr) && t.count == c && t.keys.Length == |ks|
      invariant t.Keys() == ks[..c] && t.Values() == vs[..c]
    {
      t.Put(ks[c], vs[c]);
    }
    assert ks[..|ks|] == ks && vs[..|vs|] == vs;
  }
}

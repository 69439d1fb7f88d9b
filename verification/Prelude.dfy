/** Small vocabulary shared by the components: options, membership of sequences
    as sets, and the sum of a sequence of sizes. */
module Prelude {

  datatype Option<+T> = None | Some(value: T)

  /** The error numbers the modelled functions return. */
  datatype Errno = EINVAL | ENOENT | EEXIST | EACCES | ENOTEMPTY | EBADF | EIO | ENOTRECOVERABLE

  datatype Result<+T> = Success(value: T) | Failure(errno: Errno)

  newtype byte = b: int | 0 <= b < 256

  /** The elements of a sequence, as a set. */
  ghost function Elems<T>(s: seq<T>): set<T> {
    set x | x in s
  }

  lemma ElemsSnoc<T>(s: seq<T>, x: T)
    ensures Elems(s + [x]) == Elems(s) + {x}
  {
  }

  lemma {:induction false} ElemsFit<T>(s: seq<T>)
    ensures |Elems(s)| <= |s|
  {
    if s != [] {
      var last := |s| - 1;
      ElemsFit(s[..last]);
      assert s == s[..last] + [s[last]];
      ElemsSnoc(s[..last], s[last]);
    }
  }

  lemma {:induction false} FewerElems<T>(a: set<T>, b: set<T>)
    requires a <= b
    ensures |a| <= |b|
  {
    assert b == a + (b - a);
  }

  /** The elements at these positions. */
  ghost function At<T>(s: seq<T>, positions: seq<nat>): (r: seq<T>)
    requires forall k :: 0 <= k < |positions| ==> positions[k] < |s|
    ensures |r| == |positions| && forall k :: 0 <= k < |r| ==> r[k] == s[positions[k]]
  {
    seq(|positions|, k requires 0 <= k < |positions| => s[positions[k]])
  }

  ghost predicate Distinct<T>(s: seq<T>) {
    forall i, j :: 0 <= i < j < |s| ==> s[i] != s[j]
  }

  /** r has the elements of s at these places, in order. */
  ghost predicate Selects<T>(r: seq<T>, s: seq<T>, places: set<nat>) {
    exists at: seq<nat> :: IsSelection(r, s, places, at)
  }

  ghost predicate IsSelection<T>(r: seq<T>, s: seq<T>, places: set<nat>, at: seq<nat>) {
    && |at| == |r| && Rising(at)
    && (forall k :: 0 <= k < |at| ==> at[k] < |s| && r[k] == s[at[k]])
    && forall i: nat :: i in places <==> i in at
  }

  lemma NothingSelected<T>(s: seq<T>)
    ensures Selects<T>([], s, {})
  {
    assert IsSelection([], s, {}, []);
  }

  /** One more element is selected, or not. */
  lemma SelectsNext<T>(r: seq<T>, s: seq<T>, places: set<nat>, x: T)
    requires Selects(r, s, places)
    ensures Selects(r, s + [x], places) && Selects(r + [x], s + [x], places + {|s|})
  {
    var at: seq<nat> :| IsSelection(r, s, places, at);
    assert IsSelection(r, s + [x], places, at);
    assert IsSelection(r + [x], s + [x], places + {|s|}, at + [|s|]);
  }

  /** What is selected at given places is one thing. */
  lemma {:induction false} SelectionIsOne<T>(a: seq<T>, b: seq<T>, s: seq<T>, places: set<nat>)
    requires Selects(a, s, places) && Selects(b, s, places)
    ensures a == b
  {
    var x: seq<nat> :| IsSelection(a, s, places, x);
    var y: seq<nat> :| IsSelection(b, s, places, y);
    SameRising(x, y);
  }

  lemma SomeIn(s: seq<nat>)
    ensures s != [] ==> exists i: nat :: i in s
  {
    if s != [] {
      assert s[0] in s;
    }
  }

  ghost predicate Rising(s: seq<nat>) {
    forall i, j :: 0 <= i < j < |s| ==> s[i] < s[j]
  }

  lemma LastOfRising(s: seq<nat>, i: nat)
    requires Rising(s) && s != []
    ensures Rising(s[..|s| - 1]) && (i in s ==> i <= s[|s| - 1])
    ensures i in s[..|s| - 1] <==> i in s && i != s[|s| - 1]
  {
    assert s == s[..|s| - 1] + [s[|s| - 1]];
  }

  lemma {:induction false} SameRising(x: seq<nat>, y: seq<nat>)
    requires Rising(x) && Rising(y) && forall i: nat :: i in x <==> i in y
    ensures x == y
  {
    hide Rising;
    SomeIn(x);
    SomeIn(y);
    if x != [] && y != [] {
      var m, n := x[|x| - 1], y[|y| - 1];
      assert m in y && n in x;
      LastOfRising(x, n);
      LastOfRising(y, m);
      var a, b := x[..|x| - 1], y[..|y| - 1];
      forall i: nat
        ensures i in a <==> i in b
      {
        LastOfRising(x, i);
        LastOfRising(y, i);
      }
      SameRising(a, b);
      assert x == a + [m] && y == b + [n];
    }
  }

  /** The numbers below n. */
  function UpTo(n: nat): (s: set<nat>)
    ensures |s| == n && forall k :: k in s <==> 0 <= k < n
  {
    if n == 0 then {} else UpTo(n - 1) + {n - 1}
  }

  function Sum(s: seq<nat>): nat {
    if s == [] then 0 else s[0] + Sum(s[1..])
  }

  lemma {:induction false} SumConcat(a: seq<nat>, b: seq<nat>)
    ensures Sum(a + b) == Sum(a) + Sum(b)
  {
    if a == [] {
      assert a + b == b;
    } else {
      assert (a + b)[1..] == a[1..] + b;
      SumConcat(a[1..], b);
    }
  }

  lemma SumSnoc(a: seq<nat>, x: nat)
    ensures Sum(a + [x]) == Sum(a) + x
  {
    SumConcat(a, [x]);
    assert [x][1..] == [];
  }

  /** Taking one more element of a sequence adds it to the sum. */
  lemma SumTakeNext(s: seq<nat>, i: nat)
    requires i < |s|
    ensures Sum(s[..i + 1]) == Sum(s[..i]) + s[i]
  {
    assert s[..i + 1] == s[..i] + [s[i]];
    SumSnoc(s[..i], s[i]);
  }

  lemma SliceSlice<T>(s: seq<T>, lo: nat, hi: nat, i: nat, j: nat)
    requires lo <= hi <= |s| && i <= j <= hi - lo
    ensures s[lo..hi][i..j] == s[lo + i..lo + j]
  {
    var a, b := s[lo..hi][i..j], s[lo + i..lo + j];
    assert |a| == |b| && forall k :: 0 <= k < |a| ==> a[k] == b[k];
  }

  function Flatten<T>(ss: seq<seq<T>>): seq<T> {
    if ss == [] then [] else ss[0] + Flatten(ss[1..])
  }

  lemma {:induction false} FlattenConcat<T>(a: seq<seq<T>>, b: seq<seq<T>>)
    ensures Flatten(a + b) == Flatten(a) + Flatten(b)
  {
    if a == [] {
      assert a + b == b;
    } else {
      assert (a + b)[1..] == a[1..] + b;
      FlattenConcat(a[1..], b);
    }
  }

  lemma FlattenSnoc<T>(a: seq<seq<T>>, x: seq<T>)
    ensures Flatten(a + [x]) == Flatten(a) + x
  {
    FlattenConcat(a, [x]);
    assert [x][1..] == [];
  }

  lemma MulMonotone(a: nat, b: nat, d: nat)
    requires a <= b
    ensures a * d <= b * d
  {
  }

  /** Rounding a quotient up. */
  lemma CeilingQuotient(n: nat, d: nat)
    requires d > 0
    ensures var q := (n + d - 1) / d; q * d >= n && (n > 0 ==> q > 0 && (q - 1) * d < n) && q <= n
  {
    var q, r := (n + d - 1) / d, (n + d - 1) % d;
    assert n + d - 1 == q * d + r;
    assert (q - 1) * d == q * d - d;
    if q > n {
      MulMonotone(n + 1, q, d);
      assert (n + 1) * d == n * d + d;
      MulMonotone(1, d, n);
      assert false;
    }
  }

  // ----- Pieces of a flattened sequence -----

  /** Where piece c starts in the flattened sequence. */
  ghost function Offset<T>(ss: seq<seq<T>>, c: nat): nat
    requires c <= |ss|
  {
    |Flatten(ss[..c])|
  }

  lemma OffsetNext<T>(ss: seq<seq<T>>, c: nat)
    requires c < |ss|
    ensures Offset(ss, c + 1) == Offset(ss, c) + |ss[c]|
  {
    assert ss[..c + 1] == ss[..c] + [ss[c]];
    FlattenSnoc(ss[..c], ss[c]);
  }

  lemma OffsetEnds<T>(ss: seq<seq<T>>)
    ensures Offset(ss, 0) == 0 && Offset(ss, |ss|) == |Flatten(ss)|
  {
    assert ss[..|ss|] == ss;
  }

  /** The sum of the sizes before a piece is its offset. */
  lemma {:induction false} SumIsOffset<T>(ss: seq<seq<T>>, sizes: seq<nat>, c: nat)
    requires |sizes| == |ss| && (forall i :: 0 <= i < |ss| ==> sizes[i] == |ss[i]|) && c <= |ss|
    ensures Sum(sizes[..c]) == Offset(ss, c)
  {
    OffsetEnds(ss);
    if c > 0 {
      SumIsOffset(ss, sizes, c - 1);
      SumTakeNext(sizes, c - 1);
      OffsetNext(ss, c - 1);
    }
  }

  lemma {:induction false} OffsetMonotone<T>(ss: seq<seq<T>>, c: nat, d: nat)
    requires c <= d <= |ss|
    ensures Offset(ss, c) <= Offset(ss, d)
    decreases d - c
  {
    if c < d {
      OffsetNext(ss, d - 1);
      OffsetMonotone(ss, c, d - 1);
    }
  }

  /** A piece is the slice of the flattened sequence at its offset. */
  lemma PieceSlice<T>(ss: seq<seq<T>>, c: nat)
    requires c < |ss|
    ensures Offset(ss, c + 1) == Offset(ss, c) + |ss[c]| <= |Flatten(ss)|
    ensures Flatten(ss)[Offset(ss, c)..Offset(ss, c + 1)] == ss[c]
  {
    assert ss == ss[..c] + ([ss[c]] + ss[c + 1..]);
    FlattenConcat(ss[..c], [ss[c]] + ss[c + 1..]);
    assert ([ss[c]] + ss[c + 1..])[1..] == ss[c + 1..];
    OffsetNext(ss, c);
  }

  lemma MiddleSlice<T>(a: seq<T>, b: seq<T>, c: seq<T>)
    ensures (a + (b + c))[|a|..|a + b|] == b
  {
  }

  /** Adjacent pieces are a slice, too. */
  lemma PiecesSlice<T>(ss: seq<seq<T>>, c: nat, d: nat)
    requires c <= d <= |ss|
    ensures Offset(ss, c) <= Offset(ss, d) <= |Flatten(ss)|
    ensures Flatten(ss)[Offset(ss, c)..Offset(ss, d)] == Flatten(ss[c..d])
  {
    hide Flatten;
    var before, middle, after := ss[..c], ss[c..d], ss[d..];
    assert ss == before + (middle + after) && ss[..d] == before + middle;
    FlattenConcat(before, middle + after);
    FlattenConcat(middle, after);
    FlattenConcat(before, middle);
    MiddleSlice(Flatten(before), Flatten(middle), Flatten(after));
  }

  /** Every position of the flattened sequence lies in a piece. */
  lemma {:induction false} PieceAt<T>(ss: seq<seq<T>>, pos: nat) returns (c: nat)
    requires pos < |Flatten(ss)|
    ensures c < |ss| && Offset(ss, c) <= pos < Offset(ss, c + 1)
  {
    OffsetEnds(ss);
    c := 0;
    while Offset(ss, c + 1) <= pos
      invariant c < |ss| && Offset(ss, c) <= pos
      decreases |ss| - c
    {
      if c + 1 == |ss| {
        assert false;
      }
      c := c + 1;
    }
  }

  /** Copies src over dst from position at (memcpy). */
  method CopyInto<T>(dst: array<T>, at: nat, src: seq<T>)
    requires at + |src| <= dst.Length
    modifies dst
    ensures forall i :: 0 <= i < dst.Length ==>
              dst[i] == if at <= i < at + |src| then src[i - at] else old(dst[i])
  {
    for n := 0 to |src|
      invariant forall i :: 0 <= i < dst.Length ==>
                  dst[i] == if at <= i < at + n then src[i - at] else old(dst[i])
    {
      dst[at + n] := src[n];
    }
  }
}

/** The rolling hash of lib/hpcdcchunker: rotations of 32-bit words, the direct hash
    of a 48-byte window, and the step that slides the window by one byte. */
module RollingHash {
  import opened Prelude

  /** The number of bytes in the rolling hash window. */
  const WINDOW := 48

  /** A rotation by one bit, and by n bits. */
  function Rotl1(x: bv32): bv32 {
    (x << 1) | (x >> 31)
  }

  function Rotl(x: bv32, n: nat): bv32 {
    if n == 0 then x else Rotl1(Rotl(x, n - 1))
  }

  function Left(x: bv32, r: bv6): bv32
    requires r <= 32
  {
    x << r
  }

  function Right(x: bv32, r: bv6): bv32
    requires r <= 32
  {
    x >> r
  }

  /** The rotation as the chunker computes it, with two shifts. */
  function Shifts(x: bv32, r: bv6): bv32
    requires r < 32
  {
    Left(x, r) | Right(x, 32 - r)
  }

  // The two halves of a shift form, one bit further.

  lemma LeftHalf(x: bv32, r: bv6)
    requires 0 < r < 32
    ensures Left(x, r - 1) << 1 == Left(x, r)
  {
  }

  lemma RightHalf(x: bv32, r: bv6)
    requires 0 < r < 32
    ensures (Left(x, r - 1) >> 31) | (Right(x, 33 - r) << 1) == Right(x, 32 - r)
    ensures Right(x, 33 - r) >> 31 == 0
  {
  }

  /** a | b, rotated by one bit, is left | right. */
  predicate Halves(a: bv32, b: bv32, left: bv32, right: bv32) {
    a << 1 == left && b >> 31 == 0 && (a >> 31) | (b << 1) == right
  }

  lemma HalvesJoin(a: bv32, b: bv32, left: bv32, right: bv32)
    requires Halves(a, b, left, right)
    ensures Rotl1(a | b) == left | right
  {
  }

  lemma HalvesOfShifts(x: bv32, r: bv6)
    requires 0 < r < 32
    ensures Halves(Left(x, r - 1), Right(x, 33 - r), Left(x, r), Right(x, 32 - r))
  {
    hide Left, Right;
    LeftHalf(x, r);
    RightHalf(x, r);
  }

  lemma ShiftsNext(x: bv32, r: bv6)
    requires 0 < r < 32
    ensures Shifts(x, r) == Rotl1(Shifts(x, r - 1))
  {
    hide Left, Right, Halves, Rotl1;
    HalvesOfShifts(x, r);
    assert 32 - (r - 1) == 33 - r;
    HalvesJoin(Left(x, r - 1), Right(x, 33 - r), Left(x, r), Right(x, 32 - r));
  }

  lemma {:induction false} ShiftsIsRotl(x: bv32, r: bv6)
    requires r < 32
    ensures Shifts(x, r) == Rotl(x, r as nat)
    decreases r as nat
  {
    if r == 0 {
      assert r as nat == 0;
    } else {
      assert (r - 1) as nat == r as nat - 1;
      ShiftsNext(x, r);
      ShiftsIsRotl(x, r - 1);
    }
  }

  /** The rotation macro of the chunker, for the amounts 0 to 31 it is used with. */
  function RotlMacro(x: bv32, n: nat): (y: bv32)
    requires n < 32
    ensures y == Rotl(x, n)
  {
    var r := n as bv6;
    assert r as nat == n;
    ShiftsIsRotl(x, r);
    Shifts(x, r)
  }

  /** Bit i of a word. */
  function Bit(x: bv32, i: bv6): bv32
    requires i < 32
  {
    (x >> i) & 1
  }

  lemma Rotl1Bits(x: bv32, i: bv6)
    requires i < 32
    ensures Bit(Rotl1(x), i) == Bit(x, (i - 1) & 31)
  {
  }

  lemma BackAndBack(i: bv6, r: bv6)
    requires i < 32 && 0 < r < 32
    ensures (i - 1) & 31 < 32 && (i - r) & 31 < 32
    ensures (((i - 1) & 31) - (r - 1)) & 31 == (i - r) & 31
  {
  }

  /** A rotation by r moves every bit by r places to the left, around the end. */
  lemma {:induction false} RotlBits(x: bv32, r: bv6, i: bv6)
    requires r < 32 && i < 32
    ensures (i - r) & 31 < 32
    ensures Bit(Rotl(x, r as nat), i) == Bit(x, (i - r) & 31)
    decreases r as nat
  {
    hide Bit, Rotl1;
    if r == 0 {
      assert r as nat == 0 && (i - r) & 31 == i;
    } else {
      assert (r - 1) as nat == r as nat - 1;
      BackAndBack(i, r);
      Rotl1Bits(Rotl(x, (r - 1) as nat), i);
      RotlBits(x, r - 1, (i - 1) & 31);
    }
  }

  function Xor(x: bv32, y: bv32): bv32 {
    x ^ y
  }

  lemma Rotl1Xor(x: bv32, y: bv32)
    ensures Rotl1(Xor(x, y)) == Xor(Rotl1(x), Rotl1(y))
  {
  }

  lemma XorAssociates(a: bv32, b: bv32, c: bv32)
    ensures Xor(Xor(a, b), c) == Xor(a, Xor(b, c))
  {
  }

  lemma XorCommutes(a: bv32, b: bv32)
    ensures Xor(a, b) == Xor(b, a)
  {
  }

  lemma XorZero(a: bv32)
    ensures Xor(a, a) == 0 && Xor(a, 0) == a
  {
  }

  lemma XorLaws(a: bv32, b: bv32, c: bv32)
    ensures Xor(Xor(a, b), c) == Xor(a, Xor(b, c))
    ensures Xor(a, b) == Xor(b, a)
    ensures Xor(Xor(a, b), a) == b
    ensures Xor(a, 0) == a
  {
    hide Xor;
    XorAssociates(a, b, c);
    XorCommutes(a, b);
    XorAssociates(b, a, a);
    XorZero(a);
    XorZero(b);
  }

  lemma Rotl1OfTop(x: bv32)
    ensures Rotl1(Rotl(x, 31)) == x
  {
    ShiftsIsRotl(x, 31);
    assert (31 as bv6) as nat == 31;
    assert Rotl1(Shifts(x, 31)) == x;
  }

  lemma RotlOnce(x: bv32)
    ensures Rotl(x, 1) == Rotl1(x)
  {
    assert Rotl(x, 0) == x;
  }

  /** Rotation amounts count modulo 32. */
  lemma Rotl1Mod(x: bv32, k: nat)
    ensures Rotl1(Rotl(x, k % 32)) == Rotl(x, (k + 1) % 32)
  {
    if k % 32 == 31 {
      Rotl1OfTop(x);
    }
  }

  // ----- The hash of a window -----

  /** The xor over the first n window bytes b_i of rotl(T[b_i], (47 - i) mod 32). */
  function WindowHash(table: seq<bv32>, w: seq<byte>, n: nat): bv32
    requires |table| == 256 && n <= |w| == WINDOW
  {
    if n == 0 then 0
    else Xor(WindowHash(table, w, n - 1), Rotl(table[w[n - 1]], (WINDOW - n) % 32))
  }

  function DirectHash(table: seq<bv32>, w: seq<byte>): bv32
    requires |table| == 256 && |w| == WINDOW
  {
    WindowHash(table, w, WINDOW)
  }

  /** One rotation of the hash of w's first n + 1 bytes is the contribution of the
      byte that leaves, and the hash of the first n bytes of the slid window. */
  lemma {:induction false} SlidePrefix(table: seq<bv32>, w: seq<byte>, b: byte, n: nat)
    requires |table| == 256 && |w| == WINDOW && n < WINDOW
    ensures Rotl1(WindowHash(table, w, n + 1)) ==
            Xor(Rotl(table[w[0]], WINDOW % 32), WindowHash(table, w[1..] + [b], n))
  {
    hide Rotl, Rotl1, Xor;
    var out, w' := table[w[0]], w[1..] + [b];
    if n == 0 {
      Rotl1Mod(out, WINDOW - 1);
      XorLaws(Rotl(out, (WINDOW - 1) % 32), 0, 0);
      XorLaws(Rotl(out, WINDOW % 32), 0, 0);
    } else {
      var t := Rotl(table[w[n]], (WINDOW - (n + 1)) % 32);
      assert w'[n - 1] == w[n];
      SlidePrefix(table, w, b, n - 1);
      Rotl1Xor(WindowHash(table, w, n), t);
      Rotl1Mod(table[w[n]], WINDOW - (n + 1));
      XorLaws(Rotl(out, WINDOW % 32), WindowHash(table, w', n - 1), Rotl1(t));
    }
  }

  /** The incremental update of the scan loop is the direct hash of the slid window. */
  lemma Slide(table: seq<bv32>, w: seq<byte>, b: byte)
    requires |table| == 256 && |w| == WINDOW
    ensures Xor(Xor(Rotl1(DirectHash(table, w)), Rotl(table[w[0]], WINDOW % 32)), table[b]) ==
            DirectHash(table, w[1..] + [b])
  {
    hide Rotl1, Xor;
    var out, rest := Rotl(table[w[0]], WINDOW % 32), WindowHash(table, w[1..] + [b], WINDOW - 1);
    SlidePrefix(table, w, b, WINDOW - 1);
    XorLaws(out, rest, 0);
  }

  /** The boundary test of the chunker. */
  predicate IsBoundary(hash: bv32, d: bv32)
    requires d >= 1
  {
    hash % d == d - 1
  }
}

/** The content-defined chunker of lib/hpcdcchunker: a buffer that is refilled from a
    feeder, scanned with an incremental hash. It refines ChunkLen, a function of the
    bytes that remain. */
module Chunking {
  import opened Prelude
  import opened RollingHash

  datatype Params = Params(min: nat, avg: nat, max: nat, discriminator: bv32, table: seq<bv32>)

  /** What creating a chunker asserts of its parameters, and that neither the size of
      the feed buffer nor the discriminator wraps to zero. */
  ghost predicate Ok(p: Params) {
    && WINDOW <= p.min <= p.avg <= p.max
    && p.max * 4 < 0x1_0000_0000
    && p.discriminator >= 1
    && |p.table| == 256
  }

  // ----- The memoryless chunk function -----

  /** The 48 bytes that end at position q hash to a boundary. */
  predicate BoundaryAt(p: Params, data: seq<byte>, q: nat)
    requires Ok(p) && WINDOW <= q <= |data|
  {
    IsBoundary(DirectHash(p.table, data[q - WINDOW..q]), p.discriminator)
  }

  /** The first boundary after pos, or the limit. */
  function CutAfter(p: Params, data: seq<byte>, pos: nat, limit: nat): (cut: nat)
    requires Ok(p) && WINDOW <= pos <= limit <= |data|
    ensures pos <= cut <= limit && (pos < limit ==> pos < cut)
    decreases limit - pos
  {
    hide BoundaryAt;
    if pos == limit then limit
    else if BoundaryAt(p, data, pos + 1) then pos + 1
    else CutAfter(p, data, pos + 1, limit)
  }

  lemma CutAfterStep(p: Params, data: seq<byte>, pos: nat, limit: nat)
    requires Ok(p) && WINDOW <= pos < limit <= |data|
    ensures CutAfter(p, data, pos, limit) ==
            if BoundaryAt(p, data, pos + 1) then pos + 1 else CutAfter(p, data, pos + 1, limit)
  {
    hide BoundaryAt;
  }

  lemma CutAfterEnd(p: Params, data: seq<byte>, limit: nat)
    requires Ok(p) && WINDOW <= limit <= |data|
    ensures CutAfter(p, data, limit, limit) == limit
  {
  }

  lemma {:induction false} CutAfterIsFirst(p: Params, data: seq<byte>, pos: nat, limit: nat)
    requires Ok(p) && WINDOW <= pos <= limit <= |data|
    ensures var cut := CutAfter(p, data, pos, limit);
            && (forall q :: pos < q < cut ==> !BoundaryAt(p, data, q))
            && (cut < limit ==> BoundaryAt(p, data, cut))
    decreases limit - pos
  {
    hide BoundaryAt;
    if pos < limit {
      CutAfterIsFirst(p, data, pos + 1, limit);
    }
  }

  function Min(a: nat, b: nat): nat {
    if a < b then a else b
  }

  /** The length of the next chunk of the remaining bytes. */
  function ChunkLen(p: Params, rest: seq<byte>): (n: nat)
    requires Ok(p)
    ensures n <= |rest| && (rest != [] ==> n > 0)
    ensures n <= p.max && (n < p.min ==> n == |rest|)
  {
    if |rest| <= p.min then |rest| else CutAfter(p, rest, p.min, Min(|rest|, p.max))
  }

  /** A chunk of the remaining bytes ends after n of them: at the first boundary behind the
      minimal length, at the maximal length, or where the bytes end. */
  ghost predicate CutsAt(p: Params, rest: seq<byte>, n: nat)
    requires Ok(p)
  {
    && n <= |rest| && n <= p.max
    && (|rest| <= p.min ==> n == |rest|)
    && (|rest| > p.min ==> p.min <= n && (p.min < p.max ==> p.min < n))
    && (forall q :: p.min < q < n ==> !BoundaryAt(p, rest, q))
    && (n < |rest| && n < p.max ==> BoundaryAt(p, rest, n))
  }

  /** That determines the chunk. */
  lemma ChunkLenIff(p: Params, rest: seq<byte>, n: nat)
    requires Ok(p)
    ensures n == ChunkLen(p, rest) <==> CutsAt(p, rest, n)
  {
    hide BoundaryAt;
    var len := ChunkLen(p, rest);
    if |rest| > p.min {
      CutAfterIsFirst(p, rest, p.min, Min(|rest|, p.max));
    }
    assert CutsAt(p, rest, len);
  }

  function Chunks(p: Params, rest: seq<byte>): (cs: seq<seq<byte>>)
    requires Ok(p)
  {
    if rest == [] then []
    else
      var n := ChunkLen(p, rest);
      [rest[..n]] + Chunks(p, rest[n..])
  }

  // ----- Properties of the chunk function -----

  /** The bytes after the limit do not matter to a cut. */
  lemma {:induction false} CutAfterPrefix(p: Params, a: seq<byte>, b: seq<byte>, pos: nat, limit: nat)
    requires Ok(p) && WINDOW <= pos <= limit <= |a| && limit <= |b|
    requires a[..limit] == b[..limit]
    ensures CutAfter(p, a, pos, limit) == CutAfter(p, b, pos, limit)
    decreases limit - pos
  {
    hide IsBoundary, DirectHash;
    if pos < limit {
      var q := pos + 1;
      assert a[q - WINDOW..q] == a[..limit][q - WINDOW..q] == b[..limit][q - WINDOW..q] == b[q - WINDOW..q];
      CutAfterPrefix(p, a, b, q, limit);
    }
  }

  /** A buffer decides the next chunk once it holds a maximal chunk or all that
      remains. */
  lemma ChunkLenOfBuffer(p: Params, buffered: seq<byte>, more: seq<byte>)
    requires Ok(p) && (|buffered| >= p.max || more == [])
    ensures ChunkLen(p, buffered) == ChunkLen(p, buffered + more)
  {
    var rest := buffered + more;
    if more == [] {
      assert rest == buffered;
    } else if |buffered| > p.min {
      CutAfterPrefix(p, buffered, rest, p.min, p.max);
    }
  }

  /** The chunks concatenate to the stream; none is empty or too long and only the
      last may be short. */
  lemma {:induction false} ChunksCover(p: Params, rest: seq<byte>)
    requires Ok(p)
    ensures Flatten(Chunks(p, rest)) == rest
    ensures forall i :: 0 <= i < |Chunks(p, rest)| ==> 0 < |Chunks(p, rest)[i]| <= p.max
    ensures forall i :: 0 <= i < |Chunks(p, rest)| - 1 ==> |Chunks(p, rest)[i]| >= p.min
  {
    hide ChunkLen;
    if rest != [] {
      var n := ChunkLen(p, rest);
      ChunksCover(p, rest[n..]);
      var cs, tail := Chunks(p, rest), Chunks(p, rest[n..]);
      assert cs == [rest[..n]] + tail;
      assert cs[1..] == tail;
      assert rest == rest[..n] + rest[n..];
      if n < p.min {
        assert rest[n..] == [];
      }
    }
  }

  /** A list of byte strings is the chunking of the stream exactly if it makes up the stream,
      and each of them is cut at the first boundary of what remains there. */
  lemma {:induction false} ChunksIff(p: Params, rest: seq<byte>, cs: seq<seq<byte>>)
    requires Ok(p)
    ensures cs == Chunks(p, rest) <==>
            && Flatten(cs) == rest
            && forall i :: 0 <= i < |cs| ==> cs[i] != [] && CutsAt(p, Flatten(cs[i..]), |cs[i]|)
    decreases |cs|
  {
    hide ChunkLen, CutsAt, Ok, Flatten;
    ChunksCover(p, rest);
    if cs == [] {
      NoPieces<byte>();
    } else if Flatten(cs) == rest {
      CutsTail(p, cs);
      assert rest == cs[0] + Flatten(cs[1..]);
      ChunkLenIff(p, rest, |cs[0]|);
      ChunksIff(p, rest[|cs[0]|..], cs[1..]);
      if cs[0] != [] && |cs[0]| == ChunkLen(p, rest) {
        assert Chunks(p, rest) == [cs[0]] + Chunks(p, rest[|cs[0]|..]);
        assert cs == [cs[0]] + cs[1..];
      }
    }
  }

  lemma NoPieces<T>()
    ensures Flatten<T>([]) == []
  {
  }

  /** Every string is cut right if the first is and the others are. */
  lemma CutsTail(p: Params, cs: seq<seq<byte>>)
    requires Ok(p) && cs != []
    ensures Flatten(cs) == cs[0] + Flatten(cs[1..])
    ensures (forall i :: 0 <= i < |cs| ==> cs[i] != [] && CutsAt(p, Flatten(cs[i..]), |cs[i]|)) <==>
            && cs[0] != [] && CutsAt(p, Flatten(cs), |cs[0]|)
            && forall i :: 0 <= i < |cs[1..]| ==> cs[1..][i] != [] && CutsAt(p, Flatten(cs[1..][i..]), |cs[1..][i]|)
  {
    hide CutsAt, Ok;
    assert cs[0..] == cs;
    assert forall i :: 0 <= i < |cs[1..]| ==> cs[1..][i] == cs[i + 1] && cs[1..][i..] == cs[i + 1..];
    assert forall i :: 0 < i < |cs| ==> cs[1..][i - 1] == cs[i];
  }

  /** A stream of n bytes has at most 1 + n / 48 chunks, and none when it is empty. */
  lemma {:induction false} ChunkCountBound(p: Params, rest: seq<byte>)
    requires Ok(p)
    ensures |Chunks(p, rest)| <= MaxChunkCount(|rest|)
  {
    hide ChunkLen;
    if rest != [] {
      var n := ChunkLen(p, rest);
      ChunkCountBound(p, rest[n..]);
      if n >= p.min && n < |rest| {
        assert (|rest| - n) / WINDOW <= |rest| / WINDOW - 1;
      }
    }
  }

  /** The slots that are set aside for the chunks of a job. */
  function MaxChunkCount(size: nat): nat {
    if size == 0 then 0 else 1 + size / WINDOW
  }

  // ----- Resynchronisation -----

  /** Where chunk k of the stream starts. */
  function CutPosition(p: Params, s: seq<byte>, k: nat): nat
    requires Ok(p) && k <= |Chunks(p, s)|
  {
    |Flatten(Chunks(p, s)[..k])|
  }

  /** From a cut on, the chunks are those of the remaining bytes alone. */
  lemma {:induction false} ChunksFromCut(p: Params, s: seq<byte>, k: nat)
    requires Ok(p) && k <= |Chunks(p, s)|
    ensures var at := CutPosition(p, s, k);
            at <= |s| && Chunks(p, s)[k..] == Chunks(p, s[at..])
    decreases k
  {
    hide ChunkLen;
    if k == 0 {
      assert s[0..] == s;
    } else {
      var n := ChunkLen(p, s);
      var rest := s[n..];
      ChunksFromCut(p, rest, k - 1);
      assert Chunks(p, s) == [s[..n]] + Chunks(p, rest);
      assert Chunks(p, s)[..k] == [s[..n]] + Chunks(p, rest)[..k - 1];
      assert Flatten(Chunks(p, s)[..k]) == s[..n] + Flatten(Chunks(p, rest)[..k - 1]) by {
        assert Chunks(p, s)[..k][1..] == Chunks(p, rest)[..k - 1];
      }
      assert rest[CutPosition(p, rest, k - 1)..] == s[CutPosition(p, s, k)..];
    }
  }

  /** Two streams that both have a cut at the start of a common suffix have identical
      chunks from there on. */
  lemma Resynchronise(p: Params, a: seq<byte>, k: nat, b: seq<byte>, l: nat)
    requires Ok(p) && k <= |Chunks(p, a)| && l <= |Chunks(p, b)|
    ensures CutPosition(p, a, k) <= |a| && CutPosition(p, b, l) <= |b|
    ensures a[CutPosition(p, a, k)..] == b[CutPosition(p, b, l)..] <==> Chunks(p, a)[k..] == Chunks(p, b)[l..]
  {
    ChunksFromCut(p, a, k);
    ChunksFromCut(p, b, l);
    ChunksCover(p, a[CutPosition(p, a, k)..]);
    ChunksCover(p, b[CutPosition(p, b, l)..]);
  }

  // ----- The feeder and the buffered chunker -----

  /** The file range a chunker reads from (StorageChunkFeederContext). */
  class Feeder {
    const data: seq<byte>
    var offset: nat

    constructor (data: seq<byte>)
      ensures this.data == data && offset == 0
    {
      this.data := data;
      offset := 0;
    }

    ghost predicate Valid()
      reads this
    {
      offset <= |data|
    }

    /** Copies min(requested, remaining) bytes into the buffer. */
    method Feed(buf: array<byte>, at: nat, requested: nat) returns (count: nat)
      requires Valid() && at + requested <= buf.Length && requested > 0
      modifies this`offset, buf
      ensures Valid() && offset == old(offset) + count
      ensures count == Min(requested, |data| - old(offset))
      ensures buf[..at] == old(buf[..at])
      ensures buf[at..at + count] == data[old(offset)..old(offset) + count]
    {
      count := |data| - offset;
      if count > 0 {
        if requested < count {
          count := requested;
        }
        forall i | 0 <= i < count {
          buf[at + i] := data[offset + i];
        }
        offset := offset + count;
      }
    }
  }

  /** A chunk handed out: where it lies in the buffer, its place in the stream and
      its length. */
  datatype ChunkRange = ChunkRange(pos: nat, offset: nat, len: nat)

  class Chunker {
    const p: Params
    const buf: array<byte>
    const window: array<byte>
    var len: nat
    var off: nat
    var processed: nat

    ghost predicate Valid()
      reads this
    {
      && Ok(p)
      && buf.Length == p.max * 4
      && window.Length == WINDOW
      && window != buf
      && off <= len <= buf.Length
    }

    /** The bytes that are still to be chunked. */
    ghost function Rest(f: Feeder): seq<byte>
      requires Valid() && f.Valid()
      reads this, buf, f
    {
      buf[off..len] + f.data[f.offset..]
    }

    /** Where in the stream the next chunk starts. */
    function Position(): nat
      reads this
    {
      processed + off
    }

    constructor (p: Params)
      requires Ok(p)
      ensures Valid() && fresh(buf) && fresh(window) && this.p == p
      ensures len == off == 0 && Position() == 0
    {
      this.p := p;
      buf := new byte[p.max * 4];
      window := new byte[WINDOW];
      len, off, processed := 0, 0, 0;
    }

    /** Moves what is left to the front of the buffer. */
    method Compact()
      requires Valid()
      modifies this`len, this`off, this`processed, buf
      ensures Valid() && off == 0 && len == old(len - off)
      ensures buf[..len] == old(buf[off..len]) && Position() == old(Position())
    {
      if off != 0 {
        forall i | 0 <= i < len - off {
          buf[i] := buf[off + i];
        }
        processed := processed + off;
        len := len - off;
        off := 0;
      }
    }

    /** Moves what is left to the front of the buffer and fills it up. */
    method FeedChunker(f: Feeder)
      requires Valid() && f.Valid() && len - off < p.max
      modifies this`len, this`off, this`processed, buf, f`offset
      ensures Valid() && f.Valid()
      ensures Rest(f) == old(Rest(f)) && Position() == old(Position())
      ensures off == 0 && (len >= p.max || f.offset == |f.data|)
    {
      hide Ok;
      ghost var left, start := buf[off..len], f.offset;
      Compact();
      var feedMax := buf.Length - len;
      var count := f.Feed(buf, len, feedMax);
      ghost var fed := f.data[start..f.offset];
      assert buf[..len + count] == left + fed by {
        assert buf[..len + count] == buf[..len] + buf[len..len + count];
      }
      len := len + count;
      assert Rest(f) == left + f.data[start..] by {
        assert f.data[start..] == fed + f.data[f.offset..];
      }
    }

    /** The ring holds the window that ends at pos, with its oldest byte at idx. */
    ghost predicate RingHolds(data: seq<byte>, pos: nat, idx: nat)
      requires Valid() && WINDOW <= pos <= |data|
      reads this, window
    {
      idx < WINDOW && window[idx..] + window[..idx] == data[pos - WINDOW..pos]
    }

    /** Hashes the window that ends at the minimum chunk length and remembers its
        bytes in the ring. */
    method StartWindow(ghost data: seq<byte>) returns (hash: bv32)
      requires Valid() && off + p.min <= len && data == buf[off..len]
      modifies window
      ensures RingHolds(data, p.min, 0)
      ensures hash == DirectHash(p.table, data[p.min - WINDOW..p.min])
    {
      hide Rotl, Xor;
      var start := off + p.min - WINDOW;
      ghost var w := data[p.min - WINDOW..p.min];
      hash := 0;
      for i := 0 to WINDOW
        invariant window[..i] == w[..i]
        invariant hash == WindowHash(p.table, w, i)
      {
        var b := buf[start + i];
        assert b == w[i];
        hash := Xor(hash, RotlMacro(p.table[b], (WINDOW - i - 1) % 32));
        window[i] := b;
      }
      assert window[0..] + window[..0] == window[..WINDOW] == w[..WINDOW] == w;
    }

    /** Replaces the oldest byte of the ring. */
    method SlideRing(ghost data: seq<byte>, pos: nat, idx: nat, incoming: byte) returns (outgoing: byte, next: nat)
      requires Valid() && WINDOW <= pos < |data| && RingHolds(data, pos, idx) && incoming == data[pos]
      modifies window
      ensures outgoing == data[pos - WINDOW]
      ensures RingHolds(data, pos + 1, next)
    {
      hide Ok;
      ghost var w := data[pos - WINDOW..pos];
      ghost var tail, head := window[idx + 1..], window[..idx];
      outgoing := window[idx];
      assert w == [outgoing] + tail + head by {
        assert window[idx..] == [outgoing] + tail;
      }
      window[idx] := incoming;
      next := if idx + 1 == WINDOW then 0 else idx + 1;
      assert window[idx + 1..] == tail && window[..idx + 1] == head + [incoming];
      assert data[pos + 1 - WINDOW..pos + 1] == w[1..] + [incoming];
      assert window[next..] + window[..next] == tail + (head + [incoming]);
    }

    /** One step of the scan: takes in the byte at pos and updates ring and hash. */
    method TakeIn(ghost data: seq<byte>, pos: nat, idx: nat, hash: bv32) returns (next: nat, hash': bv32, hit: bool)
      requires Valid() && data == buf[off..len] && WINDOW <= pos < |data|
      requires RingHolds(data, pos, idx) && hash == DirectHash(p.table, data[pos - WINDOW..pos])
      modifies window
      ensures RingHolds(data, pos + 1, next)
      ensures hash' == DirectHash(p.table, data[pos + 1 - WINDOW..pos + 1])
      ensures hit == BoundaryAt(p, data, pos + 1)
    {
      hide Rotl, Rotl1, Xor, DirectHash, IsBoundary;
      ghost var w := data[pos - WINDOW..pos];
      var incoming := buf[off + pos];
      var outgoing;
      outgoing, next := SlideRing(data, pos, idx, incoming);
      RotlOnce(hash);
      Slide(p.table, w, incoming);
      assert w[1..] + [incoming] == data[pos + 1 - WINDOW..pos + 1];
      hash' := Xor(Xor(RotlMacro(hash, 1), RotlMacro(p.table[outgoing], WINDOW % 32)), p.table[incoming]);
      hit := IsBoundary(hash', p.discriminator);
    }

    /** Scans for the first boundary with the incremental hash. */
    method Scan() returns (pos: nat)
      requires Valid() && p.min < len - off
      modifies window
      ensures pos == ChunkLen(p, buf[off..len]) && CutsAt(p, buf[off..len], pos)
    {
      hide CutsAt, IsBoundary, DirectHash, CutAfter, BoundaryAt, RingHolds;
      ghost var data := buf[off..len];
      var left := len - off;
      var hash := StartWindow(data);
      pos := p.min;
      var idx, hit := 0, false;
      var limit := if left > p.max then p.max else left;
      while pos < limit
        invariant p.min <= pos <= limit && data == buf[off..len]
        invariant RingHolds(data, pos, idx)
        invariant hash == DirectHash(p.table, data[pos - WINDOW..pos])
        invariant CutAfter(p, data, pos, limit) == CutAfter(p, data, p.min, limit)
      {
        CutAfterStep(p, data, pos, limit);
        idx, hash, hit := TakeIn(data, pos, idx, hash);
        pos := pos + 1;
        if hit {
          ChunkLenIff(p, data, pos);
          return;
        }
      }
      CutAfterEnd(p, data, limit);
      ChunkLenIff(p, data, pos);
    }

    /** The length of the next chunk, once the buffer holds enough to tell. */
    method Measure() returns (n: nat)
      requires Valid()
      modifies window
      ensures n == ChunkLen(p, buf[off..len])
    {
      if off == len {
        n := 0;
      } else if len - off <= p.min {
        n := len - off;
      } else {
        n := Scan();
      }
    }

    /** The next chunk: exactly the next chunk of the bytes that remain. */
    method NextChunk(f: Feeder) returns (r: ChunkRange)
      requires Valid() && f.Valid()
      modifies this`len, this`off, this`processed, buf, window, f`offset
      ensures Valid() && f.Valid()
      ensures r.len == ChunkLen(p, old(Rest(f))) && CutsAt(p, old(Rest(f)), r.len)
      ensures r.offset == old(Position())
      ensures Rest(f) == old(Rest(f))[r.len..] && Position() == old(Position()) + r.len
      ensures r.pos + r.len <= buf.Length && buf[r.pos..r.pos + r.len] == old(Rest(f))[..r.len]
    {
      hide ChunkLen, CutsAt, Ok;
      if len - off < p.max {
        FeedChunker(f);
      }
      ghost var data, more := buf[off..len], f.data[f.offset..];
      assert data + more == old(Rest(f));
      BufferCuts(p, data, more);
      var n := Measure();
      r := ChunkRange(off, processed + off, n);
      off := off + n;
      SplitBuffer(data, more, n);
      SliceSlice(buf[..], r.pos, len, n, |data|);
      SliceSlice(buf[..], r.pos, len, 0, n);
    }
  }

  /** The buffer decides the next chunk, which is cut at a boundary. */
  lemma BufferCuts(p: Params, buffered: seq<byte>, more: seq<byte>)
    requires Ok(p) && (|buffered| >= p.max || more == [])
    ensures ChunkLen(p, buffered) == ChunkLen(p, buffered + more)
    ensures CutsAt(p, buffered + more, ChunkLen(p, buffered))
  {
    hide CutsAt, ChunkLen;
    ChunkLenOfBuffer(p, buffered, more);
    ChunkLenIff(p, buffered + more, ChunkLen(p, buffered));
  }

  lemma SplitBuffer<T>(data: seq<T>, more: seq<T>, n: nat)
    requires n <= |data|
    ensures (data + more)[n..] == data[n..|data|] + more && (data + more)[..n] == data[0..n]
  {
  }
}

/** The memory workload: three chunked passes over one buffer, in place. */
module Memory {
  import opened Models
  import opened ByteStrings
  import opened Control

  function Pattern(): (p: Bytes)
    ensures |p| == 256 && forall i :: 0 <= i < 256 ==> p[i] == (i * 131 + 17) % 256
  {
    seq(256, i requires 0 <= i < 256 => (i * 131 + 17) % 256)
  }

  function PowerOfTwo(n: nat): (r: nat)
    ensures r > 0
  {
    if n == 0 then 1 else 2 * PowerOfTwo(n - 1)
  }

  /** Exclusive or of the lowest `bits` bits. */
  function Xor(a: nat, b: nat, bits: nat): (r: nat)
    ensures r < PowerOfTwo(bits)
  {
    if bits == 0 then 0 else 2 * Xor(a / 2, b / 2, bits - 1) + if a % 2 == b % 2 then 0 else 1
  }

  /** The translation table: exclusive or with 0xA5. */
  function Transform(b: Byte): Byte {
    assert PowerOfTwo(8) == 256;
    Xor(b, 0xA5, 8)
  }

  function Translate(s: Bytes): (r: Bytes)
    ensures |r| == |s| && forall i :: 0 <= i < |s| ==> r[i] == Transform(s[i])
  {
    seq(|s|, i requires 0 <= i < |s| => Transform(s[i]))
  }

  lemma {:induction false} XorTwice(a: nat, b: nat, bits: nat)
    requires a < PowerOfTwo(bits)
    ensures Xor(Xor(a, b, bits), b, bits) == a
  {
    if bits > 0 {
      var x := Xor(a, b, bits);
      assert x / 2 == Xor(a / 2, b / 2, bits - 1);
      XorTwice(a / 2, b / 2, bits - 1);
    }
  }

  function PowerStep(n: nat): (r: nat)
    requires n > 0
    ensures r == PowerOfTwo(n - 1) && PowerOfTwo(n) == 2 * r
  {
    PowerOfTwo(n - 1)
  }

  lemma HalfThenPower(x: nat, k: nat)
    requires k > 0
    ensures x / PowerOfTwo(k) == x / 2 / PowerOfTwo(k - 1)
  {
    var m := PowerStep(k);
    var q, r := x / 2, x % 2;
    var q2, r2 := q / m, q % m;
    assert x == 2 * q + r && q == q2 * m + r2;
    assert 2 * (q2 * m) == q2 * (2 * m);
    assert 2 * r2 + r < 2 * m;
    DivUnique(x, 2 * m, q2, 2 * r2 + r);
  }

  function Bit(x: nat, k: nat): nat {
    x / PowerOfTwo(k) % 2
  }

  /** Bit by bit. */
  lemma {:induction false} XorBit(a: nat, b: nat, bits: nat, k: nat)
    requires k < bits
    ensures Bit(Xor(a, b, bits), k) == if Bit(a, k) == Bit(b, k) then 0 else 1
  {
    var x := Xor(a, b, bits);
    assert x / 2 == Xor(a / 2, b / 2, bits - 1);
    if k > 0 {
      XorBit(a / 2, b / 2, bits - 1, k - 1);
      HalfThenPower(x, k);
      HalfThenPower(a, k);
      HalfThenPower(b, k);
    } else {
      assert PowerOfTwo(0) == 1;
    }
  }

  /** The translation flips bits 0, 2, 5 and 7, where 0xA5 has a one, and no other. */
  lemma TransformFlips(b: Byte, k: nat)
    requires k < 8
    ensures Bit(Transform(b), k) != Bit(b, k) <==> k in {0, 2, 5, 7}
  {
    XorBit(b, 0xA5, 8, k);
    BitsOfA5();
    hide PowerOfTwo, Xor;
  }

  lemma BitsOfA5()
    ensures forall k: nat :: k < 8 ==> (Bit(0xA5, k) == 1 <==> k in {0, 2, 5, 7})
  {
    assert Bit(0xA5, 0) == 1 && Bit(0xA5, 1) == 0 && Bit(0xA5, 2) == 1 && Bit(0xA5, 3) == 0;
    assert Bit(0xA5, 4) == 0 && Bit(0xA5, 5) == 1 && Bit(0xA5, 6) == 0 && Bit(0xA5, 7) == 1;
  }

  /** The table is its own inverse, so no two bytes share a translation. */
  lemma TransformTwice(b: Byte)
    ensures Transform(Transform(b)) == b
  {
    assert PowerOfTwo(8) == 256;
    XorTwice(b, 0xA5, 8);
  }

  function PatternChunk(size: nat, transformed: bool): (r: Bytes)
    ensures |r| == size
  {
    Tiled(if transformed then Translate(Pattern()) else Pattern(), size)
  }

  /** The byte the first pass puts at offset `i`: the pattern restarts with every chunk. */
  function Filled(chunk: nat, i: nat): Byte
    requires chunk > 0
  {
    Pattern()[(i % chunk) % 256]
  }

  lemma PatternChunkAt(size: nat, transformed: bool, i: nat)
    requires i < size
    ensures PatternChunk(size, transformed)[i] == if transformed then Transform(Pattern()[i % 256]) else Pattern()[i % 256]
  {
    TiledAt(if transformed then Translate(Pattern()) else Pattern(), size, i);
  }

  /** Inside the chunk that starts at a multiple of the chunk size, offsets count from its start. */
  lemma OffsetInChunk(chunk: nat, k: nat, j: nat)
    requires j < chunk
    ensures (k * chunk + j) % chunk == j
  {
    DivUnique(k * chunk + j, chunk, k, j);
  }

  /** What the buffer holds after the passes when every load returns what was stored. */
  function Expected(chunk: nat, allocation: nat): (r: Bytes)
    requires chunk > 0
    ensures |r| == allocation && forall i :: 0 <= i < allocation ==> r[i] == Transform(Filled(chunk, i))
  {
    seq(allocation, i requires 0 <= i < allocation => Transform(Filled(chunk, i)))
  }

  /** `load(pass, i, stored)` is what the machine returns when cell `i`, holding `stored`, is read. */
  type Loads = (nat, nat, Byte) -> Byte

  function Seen(load: Loads, chunk: nat, i: nat): Byte
    requires chunk > 0
  {
    load(3, i, Transform(load(2, i, Filled(chunk, i))))
  }

  function AllSeen(load: Loads, chunk: nat, allocation: nat): (r: Bytes)
    requires chunk > 0
    ensures |r| == allocation && forall i :: 0 <= i < allocation ==> r[i] == Seen(load, chunk, i)
  {
    seq(allocation, i requires 0 <= i < allocation => Seen(load, chunk, i))
  }

  method WriteSlice(buffer: array<Byte>, offset: nat, source: Bytes)
    requires offset + |source| <= buffer.Length
    modifies buffer
    ensures forall i :: 0 <= i < buffer.Length ==>
              buffer[i] == if offset <= i < offset + |source| then source[i - offset] else old(buffer[i])
  {
    forall j | 0 <= j < |source| {
      buffer[offset + j] := source[j];
    }
  }

  /** The bytes of a slice of the stored ones, as the given pass reads them. */
  function ReadSlice(stored: Bytes, load: Loads, pass: nat, offset: nat, length: nat): (r: Bytes)
    requires offset + length <= |stored|
    ensures |r| == length
  {
    seq(length, j requires 0 <= j < length => load(pass, offset + j, stored[offset + j]))
  }

  /** First pass: after it, byte `i` is the pattern at (i mod chunk) mod 256. */
  method Fill(buffer: array<Byte>, chunk: nat, checkpoint: (nat, nat) -> Option<Interrupt>) returns (raised: Option<Interrupt>)
    requires chunk > 0
    modifies buffer
    ensures raised.None? ==> forall i :: 0 <= i < buffer.Length ==> buffer[i] == Filled(chunk, i)
    ensures raised.None? <==> PassesAll(checkpoint, 1, buffer.Length, chunk)
    ensures raised.Some? ==> exists k: nat :: checkpoint(1, k) == raised
  {
    hide Filled, PassesAll;
    var source := PatternChunk(chunk, false);
    var offset, k := 0, 0;
    while offset < buffer.Length
      invariant 0 <= k && offset == k * chunk
      invariant forall i :: 0 <= i < offset && i < buffer.Length ==> buffer[i] == Filled(chunk, i)
      invariant forall n: nat :: n < k ==> checkpoint(1, n).None?
      decreases buffer.Length - offset
    {
      raised := checkpoint(1, k);
      if raised.Some? {
        StopsAt(checkpoint, 1, buffer.Length, chunk, k);
        return;
      }
      var length := if chunk <= buffer.Length - offset then chunk else buffer.Length - offset;
      WriteSlice(buffer, offset, source[..length]);
      forall i | offset <= i < offset + length
        ensures buffer[i] == Filled(chunk, i)
      {
        FilledInChunk(chunk, k, i - offset);
        PatternChunkAt(chunk, false, i - offset);
      }
      offset, k := offset + chunk, k + 1;
    }
    EveryChunkVisited(checkpoint, 1, buffer.Length, chunk, k);
    raised := None;
  }

  lemma FilledInChunk(chunk: nat, k: nat, j: nat)
    requires j < chunk
    ensures Filled(chunk, k * chunk + j) == Pattern()[j % 256]
  {
    OffsetInChunk(chunk, k, j);
  }

  function ChunkStart(chunk: nat, k: nat): nat {
    k * chunk
  }

  lemma FirstChunkStart(chunk: nat)
    ensures ChunkStart(chunk, 0) == 0
  {
  }

  lemma NextChunkStart(chunk: nat, k: nat)
    ensures ChunkStart(chunk, k + 1) == ChunkStart(chunk, k) + chunk
  {
  }

  /** One checkpoint per chunk of the pass lets the workload go on. */
  ghost predicate PassesAll(checkpoint: (nat, nat) -> Option<Interrupt>, pass: nat, length: nat, chunk: nat) {
    forall k: nat :: ChunkStart(chunk, k) < length ==> checkpoint(pass, k).None?
  }

  lemma StopsAt(checkpoint: (nat, nat) -> Option<Interrupt>, pass: nat, length: nat, chunk: nat, k: nat)
    requires ChunkStart(chunk, k) < length && checkpoint(pass, k).Some?
    ensures !PassesAll(checkpoint, pass, length, chunk)
  {
  }

  /** Chunk starts below the length are exactly the first `k`, once the k-th start has passed it. */
  lemma EveryChunkVisited(checkpoint: (nat, nat) -> Option<Interrupt>, pass: nat, length: nat, chunk: nat, k: nat)
    requires chunk > 0 && ChunkStart(chunk, k) >= length
    requires forall n: nat :: n < k ==> checkpoint(pass, n).None?
    ensures PassesAll(checkpoint, pass, length, chunk)
  {
    forall n: nat | ChunkStart(chunk, n) < length
      ensures n < k
    {
      if n >= k {
        StartsGrow(chunk, k, n);
      }
    }
  }

  lemma StartsGrow(chunk: nat, k: nat, n: nat)
    requires k <= n
    ensures ChunkStart(chunk, k) <= ChunkStart(chunk, n)
  {
    Distribute(n, k, chunk);
    AtLeastZero(n - k, chunk);
  }

  lemma AtLeastZero(k: nat, n: nat)
    ensures k * n >= 0
  {
  }

  lemma ExpectedStep(chunk: nat, k: nat, length: nat)
    requires chunk > 0 && length <= chunk
    ensures Expected(chunk, k * chunk + length) == Expected(chunk, k * chunk) + PatternChunk(chunk, true)[..length]
  {
    hide Filled;
    forall j | 0 <= j < length
      ensures Transform(Filled(chunk, k * chunk + j)) == PatternChunk(chunk, true)[j]
    {
      FilledInChunk(chunk, k, j);
      PatternChunkAt(chunk, true, j);
    }
  }

  /** Every byte of the slice is read once and replaced by its translation. */
  method TranslateSlice(buffer: array<Byte>, load: Loads, offset: nat, length: nat)
    requires offset + length <= buffer.Length
    modifies buffer
    ensures forall i :: 0 <= i < buffer.Length ==>
              buffer[i] == if offset <= i < offset + length then Transform(load(2, i, old(buffer[i]))) else old(buffer[i])
  {
    hide Transform;
    WriteSlice(buffer, offset, Translate(ReadSlice(buffer[..], load, 2, offset, length)));
  }

  /** Second pass: translates every byte once, in place, and feeds the expected hasher the
      transformed pattern chunk by chunk. */
  method TransformBuffer(buffer: array<Byte>, chunk: nat, load: Loads, checkpoint: (nat, nat) -> Option<Interrupt>)
    returns (raised: Option<Interrupt>, hashed: Bytes)
    requires chunk > 0
    modifies buffer
    ensures raised.None? ==> forall i :: 0 <= i < buffer.Length ==> buffer[i] == Transform(load(2, i, old(buffer[i])))
    ensures raised.None? ==> hashed == Expected(chunk, buffer.Length)
    ensures raised.None? <==> PassesAll(checkpoint, 2, buffer.Length, chunk)
    ensures raised.Some? ==> exists k: nat :: checkpoint(2, k) == raised
  {
    hide Transform, Expected, PatternChunk, PassesAll;
    assert Expected(chunk, 0) == [];
    var source := PatternChunk(chunk, true);
    var offset, k := 0, 0;
    hashed := [];
    while offset < buffer.Length
      invariant 0 <= k && offset == k * chunk
      invariant forall i :: 0 <= i < offset && i < buffer.Length ==> buffer[i] == Transform(load(2, i, old(buffer[i])))
      invariant forall i :: offset <= i < buffer.Length ==> buffer[i] == old(buffer[i])
      invariant hashed == Expected(chunk, if offset <= buffer.Length then offset else buffer.Length)
      invariant forall n: nat :: n < k ==> checkpoint(2, n).None?
      decreases buffer.Length - offset
    {
      raised := checkpoint(2, k);
      if raised.Some? {
        StopsAt(checkpoint, 2, buffer.Length, chunk, k);
        return;
      }
      var length := if chunk <= buffer.Length - offset then chunk else buffer.Length - offset;
      TranslateSlice(buffer, load, offset, length);
      ExpectedStep(chunk, k, length);
      hashed := hashed + source[..length];
      offset, k := offset + chunk, k + 1;
    }
    EveryChunkVisited(checkpoint, 2, buffer.Length, chunk, k);
    raised := None;
  }

  lemma SliceOfWhole(stored: Bytes, load: Loads, pass: nat, offset: nat, length: nat)
    requires offset + length <= |stored|
    ensures ReadSlice(stored, load, pass, offset, length) == ReadSlice(stored, load, pass, 0, |stored|)[offset..offset + length]
  {
  }

  lemma PrefixGrows(s: Bytes, n: nat, length: nat)
    requires n + length <= |s|
    ensures s[..n] + s[n..n + length] == s[..n + length]
  {
  }

  lemma WholeSlice(stored: Bytes, load: Loads, pass: nat)
    ensures forall i :: 0 <= i < |stored| ==> ReadSlice(stored, load, pass, 0, |stored|)[i] == load(pass, i, stored[i])
  {
  }

  /** Third pass: feeds the actual hasher every byte once, in order. */
  method HashBuffer(buffer: array<Byte>, chunk: nat, load: Loads, checkpoint: (nat, nat) -> Option<Interrupt>)
    returns (raised: Option<Interrupt>, hashed: Bytes)
    requires chunk > 0
    ensures raised.None? ==> |hashed| == buffer.Length && forall i :: 0 <= i < buffer.Length ==> hashed[i] == load(3, i, buffer[i])
    ensures raised.None? <==> PassesAll(checkpoint, 3, buffer.Length, chunk)
    ensures raised.Some? ==> exists k: nat :: checkpoint(3, k) == raised
  {
    hide PassesAll;
    raised, hashed := HashView(buffer[..], chunk, load, checkpoint);
    WholeSlice(buffer[..], load, 3);
  }

  /** The loop over the read-only view of the buffer. */
  method HashView(view: Bytes, chunk: nat, load: Loads, checkpoint: (nat, nat) -> Option<Interrupt>)
    returns (raised: Option<Interrupt>, hashed: Bytes)
    requires chunk > 0
    ensures raised.None? ==> hashed == ReadSlice(view, load, 3, 0, |view|)
    ensures raised.None? <==> PassesAll(checkpoint, 3, |view|, chunk)
    ensures raised.Some? ==> exists k: nat :: checkpoint(3, k) == raised
  {
    hide ReadSlice, PassesAll, ChunkStart;
    var offset, k := 0, 0;
    hashed := [];
    ghost var all := ReadSlice(view, load, 3, 0, |view|);
    ghost var done: nat := 0;
    FirstChunkStart(chunk);
    while offset < |view|
      invariant 0 <= k && offset == ChunkStart(chunk, k)
      invariant done == if offset <= |view| then offset else |view|
      invariant hashed == all[..done]
      invariant forall n: nat :: n < k ==> checkpoint(3, n).None?
      decreases |view| - offset
    {
      raised := checkpoint(3, k);
      if raised.Some? {
        StopsAt(checkpoint, 3, |view|, chunk, k);
        return;
      }
      var length := if chunk <= |view| - offset then chunk else |view| - offset;
      SliceOfWhole(view, load, 3, offset, length);
      PrefixGrows(all, done, length);
      NextChunkStart(chunk, k);
      hashed := hashed + ReadSlice(view, load, 3, offset, length);
      done := done + length;
      offset, k := offset + chunk, k + 1;
    }
    EveryChunkVisited(checkpoint, 3, |view|, chunk, k);
    raised := None;
  }

  /** Every checkpoint on the way passes: one on entry, and one per chunk and pass. */
  ghost predicate AllPass(checkpoint: (nat, nat) -> Option<Interrupt>, allocation: nat, chunk: nat) {
    checkpoint(0, 0).None? && forall pass: nat :: 1 <= pass <= 3 ==> PassesAll(checkpoint, pass, allocation, chunk)
  }

  datatype MemoryResult = MemoryResult(correct: bool, checksum: Bytes)

  /** The workload returns exactly when no checkpoint interrupts it, and then its verdict compares the
      hash of the bytes read back with the hash of the transformed pattern. */
  method RunMemoryWorkload(sha256: Bytes -> Bytes, allocation: nat, chunkSize: nat, load: Loads, checkpoint: (nat, nat) -> Option<Interrupt>)
    returns (r: Result<MemoryResult, Interrupt>)
    requires allocation >= 1 && chunkSize >= 1
    ensures var chunk := if chunkSize <= allocation then chunkSize else allocation;
            && (r.Ok? <==> AllPass(checkpoint, allocation, chunk))
            && (r.Err? ==> exists pass: nat, k: nat :: checkpoint(pass, k) == Some(r.error))
            && (r.Ok? ==>
                  && r.value.checksum == sha256(AllSeen(load, chunk, allocation))
                  && (r.value.correct <==> sha256(AllSeen(load, chunk, allocation)) == sha256(Expected(chunk, allocation))))
  {
    var raised := checkpoint(0, 0);
    if raised.Some? {
      return Err(raised.value);
    }
    hide Filled, Transform;
    var buffer := new Byte[allocation];
    var chunk := if chunkSize <= allocation then chunkSize else allocation;
    raised := Fill(buffer, chunk, checkpoint);
    if raised.Some? {
      return Err(raised.value);
    }
    var expected;
    raised, expected := TransformBuffer(buffer, chunk, load, checkpoint);
    if raised.Some? {
      return Err(raised.value);
    }
    var actual;
    raised, actual := HashBuffer(buffer, chunk, load, checkpoint);
    if raised.Some? {
      return Err(raised.value);
    }
    assert actual == AllSeen(load, chunk, allocation);
    r := Ok(MemoryResult(sha256(actual) == sha256(expected), sha256(actual)));
  }

  /** No two inputs share a digest. */
  ghost predicate CollisionFree(sha256: Bytes -> Bytes) {
    forall a, b :: sha256(a) == sha256(b) ==> a == b
  }

  /** The verdict is exact: it is positive if and only if every byte read in the third pass is the
      transformed pattern. */
  lemma MemoryVerdictIsExact(sha256: Bytes -> Bytes, load: Loads, chunk: nat, allocation: nat)
    requires CollisionFree(sha256) && chunk > 0
    ensures sha256(AllSeen(load, chunk, allocation)) == sha256(Expected(chunk, allocation)) <==>
            forall i :: 0 <= i < allocation ==> Seen(load, chunk, i) == Transform(Filled(chunk, i))
  {
    hide Transform, Filled;
    var seen, expected := AllSeen(load, chunk, allocation), Expected(chunk, allocation);
    if sha256(seen) == sha256(expected) {
      assert seen == expected;
      forall i | 0 <= i < allocation
        ensures Seen(load, chunk, i) == Transform(Filled(chunk, i))
      {
        assert seen[i] == expected[i];
      }
    }
    if forall i :: 0 <= i < allocation ==> Seen(load, chunk, i) == Transform(Filled(chunk, i)) {
      assert seen == expected;
    }
  }

  /** A wrong load in the second pass cannot be masked by the translation: with faithful loads in
      the third pass the verdict is positive exactly when every second-pass load was faithful. */
  lemma SecondPassFaultsAreSeen(load: Loads, chunk: nat, allocation: nat)
    requires chunk > 0
    requires forall i, b :: load(3, i, b) == b
    ensures (forall i :: 0 <= i < allocation ==> Seen(load, chunk, i) == Transform(Filled(chunk, i))) <==>
            (forall i :: 0 <= i < allocation ==> load(2, i, Filled(chunk, i)) == Filled(chunk, i))
  {
    hide Transform, Filled;
    forall i | 0 <= i < allocation
      ensures Seen(load, chunk, i) == Transform(Filled(chunk, i)) <==> load(2, i, Filled(chunk, i)) == Filled(chunk, i)
    {
      TransformTwice(load(2, i, Filled(chunk, i)));
      TransformTwice(Filled(chunk, i));
    }
  }
}

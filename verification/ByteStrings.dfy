/** Byte strings built by repetition, decimal text and little-endian integers. */
module ByteStrings {
  import opened Models

  function Times(seed: Bytes, n: nat): (r: Bytes)
    ensures |r| == n * |seed|
  {
    if n == 0 then [] else seed + Times(seed, n - 1)
  }

  /** The seed repeated often enough, cut to the size. */
  function Tiled(seed: Bytes, size: nat): (r: Bytes)
    requires seed != []
    ensures |r| == size
  {
    var copies := (size + |seed| - 1) / |seed|;
    assert size <= copies * |seed|;
    Times(seed, copies)[..size]
  }

  lemma {:induction false} TimesAt(seed: Bytes, n: nat, i: nat)
    requires seed != [] && i < n * |seed|
    ensures Times(seed, n)[i] == seed[i % |seed|]
  {
    if i >= |seed| {
      TimesAt(seed, n - 1, i - |seed|);
      ModMinus(i, |seed|);
    }
  }

  lemma AtLeastOnce(k: nat, n: nat)
    requires k > 0
    ensures k * n >= n
  {
  }

  lemma Distribute(a: int, b: int, n: int)
    ensures (a - b) * n == a * n - b * n
  {
  }

  /** Quotient and remainder are unique. */
  lemma DivUnique(x: nat, n: nat, q: nat, r: nat)
    requires x == q * n + r && r < n
    ensures x / n == q && x % n == r
  {
    var q1, r1 := x / n, x % n;
    assert x == q1 * n + r1;
    Distribute(q1, q, n);
    if q1 < q {
      Distribute(q, q1, n);
      AtLeastOnce(q - q1, n);
      assert false;
    } else if q < q1 {
      AtLeastOnce(q1 - q, n);
      assert false;
    }
  }

  lemma ModMinus(i: nat, n: nat)
    requires 0 < n <= i
    ensures (i - n) % n == i % n
  {
    var q, r := (i - n) / n, (i - n) % n;
    assert (q + 1) * n == q * n + n;
    DivUnique(i, n, q + 1, r);
  }

  /** A tiled string repeats its seed. */
  lemma TiledAt(seed: Bytes, size: nat, i: nat)
    requires seed != [] && i < size
    ensures Tiled(seed, size)[i] == seed[i % |seed|]
  {
    TimesAt(seed, (size + |seed| - 1) / |seed|, i);
  }

  /** Decimal digits of a number as ASCII bytes, without leading zeros. */
  function Decimal(n: nat): (r: Bytes)
    ensures r != []
  {
    if n < 10 then [48 + n] else Decimal(n / 10) + [48 + n % 10]
  }

  /** The lowest `size` bytes of a number, least significant first. */
  function LittleEndian(n: nat, size: nat): (r: Bytes)
    ensures |r| == size
  {
    if size == 0 then [] else [n % 256] + LittleEndian(n / 256, size - 1)
  }

  // ---- What the encodings mean ----

  function Power256(k: nat): (p: nat)
    ensures p > 0
  {
    if k == 0 then 1 else 256 * Power256(k - 1)
  }

  /** A number read from its bytes, least significant first. */
  function FromLittleEndian(s: Bytes): nat {
    if s == [] then 0 else s[0] + 256 * FromLittleEndian(s[1..])
  }

  lemma SplitModulus(n: nat, m: nat)
    requires m > 0
    ensures n % (256 * m) == n % 256 + 256 * ((n / 256) % m)
  {
    var q, r := n / 256, n % 256;
    var q2, r2 := q / m, q % m;
    assert n == 256 * q + r && q == q2 * m + r2;
    assert n == q2 * (256 * m) + (256 * r2 + r) by {
      assert 256 * (q2 * m) == q2 * (256 * m);
    }
    assert 256 * r2 + r < 256 * m;
    DivUnique(n, 256 * m, q2, 256 * r2 + r);
  }

  /** The bytes stand for the number, cut to as many bytes. */
  lemma {:induction false} LittleEndianReads(n: nat, size: nat)
    ensures FromLittleEndian(LittleEndian(n, size)) == n % Power256(size)
  {
    if size > 0 {
      LittleEndianReads(n / 256, size - 1);
      SplitModulus(n, Power256(size - 1));
    }
  }

  /** Byte `k` by division and remainder. */
  lemma {:induction false} LittleEndianAt(n: nat, size: nat, k: nat)
    requires k < size
    ensures LittleEndian(n, size)[k] == n / Power256(k) % 256
  {
    if k > 0 {
      LittleEndianAt(n / 256, size - 1, k - 1);
      DivideTwice(n, Power256(k - 1));
    }
  }

  lemma DivideTwice(n: nat, m: nat)
    requires m > 0
    ensures n / (256 * m) == n / 256 / m
  {
    var q, r := n / 256, n % 256;
    var q2, r2 := q / m, q % m;
    assert n == 256 * q + r && q == q2 * m + r2;
    assert 256 * (q2 * m) == q2 * (256 * m);
    assert 256 * r2 + r < 256 * m;
    DivUnique(n, 256 * m, q2, 256 * r2 + r);
  }

  /** Bytes that stand for a number are its encoding. */
  lemma {:induction false} BytesOfNumber(s: Bytes)
    ensures FromLittleEndian(s) < Power256(|s|)
    ensures LittleEndian(FromLittleEndian(s), |s|) == s
  {
    if s != [] {
      BytesOfNumber(s[1..]);
      var rest := FromLittleEndian(s[1..]);
      DivUnique(FromLittleEndian(s), 256, rest, s[0]);
    }
  }

  lemma EightBytes()
    ensures Power256(8) == 0x1_0000_0000_0000_0000
  {
    assert Power256(4) == 0x1_0000_0000;
  }

  /** A number read from ASCII digits. */
  function FromDecimal(s: Bytes): int {
    if s == [] then 0 else 10 * FromDecimal(s[..|s| - 1]) + s[|s| - 1] - 48
  }

  /** The digits stand for the number, and there is no leading zero. */
  lemma {:induction false} DecimalReads(n: nat)
    ensures FromDecimal(Decimal(n)) == n
    ensures forall i :: 0 <= i < |Decimal(n)| ==> 48 <= Decimal(n)[i] <= 57
    ensures n > 0 ==> Decimal(n)[0] != 48
  {
    if n >= 10 {
      DecimalReads(n / 10);
      assert Decimal(n)[..|Decimal(n)| - 1] == Decimal(n / 10);
    }
  }

  /** The bytes of an ASCII text. */
  predicate IsText(s: Bytes, text: string) {
    |s| == |text| && forall i :: 0 <= i < |s| ==> s[i] == text[i] as int
  }

  // ---- Concatenation ----

  lemma AppendAssociates(a: Bytes, b: Bytes, c: Bytes)
    ensures a + (b + c) == (a + b) + c
  {
  }

  function Concat(parts: seq<Bytes>): Bytes {
    if parts == [] then [] else Concat(parts[..|parts| - 1]) + parts[|parts| - 1]
  }

  lemma ConcatStep(parts: seq<Bytes>, part: Bytes)
    ensures Concat(parts + [part]) == Concat(parts) + part
  {
    assert (parts + [part])[..|parts|] == parts;
  }

  /** Where piece `k` starts, when all have one size. */
  function PieceStart(k: nat, size: nat): nat {
    k * size
  }

  lemma PieceStarts(k: nat, size: nat)
    ensures PieceStart(0, size) == 0
    ensures PieceStart(k + 1, size) == PieceStart(k, size) + size
  {
  }

  predicate IsPiece(whole: Bytes, k: nat, size: nat, part: Bytes) {
    var start := PieceStart(k, size);
    start + size <= |whole| && whole[start..start + size] == part
  }

  lemma PieceFits(k: nat, n: nat, size: nat)
    requires k < n
    ensures PieceStart(k, size) + size <= PieceStart(n, size)
  {
    Distribute(n, k, size);
    assert (n - k - 1) * size >= 0;
    Distribute(n - k, 1, size);
  }

  /** Pieces of one size determine the whole. */
  lemma {:induction false} PiecesDecide(whole: Bytes, parts: seq<Bytes>, size: nat)
    requires |whole| == PieceStart(|parts|, size)
    requires forall k: nat :: k < |parts| ==> IsPiece(whole, k, size, parts[k])
    ensures whole == Concat(parts)
    decreases |parts|
  {
    hide PieceStart;
    PieceStarts(0, size);
    if parts == [] {
      assert whole == [];
    } else {
      var n: nat := |parts| - 1;
      PieceStarts(n, size);
      var front := whole[..PieceStart(n, size)];
      forall k: nat | k < n
        ensures IsPiece(front, k, size, parts[..n][k])
      {
        PieceFits(k, n, size);
        assert IsPiece(whole, k, size, parts[k]);
        var start := PieceStart(k, size);
        assert front[start..start + size] == whole[start..start + size];
      }
      PiecesDecide(front, parts[..n], size);
      assert IsPiece(whole, n, size, parts[n]);
      assert whole == front + whole[PieceStart(n, size)..PieceStart(n, size) + size];
    }
  }

  /** ... and a concatenation has them. */
  lemma {:induction false} ConcatHasPieces(parts: seq<Bytes>, size: nat)
    requires forall i :: 0 <= i < |parts| ==> |parts[i]| == size
    ensures |Concat(parts)| == PieceStart(|parts|, size)
    ensures forall k: nat :: k < |parts| ==> IsPiece(Concat(parts), k, size, parts[k])
  {
    hide PieceStart;
    if parts == [] {
      PieceStarts(0, size);
    } else {
      var n: nat := |parts| - 1;
      PieceStarts(n, size);
      ConcatHasPieces(parts[..n], size);
      forall k: nat | k < |parts|
        ensures IsPiece(Concat(parts), k, size, parts[k])
      {
        if k < n {
          assert IsPiece(Concat(parts[..n]), k, size, parts[..n][k]);
          var start := PieceStart(k, size);
          assert Concat(parts)[start..start + size] == Concat(parts[..n])[start..start + size];
        }
      }
    }
  }
}

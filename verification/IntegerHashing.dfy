/** What the integer workload computes: per-worker digests of numbered blocks, combined in worker order. */
module IntegerHashing {
  import opened Models
  import opened ByteStrings
  import opened Control

  datatype Config = Config(workers: nat, operations: nat, blockSize: nat, expected: Option<Bytes>)

  predicate ValidConfig(c: Config) {
    1 <= c.workers <= c.operations
  }

  /** "platval-integer-worker-" */
  const LABEL: Bytes := [112, 108, 97, 116, 118, 97, 108, 45, 105, 110, 116, 101, 103, 101, 114, 45, 119, 111, 114, 107, 101, 114, 45]

  function WorkerBlock(sha256: Bytes -> Bytes, worker: nat, size: nat): Bytes {
    var seed := sha256(LABEL + Decimal(worker));
    if seed == [] then [] else Tiled(seed, size)
  }

  /** The digest of one numbered block. */
  function BlockDigest(sha256: Bytes -> Bytes, worker: nat, size: nat, iteration: nat): Bytes {
    sha256(WorkerBlock(sha256, worker, size) + LittleEndian(iteration, 8))
  }

  /** The bytes fed to a worker's aggregate hasher by its first `count` operations. */
  function Stream(sha256: Bytes -> Bytes, worker: nat, size: nat, count: nat): Bytes {
    if count == 0 then [] else Stream(sha256, worker, size, count - 1) + BlockDigest(sha256, worker, size, count - 1)
  }

  function WorkerDigest(sha256: Bytes -> Bytes, worker: nat, size: nat, count: nat): Bytes {
    sha256(Stream(sha256, worker, size, count))
  }

  /** The quotient for every worker, and one more for as many of the first as there is remainder. */
  function OperationCounts(total: nat, workers: nat): (counts: seq<nat>)
    requires workers > 0
    ensures |counts| == workers
  {
    var remainder: nat := total % workers;
    var quotient: nat := total / workers;
    seq(workers, index requires 0 <= index < workers => if index < remainder then quotient + 1 else quotient)
  }

  function Sum(counts: seq<nat>): nat {
    if counts == [] then 0 else Sum(counts[..|counts| - 1]) + counts[|counts| - 1]
  }

  lemma {:induction false} SumOfSplit(counts: seq<nat>, n: nat, low: nat, quotient: nat)
    requires n <= |counts|
    requires forall i :: 0 <= i < |counts| ==> counts[i] == if i < low then quotient + 1 else quotient
    ensures Sum(counts[..n]) == n * quotient + if n < low then n else low
  {
    if n == 0 {
    } else {
      SumOfSplit(counts, n - 1, low, quotient);
      assert counts[..n][..n - 1] == counts[..n - 1];
      assert n * quotient == (n - 1) * quotient + quotient;
    }
  }

  /** The split gives away every operation, no worker more than one ahead of another, the first ones
      ahead, and none left idle when there is at least one operation each. */
  lemma SplitIsFair(total: nat, workers: nat)
    requires workers > 0
    ensures var counts := OperationCounts(total, workers);
            && Sum(counts) == total
            && (forall i, j :: 0 <= i < workers && 0 <= j < workers ==> counts[i] <= counts[j] + 1)
            && (workers <= total ==> forall i :: 0 <= i < workers ==> counts[i] >= 1)
            && (forall i, j :: 0 <= i < j < workers ==> counts[i] >= counts[j])
  {
    var counts := OperationCounts(total, workers);
    SumOfSplit(counts, workers, total % workers, total / workers);
    assert counts[..workers] == counts;
    assert total == workers * (total / workers) + total % workers;
    assert workers <= total ==> total / workers != 0;
  }

  function Digests(sha256: Bytes -> Bytes, c: Config, n: nat): (digests: seq<Bytes>)
    requires ValidConfig(c) && n <= c.workers
    ensures |digests| == n
  {
    seq(n, i requires 0 <= i < n => WorkerDigest(sha256, i, c.blockSize, OperationCounts(c.operations, c.workers)[i]))
  }

  /** The checksum of the configuration. */
  function Reference(sha256: Bytes -> Bytes, c: Config): Bytes
    requires ValidConfig(c)
  {
    sha256(Concat(Digests(sha256, c, c.workers)))
  }

  // ---- What is hashed, spelled out ----

  /** The label of a worker is the text and its number. */
  lemma LabelReads(worker: nat)
    ensures var tag := LABEL + Decimal(worker);
            && IsText(tag[..23], "platval-integer-worker-")
            && FromDecimal(tag[23..]) == worker
  {
    var text := "platval-integer-worker-";
    assert |text| == 23 && IsText(LABEL, text);
    assert (LABEL + Decimal(worker))[..23] == LABEL && (LABEL + Decimal(worker))[23..] == Decimal(worker);
    DecimalReads(worker);
  }

  /** Different workers hash different labels. */
  lemma LabelsDiffer(a: nat, b: nat)
    requires a != b
    ensures LABEL + Decimal(a) != LABEL + Decimal(b)
  {
    LabelReads(a);
    LabelReads(b);
  }

  /** A worker never feeds the inner hash the same bytes twice. */
  lemma BlocksDiffer(sha256: Bytes -> Bytes, worker: nat, size: nat, i: nat, j: nat)
    requires i != j && i < 0x1_0000_0000_0000_0000 && j < 0x1_0000_0000_0000_0000
    ensures WorkerBlock(sha256, worker, size) + LittleEndian(i, 8) != WorkerBlock(sha256, worker, size) + LittleEndian(j, 8)
  {
    hide WorkerBlock, LittleEndian, Power256;
    EightBytes();
    LittleEndianReads(i, 8);
    LittleEndianReads(j, 8);
    var block := WorkerBlock(sha256, worker, size);
    assert (block + LittleEndian(i, 8))[|block|..] == LittleEndian(i, 8);
    assert (block + LittleEndian(j, 8))[|block|..] == LittleEndian(j, 8);
  }

  /** The input of the inner hash: the digest of the label over and over, then the block's number in
      eight bytes, least significant first. */
  ghost predicate IsBlockInput(sha256: Bytes -> Bytes, worker: nat, size: nat, iteration: nat, input: Bytes) {
    && |input| == size + 8
    && FromLittleEndian(input[size..]) == iteration
    && exists tag ::
         && |tag| >= 23 && IsText(tag[..23], "platval-integer-worker-") && tag[23..] == Decimal(worker)
         && |sha256(tag)| == 32
         && forall j :: 0 <= j < size ==> input[j] == sha256(tag)[j % 32]
  }

  lemma BlockInputIs(sha256: Bytes -> Bytes, worker: nat, size: nat, iteration: nat, input: Bytes)
    requires IsBlockInput(sha256, worker, size, iteration, input)
    ensures input == WorkerBlock(sha256, worker, size) + LittleEndian(iteration, 8)
  {
    hide LittleEndian, FromLittleEndian, FromDecimal, Decimal;
    var tag :|
      && |tag| >= 23 && IsText(tag[..23], "platval-integer-worker-") && tag[23..] == Decimal(worker)
      && |sha256(tag)| == 32
      && forall j :: 0 <= j < size ==> input[j] == sha256(tag)[j % 32];
    LabelReads(worker);
    assert LABEL == tag[..23] by {
      var ours := LABEL + Decimal(worker);
      assert ours[..23] == LABEL;
    }
    assert tag == LABEL + Decimal(worker);
    forall j | 0 <= j < size
      ensures input[..size][j] == Tiled(sha256(tag), size)[j]
    {
      TiledAt(sha256(tag), size, j);
    }
    hide Tiled;
    BytesOfNumber(input[size..]);
    assert input == input[..size] + input[size..];
  }

  /** A worker's stream: the digests of its numbered blocks, side by side. */
  ghost predicate IsStream(sha256: Bytes -> Bytes, worker: nat, size: nat, count: nat, stream: Bytes) {
    && |stream| == PieceStart(count, 32)
    && forall i: nat :: i < count ==> HoldsBlockDigest(sha256, worker, size, i, stream)
  }

  ghost predicate HoldsBlockDigest(sha256: Bytes -> Bytes, worker: nat, size: nat, i: nat, stream: Bytes) {
    exists input :: IsBlockInput(sha256, worker, size, i, input) && IsPiece(stream, i, 32, sha256(input))
  }

  function BlockDigests(sha256: Bytes -> Bytes, worker: nat, size: nat, count: nat): (parts: seq<Bytes>)
    ensures |parts| == count
  {
    seq(count, i requires 0 <= i < count => BlockDigest(sha256, worker, size, i))
  }

  lemma {:induction false} StreamIsConcat(sha256: Bytes -> Bytes, worker: nat, size: nat, count: nat)
    ensures Stream(sha256, worker, size, count) == Concat(BlockDigests(sha256, worker, size, count))
  {
    hide BlockDigest;
    if count > 0 {
      StreamIsConcat(sha256, worker, size, count - 1);
      assert BlockDigests(sha256, worker, size, count)[..count - 1] == BlockDigests(sha256, worker, size, count - 1);
    }
  }

  lemma StreamIs(sha256: Bytes -> Bytes, worker: nat, size: nat, count: nat, stream: Bytes)
    requires IsStream(sha256, worker, size, count, stream)
    ensures stream == Stream(sha256, worker, size, count)
  {
    hide IsPiece, PieceStart, WorkerBlock, LittleEndian, IsBlockInput;
    var parts := BlockDigests(sha256, worker, size, count);
    forall i: nat | i < count
      ensures IsPiece(stream, i, 32, parts[i])
    {
      assert HoldsBlockDigest(sha256, worker, size, i, stream);
      var input :| IsBlockInput(sha256, worker, size, i, input) && IsPiece(stream, i, 32, sha256(input));
      BlockInputIs(sha256, worker, size, i, input);
    }
    PiecesDecide(stream, parts, 32);
    StreamIsConcat(sha256, worker, size, count);
  }

  /** A worker's share of the operations. */
  ghost predicate IsShare(c: Config, worker: nat, count: nat)
    requires c.workers > 0
  {
    count == c.operations / c.workers + if worker < c.operations % c.workers then 1 else 0
  }

  ghost predicate HoldsWorkerDigest(sha256: Bytes -> Bytes, c: Config, w: nat, whole: Bytes)
    requires c.workers > 0
  {
    exists count, stream ::
      IsShare(c, w, count) && IsStream(sha256, w, c.blockSize, count, stream) && IsPiece(whole, w, 32, sha256(stream))
  }

  /** The bytes that the last hash is fed. */
  ghost predicate SpellsOut(sha256: Bytes -> Bytes, c: Config, whole: Bytes)
    requires c.workers > 0
  {
    && |whole| == PieceStart(c.workers, 32)
    && forall w: nat :: w < c.workers ==> HoldsWorkerDigest(sha256, c, w, whole)
  }

  /** The checksum, spelled out byte by byte: the digest of the workers' digests side by side, each of
      the digests of its numbered blocks side by side. */
  lemma ReferenceSpelledOut(sha256: Bytes -> Bytes, c: Config, whole: Bytes)
    requires ValidConfig(c)
    requires SpellsOut(sha256, c, whole)
    ensures Reference(sha256, c) == sha256(whole)
  {
    hide IsPiece, PieceStart, Stream, IsStream;
    var parts := Digests(sha256, c, c.workers);
    forall w: nat | w < c.workers
      ensures IsPiece(whole, w, 32, parts[w])
    {
      assert HoldsWorkerDigest(sha256, c, w, whole);
      var count, stream :| IsShare(c, w, count) && IsStream(sha256, w, c.blockSize, count, stream) && IsPiece(whole, w, 32, sha256(stream));
      StreamIs(sha256, w, c.blockSize, count, stream);
    }
    PiecesDecide(whole, parts, 32);
  }

  lemma BlockInputExists(sha256: Bytes -> Bytes, worker: nat, size: nat, iteration: nat)
    requires forall b :: |sha256(b)| == 32
    requires iteration < 0x1_0000_0000_0000_0000
    ensures IsBlockInput(sha256, worker, size, iteration, WorkerBlock(sha256, worker, size) + LittleEndian(iteration, 8))
  {
    hide LittleEndian, FromLittleEndian, Decimal, Power256;
    var tag := LABEL + Decimal(worker);
    LabelReads(worker);
    assert tag[23..] == Decimal(worker);
    var block := WorkerBlock(sha256, worker, size);
    assert block == Tiled(sha256(tag), size);
    forall j | 0 <= j < size
      ensures block[j] == sha256(tag)[j % 32]
    {
      TiledAt(sha256(tag), size, j);
    }
    hide Tiled;
    EightBytes();
    LittleEndianReads(iteration, 8);
    var input := block + LittleEndian(iteration, 8);
    assert input[size..] == LittleEndian(iteration, 8);
  }

  lemma StreamExists(sha256: Bytes -> Bytes, worker: nat, size: nat, count: nat)
    requires forall b :: |sha256(b)| == 32
    requires count <= 0x1_0000_0000_0000_0000
    ensures IsStream(sha256, worker, size, count, Stream(sha256, worker, size, count))
  {
    hide IsBlockInput, PieceStart, IsPiece, WorkerBlock, LittleEndian;
    var parts := BlockDigests(sha256, worker, size, count);
    StreamIsConcat(sha256, worker, size, count);
    ConcatHasPieces(parts, 32);
    forall i: nat | i < count
      ensures HoldsBlockDigest(sha256, worker, size, i, Concat(parts))
    {
      BlockInputExists(sha256, worker, size, i);
      assert IsPiece(Concat(parts), i, 32, parts[i]);
    }
  }

  /** Such bytes exist for every configuration, when digests have 32 bytes. */
  lemma SpellingExists(sha256: Bytes -> Bytes, c: Config)
    requires ValidConfig(c) && c.operations <= 0x1_0000_0000_0000_0000
    requires forall b :: |sha256(b)| == 32
    ensures SpellsOut(sha256, c, Concat(Digests(sha256, c, c.workers)))
  {
    hide IsStream, PieceStart, IsPiece, Stream, Sum;
    var parts, counts := Digests(sha256, c, c.workers), OperationCounts(c.operations, c.workers);
    ConcatHasPieces(parts, 32);
    forall w: nat | w < c.workers
      ensures HoldsWorkerDigest(sha256, c, w, Concat(parts))
    {
      ShareIsSmall(c, w);
      StreamExists(sha256, w, c.blockSize, counts[w]);
      assert IsShare(c, w, counts[w]);
      assert IsPiece(Concat(parts), w, 32, parts[w]);
    }
  }

  lemma ShareIsSmall(c: Config, w: nat)
    requires ValidConfig(c) && w < c.workers
    ensures OperationCounts(c.operations, c.workers)[w] <= c.operations
  {
    var q, r := c.operations / c.workers, c.operations % c.workers;
    assert c.operations == c.workers * q + r;
    assert c.workers * q >= q;
  }

  // ---- The sequential code ----

  /** What the first of `n` checkpoints that raises says, if one does. */
  function FirstStop(checkpoint: nat -> Option<Interrupt>, n: nat): (stop: Option<Interrupt>)
    ensures stop.None? <==> forall i: nat :: i < n ==> checkpoint(i).None?
  {
    if n == 0 then None
    else
      var earlier := FirstStop(checkpoint, n - 1);
      if earlier.Some? then earlier else checkpoint(n - 1)
  }

  /** It is the first one that raises. */
  lemma {:induction false} FirstStopIsFirst(checkpoint: nat -> Option<Interrupt>, n: nat)
    ensures FirstStop(checkpoint, n).Some? ==>
              exists i: nat :: i < n && checkpoint(i) == FirstStop(checkpoint, n) && forall j: nat :: j < i ==> checkpoint(j).None?
  {
    if n > 0 {
      FirstStopIsFirst(checkpoint, n - 1);
    }
  }

  /** A checkpoint before every block; the first that raises ends the worker. */
  method HashWorker(sha256: Bytes -> Bytes, worker: nat, operations: nat, size: nat, checkpoint: nat -> Option<Interrupt>)
    returns (r: Result<Bytes, Interrupt>)
    ensures r == if FirstStop(checkpoint, operations).Some? then Err(FirstStop(checkpoint, operations).value)
                 else Ok(WorkerDigest(sha256, worker, size, operations))
  {
    hide Stream;
    var block := WorkerBlock(sha256, worker, size);
    var aggregate: Bytes := [];
    assert Stream(sha256, worker, size, 0) == [] by { EmptyStream(sha256, worker, size); }
    for iteration: nat := 0 to operations
      invariant FirstStop(checkpoint, iteration).None?
      invariant aggregate == Stream(sha256, worker, size, iteration)
    {
      var stop := checkpoint(iteration);
      StreamStep(sha256, worker, size, iteration);
      if stop.Some? {
        FirstStopStays(checkpoint, iteration, operations);
        return Err(stop.value);
      }
      aggregate := aggregate + sha256(block + LittleEndian(iteration, 8));
    }
    r := Ok(sha256(aggregate));
  }

  lemma EmptyStream(sha256: Bytes -> Bytes, worker: nat, size: nat)
    ensures Stream(sha256, worker, size, 0) == []
  {
  }

  lemma StreamStep(sha256: Bytes -> Bytes, worker: nat, size: nat, n: nat)
    ensures Stream(sha256, worker, size, n + 1) ==
            Stream(sha256, worker, size, n) + sha256(WorkerBlock(sha256, worker, size) + LittleEndian(n, 8))
  {
  }

  lemma {:induction false} FirstStopStays(checkpoint: nat -> Option<Interrupt>, i: nat, n: nat)
    requires i < n && FirstStop(checkpoint, i).None? && checkpoint(i).Some?
    ensures FirstStop(checkpoint, n) == checkpoint(i)
  {
    if i + 1 < n {
      FirstStopStays(checkpoint, i, n - 1);
    }
  }

  method CombineWorkerDigests(sha256: Bytes -> Bytes, digests: seq<Bytes>) returns (checksum: Bytes)
    ensures checksum == sha256(Concat(digests))
  {
    var aggregate: Bytes := [];
    for i := 0 to |digests|
      invariant aggregate == Concat(digests[..i])
    {
      ConcatStep(digests[..i], digests[i]);
      assert digests[..i + 1] == digests[..i] + [digests[i]];
      aggregate := aggregate + digests[i];
    }
    assert digests[..|digests|] == digests;
    checksum := sha256(aggregate);
  }

  /** What first stops the workers when they run one after the other. */
  function FirstStopOf(checkpoint: (nat, nat) -> Option<Interrupt>, counts: seq<nat>, n: nat): Option<Interrupt>
    requires n <= |counts|
  {
    if n == 0 then None
    else
      var earlier := FirstStopOf(checkpoint, counts, n - 1);
      if earlier.Some? then earlier else FirstStop((i: nat) => checkpoint(n - 1, i), counts[n - 1])
  }

  /** It is what the first worker that is stopped was stopped by. */
  lemma {:induction false} FirstStopOfIsFirst(checkpoint: (nat, nat) -> Option<Interrupt>, counts: seq<nat>, n: nat)
    requires n <= |counts|
    ensures FirstStopOf(checkpoint, counts, n).Some? ==>
              exists w: nat :: w < n && FirstStopOf(checkpoint, counts, n) == FirstStop((i: nat) => checkpoint(w, i), counts[w])
                               && FirstStopOf(checkpoint, counts, w).None?
    ensures FirstStopOf(checkpoint, counts, n).None? ==>
              forall w: nat :: w < n ==> FirstStop((i: nat) => checkpoint(w, i), counts[w]).None?
  {
    if n > 0 {
      FirstStopOfIsFirst(checkpoint, counts, n - 1);
    }
  }

  lemma {:induction false} FirstStopOfStays(checkpoint: (nat, nat) -> Option<Interrupt>, counts: seq<nat>, k: nat, n: nat)
    requires k < n <= |counts|
    requires FirstStopOf(checkpoint, counts, k + 1).Some?
    ensures FirstStopOf(checkpoint, counts, n) == FirstStopOf(checkpoint, counts, k + 1)
  {
    if k + 1 < n {
      FirstStopOfStays(checkpoint, counts, k, n - 1);
    }
  }

  /** The workers' digests one after the other, then combined; `checkpoint` is asked about every
      block of every worker. */
  method ReferenceChecksum(sha256: Bytes -> Bytes, c: Config, checkpoint: (nat, nat) -> Option<Interrupt>)
    returns (r: Result<Bytes, Interrupt>)
    requires ValidConfig(c)
    ensures var stop := FirstStopOf(checkpoint, OperationCounts(c.operations, c.workers), c.workers);
            r == if stop.Some? then Err(stop.value) else Ok(Reference(sha256, c))
  {
    hide WorkerDigest;
    var counts := OperationCounts(c.operations, c.workers);
    var digests: seq<Bytes> := [];
    for index: nat := 0 to c.workers
      invariant FirstStopOf(checkpoint, counts, index).None?
      invariant digests == Digests(sha256, c, index)
    {
      var digest := HashWorker(sha256, index, counts[index], c.blockSize, (i: nat) => checkpoint(index, i));
      if digest.Err? {
        FirstStopOfStays(checkpoint, counts, index, c.workers);
        return Err(digest.error);
      }
      digests := digests + [digest.value];
    }
    var checksum := CombineWorkerDigests(sha256, digests);
    r := Ok(checksum);
  }
}

/** The storage workload: one deterministic file in an owned temporary directory, written block by
    block, read back, and removed whatever happens. */
module Storage {
  import opened Models
  import opened ByteStrings
  import opened Control

  /** "platval-storage-block-" */
  const LABEL: Bytes := [112, 108, 97, 116, 118, 97, 108, 45, 115, 116, 111, 114, 97, 103, 101, 45, 98, 108, 111, 99, 107, 45]

  function Seed(sha256: Bytes -> Bytes, index: nat): Bytes {
    sha256(LABEL + Decimal(index))
  }

  function DeterministicBlock(sha256: Bytes -> Bytes, index: nat, size: nat): (r: Bytes)
    requires Seed(sha256, index) != []
    ensures |r| == size
  {
    Tiled(Seed(sha256, index), size)
  }

  ghost predicate NonEmptyDigests(sha256: Bytes -> Bytes) {
    forall b :: sha256(b) != []
  }

  /** The file that `remaining` more bytes make, from block `index` on. */
  function Content(sha256: Bytes -> Bytes, remaining: nat, block: nat, index: nat): (r: Bytes)
    requires block > 0 && NonEmptyDigests(sha256)
    ensures |r| == remaining
    decreases remaining
  {
    if remaining == 0 then []
    else
      var length := if block <= remaining then block else remaining;
      DeterministicBlock(sha256, index, length) + Content(sha256, remaining - length, block, index + 1)
  }

  /** Byte `i` of the file comes from block `i / block`, whose seed repeats inside the block. */
  lemma {:induction false} ContentAt(sha256: Bytes -> Bytes, remaining: nat, block: nat, index: nat, i: nat)
    requires block > 0 && NonEmptyDigests(sha256) && i < remaining
    ensures var seed := Seed(sha256, index + i / block);
            Content(sha256, remaining, block, index)[i] == seed[(i % block) % |seed|]
    decreases remaining
  {
    var length := if block <= remaining then block else remaining;
    hide Content, DeterministicBlock, Seed;
    ContentUnfold(sha256, remaining, block, index);
    if i < length {
      FirstBlock(block, i);
      BlockAt(sha256, index, length, i);
    } else {
      LaterBlock(block, i);
      ContentAt(sha256, remaining - length, block, index + 1, i - block);
    }
  }

  /** The label of a block is the text and its number. */
  lemma LabelReads(index: nat)
    ensures IsText((LABEL + Decimal(index))[..22], "platval-storage-block-")
    ensures FromDecimal((LABEL + Decimal(index))[22..]) == index
  {
    var text := "platval-storage-block-";
    assert |text| == 22 && IsText(LABEL, text);
    assert (LABEL + Decimal(index))[..22] == LABEL && (LABEL + Decimal(index))[22..] == Decimal(index);
    DecimalReads(index);
  }

  /** Different blocks hash different labels. */
  lemma LabelsDiffer(a: nat, b: nat)
    requires a != b
    ensures LABEL + Decimal(a) != LABEL + Decimal(b)
  {
    LabelReads(a);
    LabelReads(b);
  }

  /** The file, spelled out: byte `i` is that byte of the repeated digest of the text
      `platval-storage-block-` followed by the number of its block. */
  lemma FileSpelledOut(sha256: Bytes -> Bytes, size: nat, block: nat, i: nat, tag: Bytes)
    requires block > 0 && NonEmptyDigests(sha256) && i < size
    requires |tag| >= 22 && IsText(tag[..22], "platval-storage-block-") && tag[22..] == Decimal(i / block)
    ensures Content(sha256, size, block, 0)[i] == sha256(tag)[(i % block) % |sha256(tag)|]
  {
    hide Content;
    ContentAt(sha256, size, block, 0, i);
    LabelReads(i / block);
    var ours := LABEL + Decimal(i / block);
    assert ours[..22] == tag[..22] && ours == ours[..22] + ours[22..] && tag == tag[..22] + tag[22..];
    assert ours[22..] == Decimal(i / block);
  }

  lemma BlockAt(sha256: Bytes -> Bytes, index: nat, size: nat, i: nat)
    requires Seed(sha256, index) != [] && i < size
    ensures DeterministicBlock(sha256, index, size)[i] == Seed(sha256, index)[i % |Seed(sha256, index)|]
  {
    TiledAt(Seed(sha256, index), size, i);
  }

  lemma ContentUnfold(sha256: Bytes -> Bytes, remaining: nat, block: nat, index: nat)
    requires block > 0 && NonEmptyDigests(sha256) && remaining > 0
    ensures var length := if block <= remaining then block else remaining;
            && Seed(sha256, index) != []
            && Content(sha256, remaining, block, index) ==
               DeterministicBlock(sha256, index, length) + Content(sha256, remaining - length, block, index + 1)
  {
  }

  lemma FirstBlock(block: nat, i: nat)
    requires i < block
    ensures i / block == 0 && i % block == i
  {
    DivUnique(i, block, 0, i);
  }

  lemma LaterBlock(block: nat, i: nat)
    requires 0 < block <= i
    ensures i / block == (i - block) / block + 1 && i % block == (i - block) % block
  {
    var q, r := (i - block) / block, (i - block) % block;
    assert (q + 1) * block == q * block + block;
    DivUnique(i, block, q + 1, r);
  }

  datatype Problem = Interrupted(why: Interrupt) | OsError | RootMissing | NoSpace

  /** Where the workload can be stopped: its own checkpoints, the file operations, and between making
      the directory and remembering its path (`Remember`). */
  datatype Point = Entry | MakeDirectory | Remember | Block(index: nat) | Flush | Read(count: nat)

  /** The environment: the root, its free space and the reserve to keep, what stops the workload where,
      how many bytes each read returns, what the disk returns for each stored byte, and whether the
      directory can be removed. */
  datatype Environment = Environment(
    rootExists: bool,
    freeBytes: nat,
    reserveBytes: nat,
    stop: Point -> Option<Problem>,
    readLength: nat -> nat,
    load: (nat, Byte) -> Byte,
    removable: bool)

  function Loaded(env: Environment, i: nat, stored: Byte): Byte {
    env.load(i, stored)
  }

  function ReadBack(env: Environment, file: Bytes): (r: Bytes)
    ensures |r| == |file| && forall i :: 0 <= i < |file| ==> r[i] == Loaded(env, i, file[i])
  {
    seq(|file|, i requires 0 <= i < |file| => Loaded(env, i, file[i]))
  }

  /** The bytes a read returns: at least one and at most a block, within the file. */
  function ReadLength(env: Environment, count: nat, block: nat, left: nat): (n: nat)
    requires block > 0 && left > 0
    ensures 1 <= n <= left && n <= block
  {
    var wanted := if env.readLength(count) == 0 then 1 else env.readLength(count);
    var capped := if wanted <= block then wanted else block;
    if capped <= left then capped else left
  }

  /** What stops the write loop: one checkpoint before each block, then the flush. */
  function WriteStop(env: Environment, remaining: nat, block: nat, index: nat): Option<Problem>
    requires block > 0
  {
    if remaining == 0 then env.stop(Flush)
    else if env.stop(Block(index)).Some? then env.stop(Block(index))
    else WriteStop(env, if remaining <= block then 0 else remaining - block, block, index + 1)
  }

  /** What stops the read loop: one checkpoint before each read, the last of which returns nothing. */
  function ReadStop(env: Environment, left: nat, block: nat, count: nat): Option<Problem>
    requires block > 0
  {
    if env.stop(Read(count)).Some? then env.stop(Read(count))
    else if left == 0 then None
    else ReadStop(env, left - ReadLength(env, count, block, left), block, count + 1)
  }

  /** The write loop meets no problem exactly if no checkpoint before a block of the file raises and the
      flush succeeds. */
  lemma {:induction false} WriteStopMeans(env: Environment, remaining: nat, block: nat, index: nat)
    requires block > 0
    ensures WriteStop(env, remaining, block, index).None? <==>
            env.stop(Flush).None? && forall k: nat :: k * block < remaining ==> env.stop(Block(index + k)).None?
    decreases remaining
  {
    if remaining > 0 {
      var left := if remaining <= block then 0 else remaining - block;
      WriteStopMeans(env, left, block, index + 1);
      if env.stop(Block(index)).None? {
        if forall k: nat :: k * block < left ==> env.stop(Block(index + 1 + k)).None? {
          forall k: nat | k * block < remaining
            ensures env.stop(Block(index + k)).None?
          {
            if k > 0 {
              assert (k - 1) * block == k * block - block;
              assert env.stop(Block(index + 1 + (k - 1))).None?;
            }
          }
        }
        if forall k: nat :: k * block < remaining ==> env.stop(Block(index + k)).None? {
          forall k: nat | k * block < left
            ensures env.stop(Block(index + 1 + k)).None?
          {
            assert (k + 1) * block == k * block + block;
            assert env.stop(Block(index + (k + 1))).None?;
          }
        }
      } else {
        assert 0 * block < remaining;
        assert env.stop(Block(index + 0)).Some?;
      }
    } else {
      assert forall k: nat :: k * block >= 0;
    }
  }

  function FirstOf(a: Option<Problem>, b: Option<Problem>): Option<Problem> {
    if a.Some? then a else b
  }

  /** What the workload refuses before it touches anything: a missing root, or a file that would eat
      into the reserve. */
  function Refusal(env: Environment, size: nat): Option<Problem> {
    if !env.rootExists then Some(RootMissing)
    else if env.freeBytes < size + env.reserveBytes then Some(NoSpace)
    else None
  }

  /** The first problem on the way to a verdict, if any. */
  function Obstacle(env: Environment, size: nat, block: nat): Option<Problem>
    requires block > 0
  {
    FirstOf(Refusal(env, size),
            FirstOf(env.stop(Entry),
                    FirstOf(env.stop(MakeDirectory),
                            FirstOf(env.stop(Remember),
                                    FirstOf(WriteStop(env, size, block, 0), ReadStop(env, size, block, 0))))))
  }

  /** The read loop meets no problem if no checkpoint raises; the problem it meets is the first that one
      of them raises. */
  lemma {:induction false} ReadStopMeans(env: Environment, left: nat, block: nat, count: nat)
    requires block > 0
    ensures var stop := ReadStop(env, left, block, count);
            && (stop.Some? ==> exists k: nat :: k >= count && env.stop(Read(k)) == stop && forall j: nat :: count <= j < k ==> env.stop(Read(j)).None?)
            && (left == 0 ==> stop == env.stop(Read(count)))
            && (stop.None? && left > 0 ==> env.stop(Read(count)).None? && env.stop(Read(count + 1)).None?)
    decreases left
  {
    if env.stop(Read(count)).None? && left > 0 {
      ReadStopMeans(env, left - ReadLength(env, count, block, left), block, count + 1);
    }
  }

  /** What stands in the way of a verdict, and in which order it is met. */
  lemma ObstacleMeans(env: Environment, size: nat, block: nat)
    requires block > 0
    ensures Obstacle(env, size, block).None? <==>
            && env.rootExists && env.freeBytes >= size + env.reserveBytes
            && env.stop(Entry).None? && env.stop(MakeDirectory).None? && env.stop(Remember).None?
            && WriteStop(env, size, block, 0).None? && ReadStop(env, size, block, 0).None?
    ensures !env.rootExists ==> Obstacle(env, size, block) == Some(RootMissing)
    ensures env.rootExists && env.freeBytes < size + env.reserveBytes ==> Obstacle(env, size, block) == Some(NoSpace)
    ensures env.rootExists && env.freeBytes >= size + env.reserveBytes ==>
              && (env.stop(Entry).Some? ==> Obstacle(env, size, block) == env.stop(Entry))
              && (env.stop(Entry).None? && env.stop(MakeDirectory).Some? ==> Obstacle(env, size, block) == env.stop(MakeDirectory))
              && (MakesDirectory(env, size) && env.stop(Remember).Some? ==> Obstacle(env, size, block) == env.stop(Remember))
              && (MakesDirectory(env, size) && env.stop(Remember).None? && WriteStop(env, size, block, 0).Some? ==>
                    Obstacle(env, size, block) == WriteStop(env, size, block, 0))
  {
    hide WriteStop, ReadStop;
  }

  /** The workload gets as far as making its directory. */
  predicate MakesDirectory(env: Environment, size: nat) {
    Refusal(env, size).None? && env.stop(Entry).None? && env.stop(MakeDirectory).None?
  }

  datatype StorageResult = StorageResult(correct: bool, checksum: Bytes, bytesWritten: nat)

  const FILE := "round-trip.bin"

  class TemporaryRoot {
    var children: map<string, map<string, Bytes>>

    method Append(directory: string, data: Bytes)
      requires directory in children && FILE in children[directory]
      modifies this
      ensures directory in children && children - {directory} == old(children) - {directory}
      ensures FILE in children[directory] && children[directory][FILE] == old(children)[directory][FILE] + data
    {
      children := children[directory := children[directory][FILE := children[directory][FILE] + data]];
    }

    /** Writes the file and returns its bytes as the expected hasher saw them. */
    method WriteBlocks(sha256: Bytes -> Bytes, directory: string, size: nat, block: nat, env: Environment)
      returns (problem: Option<Problem>, hashed: Bytes)
      requires block > 0 && NonEmptyDigests(sha256)
      requires directory in children
      modifies this
      ensures directory in children && children - {directory} == old(children) - {directory}
      ensures problem == WriteStop(env, size, block, 0)
      ensures problem.None? ==>
                && hashed == Content(sha256, size, block, 0)
                && FILE in children[directory] && children[directory][FILE] == hashed
    {
      hide Content, DeterministicBlock, Seed, NonEmptyDigests;
      children := children[directory := children[directory][FILE := []]];
      hashed := [];
      var remaining, index := size, 0;
      assert [] + Content(sha256, size, block, 0) == Content(sha256, size, block, 0);
      while remaining > 0
        invariant 0 <= remaining && 0 <= index
        invariant directory in children && children - {directory} == old(children) - {directory}
        invariant FILE in children[directory] && children[directory][FILE] == hashed
        invariant hashed + Content(sha256, remaining, block, index) == Content(sha256, size, block, 0)
        invariant WriteStop(env, remaining, block, index) == WriteStop(env, size, block, 0)
        decreases remaining
      {
        problem := env.stop(Block(index));
        if problem.Some? {
          return;
        }
        var length := if block <= remaining then block else remaining;
        ContentUnfold(sha256, remaining, block, index);
        var data := DeterministicBlock(sha256, index, length);
        AppendAssociates(hashed, data, Content(sha256, remaining - length, block, index + 1));
        Append(directory, data);
        hashed := hashed + data;
        remaining, index := remaining - length, index + 1;
      }
      problem := env.stop(Flush);
    }

    /** Any division of the file into reads feeds the actual hasher the same bytes. */
    method ReadFile(directory: string, block: nat, env: Environment) returns (problem: Option<Problem>, hashed: Bytes)
      requires block > 0
      requires directory in children && FILE in children[directory]
      ensures problem == ReadStop(env, |children[directory][FILE]|, block, 0)
      ensures problem.None? ==> hashed == ReadBack(env, children[directory][FILE])
    {
      var file := children[directory][FILE];
      var all := ReadBack(env, file);
      hashed := [];
      var count := 0;
      while true
        invariant 0 <= count && |hashed| <= |file|
        invariant hashed == all[..|hashed|]
        invariant ReadStop(env, |file| - |hashed|, block, count) == ReadStop(env, |file|, block, 0)
        decreases |file| - |hashed|
      {
        problem := env.stop(Read(count));
        if problem.Some? {
          return;
        }
        if |hashed| == |file| {
          break;
        }
        var length := ReadLength(env, count, block, |file| - |hashed|);
        hashed := hashed + all[|hashed|..|hashed| + length];
        count := count + 1;
      }
      problem := None;
    }

    /** The owned directory is left behind exactly when it was made and then either its path was not
        yet remembered or removing it fails; on every other exit, normal or not, it is gone. Nothing
        else under the root changes. A returned verdict compares the hash of the bytes read
        back with the hash of exactly `size` written bytes. */
    method RunStorageWorkload(sha256: Bytes -> Bytes, directory: string, size: nat, block: nat, env: Environment)
      returns (r: Result<StorageResult, Problem>)
      requires block > 0 && NonEmptyDigests(sha256)
      requires directory !in children
      modifies this
      ensures children - {directory} == old(children)
      ensures directory in children <==> MakesDirectory(env, size) && (env.stop(Remember).Some? || !env.removable)
      ensures directory !in children ==> children == old(children)
      ensures r.Ok? ==> directory !in children
      ensures directory in children && env.stop(Remember).None? ==> r == Err(OsError)
      ensures env.removable ==> (r.Ok? <==> Obstacle(env, size, block).None?)
      ensures env.removable && r.Err? ==> Obstacle(env, size, block) == Some(r.error)
      ensures !env.removable && MakesDirectory(env, size) ==> r.Err?
      ensures Refusal(env, size).Some? ==> r == Err(Refusal(env, size).value) && children == old(children)
      ensures r.Ok? ==>
                var file := Content(sha256, size, block, 0);
                && r.value.bytesWritten == size
                && r.value.checksum == sha256(ReadBack(env, file))
                && (r.value.correct <==> sha256(ReadBack(env, file)) == sha256(file))
    {
      if !env.rootExists {
        return Err(RootMissing);
      }
      if env.freeBytes < size + env.reserveBytes {
        return Err(NoSpace);
      }
      var problem := env.stop(Entry);
      if problem.Some? {
        return Err(problem.value);
      }
      problem := env.stop(MakeDirectory);
      if problem.Some? {
        return Err(problem.value);
      }
      children := children[directory := map[]];
      problem := env.stop(Remember);
      if problem.Some? {
        return Err(problem.value);
      }
      var expected, actual: Bytes := [], [];
      problem, expected := WriteBlocks(sha256, directory, size, block, env);
      if problem.None? {
        problem, actual := ReadFile(directory, block, env);
      }
      // Normal or interrupted, the owned directory goes.
      if !env.removable {
        return Err(OsError);
      }
      children := children - {directory};
      if problem.Some? {
        return Err(problem.value);
      }
      r := Ok(StorageResult(sha256(actual) == sha256(expected), sha256(actual), |expected|));
    }
  }
}

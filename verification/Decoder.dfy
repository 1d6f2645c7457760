/** Decoding CPUID registers: the deterministic cache leaf and the brand string. */
module Decoder {
  import opened Models
  import opened ByteStrings

  type U32 = x: int | 0 <= x < 0x1_0000_0000
  type U64 = x: int | 0 <= x < 0x1_0000_0000_0000_0000

  datatype Registers = Registers(eax: U32, ebx: U32, ecx: U32, edx: U32)

  datatype CacheKind = Data | Instruction | Unified

  datatype CacheInfo = CacheInfo(
    level: U32,
    kind: CacheKind,
    sizeBytes: U64,
    lineSizeBytes: U32,
    sets: U32,
    ways: U32,
    partitions: U32)

  // ---- Deterministic cache parameters ----

  /** A bit field, its position and its width given as powers of two. */
  function Field(value: U32, shift: nat, width: nat): (r: U32)
    requires shift > 0 && 0 < width <= 0x1_0000_0000
    ensures r < width
  {
    value / shift % width
  }

  function Add32(a: U32, b: U32): U32 {
    (a + b) % 0x1_0000_0000
  }

  function Multiply64(a: U64, b: U64): U64 {
    (a * b) % 0x1_0000_0000_0000_0000
  }

  function DecodeDeterministicCache(r: Registers): Option<CacheInfo> {
    var kind := Field(r.eax, 1, 32);
    if kind == 0 || kind > 3 then None
    else
      var lineSize := Add32(Field(r.ebx, 1, 4096), 1);
      var partitions := Add32(Field(r.ebx, 4096, 1024), 1);
      var ways := Add32(Field(r.ebx, 4194304, 1024), 1);
      var sets := Add32(r.ecx, 1);
      var size := Multiply64(Multiply64(Multiply64(lineSize, partitions), ways), sets);
      Some(CacheInfo(
             Field(r.eax, 32, 8),
             if kind == 1 then Data else if kind == 2 then Instruction else Unified,
             size, lineSize, sets, ways, partitions))
  }

  /** The size of a cache with these parameters. */
  function CacheSize(lineSize: nat, partitions: nat, ways: nat, sets: nat): nat {
    lineSize * partitions * ways * sets
  }

  lemma MultiplyBounds(a: nat, b: nat, x: nat, y: nat)
    requires a <= x && b <= y
    ensures a * b <= x * y
  {
    assert a * b <= x * b;
    assert x * b <= x * y;
  }

  lemma NoWrap(a: nat, b: nat, x: nat, y: nat)
    requires a <= x < 0x1_0000_0000_0000_0000 && b <= y < 0x1_0000_0000_0000_0000
    requires x * y < 0x1_0000_0000_0000_0000
    ensures Multiply64(a, b) == a * b <= x * y
  {
    MultiplyBounds(a, b, x, y);
    assert 0 <= a * b;
  }

  lemma ProductIsExact(l: nat, p: nat, w: nat, s: nat)
    requires l <= 4096 && p <= 1024 && w <= 1024 && s <= 0xFFFF_FFFF
    ensures Multiply64(Multiply64(Multiply64(l, p), w), s) == CacheSize(l, p, w, s)
  {
    hide Multiply64;
    NoWrap(l, p, 4096, 1024);
    NoWrap(l * p, w, 0x40_0000, 1024);
    NoWrap(l * p * w, s, 0x1_0000_0000, 0xFFFF_FFFF);
  }

  /** The 64-bit product never wraps: for any register values the size is the exact product. */
  lemma CacheSizeIsExact(r: Registers)
    ensures var c := DecodeDeterministicCache(r);
            c.Some? ==> c.value.sizeBytes == CacheSize(c.value.lineSizeBytes, c.value.partitions, c.value.ways, c.value.sets)
  {
    var c := DecodeDeterministicCache(r);
    if c.Some? {
      hide DecodeDeterministicCache, Multiply64, CacheSize;
      FieldRanges(r);
      SizeOf(r);
      ProductIsExact(c.value.lineSizeBytes, c.value.partitions, c.value.ways, c.value.sets);
    }
  }

  lemma FieldRanges(r: Registers)
    ensures var c := DecodeDeterministicCache(r);
            c.Some? ==>
              && 1 <= c.value.lineSizeBytes <= 4096
              && 1 <= c.value.partitions <= 1024
              && 1 <= c.value.ways <= 1024
  {
    hide Multiply64;
  }

  lemma SizeOf(r: Registers)
    ensures var c := DecodeDeterministicCache(r);
            c.Some? ==> c.value.sizeBytes ==
                        Multiply64(Multiply64(Multiply64(c.value.lineSizeBytes, c.value.partitions), c.value.ways), c.value.sets)
  {
    hide Multiply64, Field, Add32;
  }

  /** The parameters as leaf 04H of the CPUID entry (Intel SDM, Volume 2A) packs them: every count is
      stored minus one. `reserved` stands for the bits of EAX above the level. */
  datatype CacheParameters = CacheParameters(
    kind: CacheKind,
    level: nat,
    lineSize: nat,
    partitions: nat,
    ways: nat,
    sets: nat)

  predicate Packable(c: CacheParameters, reserved: nat) {
    && c.level < 8 && reserved < 0x100_0000
    && 1 <= c.lineSize <= 4096 && 1 <= c.partitions <= 1024 && 1 <= c.ways <= 1024
    && 1 <= c.sets <= 0x1_0000_0000
  }

  function KindCode(kind: CacheKind): nat {
    match kind case Data => 1 case Instruction => 2 case Unified => 3
  }

  function Pack(c: CacheParameters, reserved: nat, edx: U32): Registers
    requires Packable(c, reserved)
  {
    Registers(
      KindCode(c.kind) + 32 * c.level + 256 * reserved,
      (c.lineSize - 1) + 4096 * (c.partitions - 1) + 4194304 * (c.ways - 1),
      c.sets - 1,
      edx)
  }

  lemma FieldsOfPack(c: CacheParameters, reserved: nat, edx: U32)
    requires Packable(c, reserved)
    ensures var r := Pack(c, reserved, edx);
            && Field(r.eax, 1, 32) == KindCode(c.kind)
            && Field(r.eax, 32, 8) == c.level
            && Field(r.ebx, 1, 4096) == c.lineSize - 1
            && Field(r.ebx, 4096, 1024) == c.partitions - 1
            && Field(r.ebx, 4194304, 1024) == c.ways - 1
            && r.ecx == c.sets - 1
  {
    hide CacheSize, DecodeDeterministicCache;
    var r, kind := Pack(c, reserved, edx), KindCode(c.kind);
    DivUnique(r.eax, 32, c.level + 8 * reserved, kind);
    DivUnique(c.level + 8 * reserved, 8, reserved, c.level);
    var high := (c.partitions - 1) + 1024 * (c.ways - 1);
    DivUnique(r.ebx, 4096, high, c.lineSize - 1);
    DivUnique(high, 1024, c.ways - 1, c.partitions - 1);
    DivUnique(r.ebx, 4194304, c.ways - 1, (c.lineSize - 1) + 4096 * (c.partitions - 1));
  }

  /** Each decoded parameter is its field plus one; only the set count can wrap. */
  lemma DecodedFields(r: Registers)
    ensures var d := DecodeDeterministicCache(r);
            && (d.Some? <==> 1 <= Field(r.eax, 1, 32) <= 3)
            && (d.Some? ==>
                  && KindCode(d.value.kind) == Field(r.eax, 1, 32)
                  && d.value.level == Field(r.eax, 32, 8)
                  && d.value.lineSizeBytes == Field(r.ebx, 1, 4096) + 1
                  && d.value.partitions == Field(r.ebx, 4096, 1024) + 1
                  && d.value.ways == Field(r.ebx, 4194304, 1024) + 1
                  && d.value.sets == if r.ecx == 0xFFFF_FFFF then 0 else r.ecx + 1)
  {
    hide Field, Multiply64;
  }

  /** Decoding inverts the packing: every parameter comes back, except that the largest set count,
      2^32, wraps to zero and takes the size with it. */
  lemma DecodeInvertsPack(c: CacheParameters, reserved: nat, edx: U32)
    requires Packable(c, reserved)
    ensures var decoded := DecodeDeterministicCache(Pack(c, reserved, edx));
            && decoded.Some?
            && var d := decoded.value;
               && d.kind == c.kind && d.level == c.level
               && d.lineSizeBytes == c.lineSize && d.partitions == c.partitions && d.ways == c.ways
               && (d.sets == c.sets && d.sizeBytes == CacheSize(c.lineSize, c.partitions, c.ways, c.sets) <==> c.sets != 0x1_0000_0000)
  {
    var r := Pack(c, reserved, edx);
    hide Field, CacheSize, Pack, DecodeDeterministicCache;
    FieldsOfPack(c, reserved, edx);
    DecodedFields(r);
    CacheSizeIsExact(r);
  }

  /** The low five bits of EAX name the kind. */
  lemma KindIs(r: Registers)
    ensures var d, kind := DecodeDeterministicCache(r), r.eax % 32;
            && (d.Some? <==> kind in {1, 2, 3})
            && (kind == 1 ==> d.value.kind == Data)
            && (kind == 2 ==> d.value.kind == Instruction)
            && (kind == 3 ==> d.value.kind == Unified)
  {
    hide Multiply64, Add32;
  }

  // ---- Brand string ----

  const SPACE: Byte := 32

  function DropSpaces(s: Bytes): (r: Bytes)
    ensures |r| <= |s| && (r != [] ==> r[0] != SPACE)
  {
    if s != [] && s[0] == SPACE then DropSpaces(s[1..]) else s
  }

  /** The leading run of bytes that are not spaces. */
  function FirstWord(s: Bytes): (w: Bytes)
    ensures |w| <= |s| && w == s[..|w|]
    ensures s != [] && s[0] != SPACE ==> w != []
  {
    if s != [] && s[0] != SPACE then [s[0]] + FirstWord(s[1..]) else []
  }

  /** The words of a string: its maximal runs of bytes other than spaces. */
  function Words(s: Bytes): seq<Bytes>
    decreases |s|
  {
    var t := DropSpaces(s);
    if t == [] then []
    else
      var w := FirstWord(t);
      [w] + Words(t[|w|..])
  }

  /** No leading, trailing or doubled space. */
  predicate Tidy(s: Bytes) {
    s != [] ==>
      && s[0] != SPACE && s[|s| - 1] != SPACE
      && NoDoubleSpace(s)
  }

  predicate NoDoubleSpace(s: Bytes) {
    forall i :: 0 <= i < |s| - 1 ==> s[i] != SPACE || s[i + 1] != SPACE
  }

  /** Keeps the first space of every run; `previous` tells whether a space came just before. */
  function Collapse(s: Bytes, previous: bool): Bytes {
    if s == [] then []
    else if s[0] == SPACE && previous then Collapse(s[1..], true)
    else [s[0]] + Collapse(s[1..], s[0] == SPACE)
  }

  lemma {:induction false} WordsSkipSpace(s: Bytes)
    requires s != [] && s[0] == SPACE
    ensures Words(s) == Words(s[1..])
  {
  }

  lemma {:induction false} FirstWordAgrees(a: Bytes, b: Bytes, n: nat)
    requires n <= |a| && n <= |b| && a[..n] == b[..n]
    requires forall i :: 0 <= i < n ==> a[i] != SPACE
    requires (n < |a| ==> a[n] == SPACE) && (n < |b| ==> b[n] == SPACE)
    ensures |FirstWord(a)| == n && FirstWord(b) == FirstWord(a)
  {
    if n > 0 {
      assert a[0] == a[..n][0] == b[..n][0] == b[0];
      assert a[1..][..n - 1] == a[..n][1..] && b[1..][..n - 1] == b[..n][1..];
      FirstWordAgrees(a[1..], b[1..], n - 1);
    }
  }

  lemma {:induction false} FirstWordEnd(s: Bytes)
    ensures var n := |FirstWord(s)|;
            && (forall i :: 0 <= i < n ==> s[i] != SPACE)
            && (n < |s| ==> s[n] == SPACE)
  {
    if s != [] && s[0] != SPACE {
      FirstWordEnd(s[1..]);
      var n := |FirstWord(s)|;
      assert forall i :: 1 <= i < n ==> s[i] == s[1..][i - 1];
    }
  }

  /** Words keep their bytes and boundaries when a run of spaces shrinks to one. */
  lemma {:induction false} CollapseWord(s: Bytes, n: nat)
    requires n <= |s| && forall i :: 0 <= i < n ==> s[i] != SPACE
    ensures Collapse(s, false) == s[..n] + Collapse(s[n..], false)
    ensures Collapse(s, true) == if n == 0 then Collapse(s, true) else s[..n] + Collapse(s[n..], false)
  {
    if n == 0 {
      assert s[n..] == s;
    } else {
      CollapseWord(s[1..], n - 1);
      assert s[1..][..n - 1] == s[1..n] && s[1..][n - 1..] == s[n..];
      assert s[..n] == [s[0]] + s[1..n];
    }
  }

  lemma {:induction false} CollapseKeepsWords(s: Bytes, previous: bool)
    ensures Words(Collapse(s, previous)) == Words(s)
    decreases |s|
  {
    if s == [] {
    } else if s[0] == SPACE {
      CollapseKeepsWords(s[1..], true);
      WordsSkipSpace(s);
      if !previous {
        var c := Collapse(s, false);
        assert c == [SPACE] + Collapse(s[1..], true);
        assert c[1..] == Collapse(s[1..], true);
        WordsSkipSpace(c);
      }
    } else {
      var n := |FirstWord(s)|;
      FirstWordEnd(s);
      CollapseWord(s, n);
      CollapseKeepsWords(s[n..], false);
      var c := Collapse(s, previous);
      var rest := Collapse(s[n..], false);
      assert c == s[..n] + rest;
      assert rest != [] ==> rest[0] == s[n] == SPACE;
      assert c[..n] == s[..n] && c[n..] == rest;
      FirstWordAgrees(s, c, n);
      assert DropSpaces(c) == c && DropSpaces(s) == s;
    }
  }

  lemma {:induction false} CollapseShape(s: Bytes, previous: bool)
    ensures var c := Collapse(s, previous);
            && NoDoubleSpace(c)
            && (c != [] && previous ==> c[0] != SPACE)
            && (s != [] && s[0] != SPACE ==> c != [] && c[0] == s[0])
            && (s != [] && s[|s| - 1] != SPACE ==> c != [] && c[|c| - 1] == s[|s| - 1])
  {
    if s != [] {
      var tail, c := s[1..], Collapse(s, previous);
      if s[0] == SPACE && previous {
        CollapseShape(tail, true);
      } else {
        CollapseShape(tail, s[0] == SPACE);
        var rest := Collapse(tail, s[0] == SPACE);
        assert c == [s[0]] + rest;
        forall i | 0 <= i < |c| - 1
          ensures c[i] != SPACE || c[i + 1] != SPACE
        {
          if i > 0 {
            assert c[i] == rest[i - 1] && c[i + 1] == rest[i];
          }
        }
      }
      if tail != [] {
        assert tail[|tail| - 1] == s[|s| - 1];
      }
    }
  }

  lemma {:induction false} TrailingSpaceAddsNoWord(s: Bytes)
    ensures Words(s + [SPACE]) == Words(s)
    decreases |s|
  {
    var t := s + [SPACE];
    if s == [] {
      assert t == [SPACE] && t[1..] == [];
      WordsSkipSpace(t);
    } else if s[0] == SPACE {
      WordsSkipSpace(s);
      WordsSkipSpace(t);
      assert t[1..] == s[1..] + [SPACE];
      TrailingSpaceAddsNoWord(s[1..]);
    } else {
      var n := |FirstWord(s)|;
      FirstWordEnd(s);
      assert t[..n] == s[..n] && (n < |s| ==> t[n] == s[n]);
      FirstWordAgrees(s, t, n);
      assert t[n..] == s[n..] + [SPACE];
      TrailingSpaceAddsNoWord(s[n..]);
    }
  }

  /** Trimming gives a tidy string with the same words. */
  method TrimCpuString(value: Bytes) returns (normalized: Bytes)
    ensures Tidy(normalized)
    ensures Words(normalized) == Words(value)
  {
    hide Words, Collapse;
    var first := 0;
    while first < |value| && value[first] == SPACE
      invariant 0 <= first <= |value|
      invariant Words(value[first..]) == Words(value)
    {
      WordsSkipSpace(value[first..]);
      assert value[first..][1..] == value[first + 1..];
      first := first + 1;
    }
    if first == |value| {
      assert value[first..] == [];
      NoWords();
      return [];
    }
    var end := |value|;
    assert value[first..end] == value[first..];
    while value[end - 1] == SPACE
      invariant first < end <= |value|
      invariant Words(value[first..end]) == Words(value)
      decreases end
    {
      assert value[first..end] == value[first..end - 1] + [SPACE];
      TrailingSpaceAddsNoWord(value[first..end - 1]);
      end := end - 1;
    }
    var trimmed := value[first..end];
    normalized := [];
    var previousSpace := false;
    for i := 0 to |trimmed|
      invariant normalized + Collapse(trimmed[i..], previousSpace) == Collapse(trimmed, false)
    {
      CollapseStep(trimmed[i..], previousSpace);
      assert trimmed[i..][1..] == trimmed[i + 1..];
      var isSpace := trimmed[i] == SPACE;
      if !isSpace || !previousSpace {
        normalized := normalized + [trimmed[i]];
      }
      previousSpace := isSpace;
    }
    CollapseEmpty(previousSpace);
    assert normalized == Collapse(trimmed, false);
    CollapseKeepsWords(trimmed, false);
    CollapseShape(trimmed, false);
  }

  lemma NoWords()
    ensures Words([]) == []
  {
  }

  lemma CollapseEmpty(previous: bool)
    ensures Collapse([], previous) == []
  {
  }

  lemma CollapseStep(s: Bytes, previous: bool)
    requires s != []
    ensures Collapse(s, previous) == (if s[0] == SPACE && previous then [] else [s[0]]) + Collapse(s[1..], s[0] == SPACE)
  {
  }

  /** A non-empty tidy string is its first word, alone or followed by one space and a tidy rest. */
  lemma TidyWords(s: Bytes)
    requires Tidy(s) && s != []
    ensures var n := |FirstWord(s)|;
            if n == |s| then s == FirstWord(s) && Words(s) == [FirstWord(s)]
            else
              && n + 1 < |s| && s == FirstWord(s) + [SPACE] + s[n + 1..]
              && Tidy(s[n + 1..]) && Words(s[n + 1..]) != []
              && Words(s) == [FirstWord(s)] + Words(s[n + 1..])
  {
    hide Words, FirstWord, Tidy;
    var n := |FirstWord(s)|;
    TidyStart(s);
    WordsUnfold(s);
    FirstWordEnd(s);
    TidyTail(s, n);
    if n == |s| {
      assert s[n..] == [];
      NoWords();
    } else {
      WordsSkipSpace(s[n..]);
      assert s[n..][1..] == s[n + 1..];
      TidyHasWord(s[n + 1..]);
    }
  }

  lemma TidyStart(s: Bytes)
    requires Tidy(s) && s != []
    ensures s[0] != SPACE && s[|s| - 1] != SPACE
  {
  }

  lemma WordsUnfold(s: Bytes)
    requires s != [] && s[0] != SPACE
    ensures FirstWord(s) != [] && Words(s) == [FirstWord(s)] + Words(s[|FirstWord(s)|..])
  {
  }

  /** A tidy string is determined by its words, so trimming a second time changes nothing. */
  lemma {:induction false} TidyIsDeterminedByWords(a: Bytes, b: Bytes)
    requires Tidy(a) && Tidy(b) && Words(a) == Words(b)
    ensures a == b
    decreases |a|
  {
    hide Words, FirstWord, Tidy;
    NoWords();
    if a != [] && b != [] {
      TidyWords(a);
      TidyWords(b);
      var n, m := |FirstWord(a)|, |FirstWord(b)|;
      assert Words(a)[0] == FirstWord(a) && Words(b)[0] == FirstWord(b);
      if n < |a| {
        assert |Words(a)| > 1;
        assert Words(a[n + 1..]) == Words(a)[1..] == Words(b)[1..] == Words(b[m + 1..]);
        TidyIsDeterminedByWords(a[n + 1..], b[m + 1..]);
      } else {
        assert |Words(a)| == 1;
      }
    } else if a != [] {
      TidyWords(a);
    } else if b != [] {
      TidyWords(b);
    }
  }

  lemma TidyHasWord(s: Bytes)
    requires s != [] && s[0] != SPACE
    ensures Words(s) != []
  {
  }

  /** After a word of a tidy string comes the end, or one space and another tidy string. */
  lemma TidyTail(s: Bytes, n: nat)
    requires Tidy(s) && s != [] && n <= |s| && (n < |s| ==> s[n] == SPACE)
    ensures n < |s| ==> n + 1 < |s| && s[n + 1] != SPACE && Tidy(s[n + 1..])
  {
    if n < |s| {
      assert n + 1 < |s|;
      var t := s[n + 1..];
      assert forall i :: 0 <= i < |t| ==> t[i] == s[n + 1 + i];
    }
  }

  /** The bytes of the brand leaves, least significant byte first. */
  function BrandBytes(leaves: seq<Registers>): Bytes {
    if leaves == [] then []
    else
      var r := leaves[|leaves| - 1];
      BrandBytes(leaves[..|leaves| - 1])
      + LittleEndian(r.eax, 4) + LittleEndian(r.ebx, 4) + LittleEndian(r.ecx, 4) + LittleEndian(r.edx, 4)
  }

  /** Register `reg` of a leaf in the order EAX, EBX, ECX, EDX. */
  function RegisterOf(r: Registers, reg: nat): U32
    requires reg < 4
  {
    match reg
    case 0 => r.eax
    case 1 => r.ebx
    case 2 => r.ecx
    case _ => r.edx
  }

  /** Byte `k` of a register, sixteen bytes to the leaf and four to the register. */
  lemma {:induction false} BrandByteAt(leaves: seq<Registers>, leaf: nat, reg: nat, k: nat)
    requires leaf < |leaves| && reg < 4 && k < 4
    ensures |BrandBytes(leaves)| == 16 * |leaves|
    ensures BrandBytes(leaves)[16 * leaf + 4 * reg + k] == RegisterOf(leaves[leaf], reg) / Power256(k) % 256
  {
    hide LittleEndian, Power256;
    var n := |leaves| - 1;
    BrandLength(leaves[..n]);
    if leaf < n {
      BrandByteAt(leaves[..n], leaf, reg, k);
    } else {
      LittleEndianAt(RegisterOf(leaves[leaf], reg), 4, k);
    }
  }

  lemma {:induction false} BrandLength(leaves: seq<Registers>)
    ensures |BrandBytes(leaves)| == 16 * |leaves|
  {
    hide LittleEndian;
    if leaves != [] {
      BrandLength(leaves[..|leaves| - 1]);
    }
  }

  /** Everything before the first zero byte, or everything. */
  lemma {:induction false} CStringIs(s: Bytes)
    ensures CString(s) <= s
    ensures forall i :: 0 <= i < |CString(s)| ==> s[i] != 0
    ensures |CString(s)| < |s| ==> s[|CString(s)|] == 0
  {
    if s != [] && s[0] != 0 {
      CStringIs(s[1..]);
      assert s == [s[0]] + s[1..];
    }
  }

  /** A C string ends before its first zero byte. */
  function CString(s: Bytes): Bytes {
    if s == [] || s[0] == 0 then [] else [s[0]] + CString(s[1..])
  }

  method DecodeBrand(leaves: seq<Registers>) returns (brand: Bytes)
    requires |leaves| == 3
    ensures Tidy(brand)
    ensures Words(brand) == Words(CString(BrandBytes(leaves)))
  {
    hide Words, CString;
    var buffer := new Byte[49](i => 0);
    var offset := 0;
    for i := 0 to 3
      invariant offset == 16 * i
      invariant forall j :: offset <= j < 49 ==> buffer[j] == 0
      invariant buffer[..offset] == BrandBytes(leaves[..i])
    {
      var r := leaves[i];
      var bytes := LittleEndian(r.eax, 4) + LittleEndian(r.ebx, 4) + LittleEndian(r.ecx, 4) + LittleEndian(r.edx, 4);
      ghost var before := buffer[..offset];
      forall j | 0 <= j < 16 {
        buffer[offset + j] := bytes[j];
      }
      assert buffer[..offset + 16] == before + bytes;
      assert leaves[..i + 1][..i] == leaves[..i];
      offset := offset + 16;
    }
    assert leaves[..3] == leaves;
    assert buffer[..] == BrandBytes(leaves) + [0];
    EndsAtZero(BrandBytes(leaves));
    brand := TrimCpuString(CString(buffer[..]));
  }

  lemma {:induction false} EndsAtZero(s: Bytes)
    ensures CString(s + [0]) == CString(s)
  {
    if s == [] {
      assert CString([0]) == [];
    } else {
      assert (s + [0])[1..] == s[1..] + [0];
      EndsAtZero(s[1..]);
    }
  }
}

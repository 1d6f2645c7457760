/** The probe's JSON printer: escaping and rendering onto a formatted output stream. */
module JsonPrinter {
  import opened Models
  import opened ByteStrings
  import opened Decoder
  import opened Json
  import opened JsonDocuments
  import opened Probe

  function Ascii(s: string): (r: Bytes)
    ensures |r| == |s|
  {
    seq(|s|, i requires 0 <= i < |s| => if s[i] as int < 128 then s[i] as int else 63)
  }

  function Hexadecimal(n: nat): Bytes {
    if n < 16 then [HexByte(n)] else Hexadecimal(n / 16) + [HexByte(n % 16)]
  }

  function Repeated(b: Byte, n: int): Bytes {
    if n <= 0 then [] else [b] + Repeated(b, n - 1)
  }

  /** An output stream with the formatting state that the printer changes: the number base, the fill
      character, and the field width, which every insertion resets. */
  class OutputStream {
    var text: Bytes
    var hex: bool
    var width: nat
    var fill: Byte

    constructor ()
      ensures text == [] && !hex && width == 0
    {
      text := [];
      hex := false;
      width := 0;
      fill := 32;
    }

    method Put(s: Bytes)
      modifies this
      ensures text == old(text) + Repeated(old(fill), old(width) - |s|) + s
      ensures width == 0 && hex == old(hex) && fill == old(fill)
    {
      text := text + Repeated(fill, width - |s|) + s;
      width := 0;
    }

    /** Text while no width is pending. */
    method PutText(s: Bytes)
      requires width == 0
      modifies this
      ensures text == old(text) + s
      ensures width == 0 && hex == old(hex) && fill == old(fill)
    {
      Put(s);
    }

    method PutUnsigned(n: nat)
      modifies this
      ensures var digits := if old(hex) then Hexadecimal(n) else ByteStrings.Decimal(n);
              text == old(text) + Repeated(old(fill), old(width) - |digits|) + digits
      ensures width == 0 && hex == old(hex) && fill == old(fill)
    {
      Put(if hex then Hexadecimal(n) else ByteStrings.Decimal(n));
    }
  }

  /** Control characters without a short escape are written as \\u and four padded hex digits. */
  lemma PaddedControl(b: Byte)
    requires b < 0x20
    ensures Repeated(48, 4 - |Hexadecimal(b)|) + Hexadecimal(b) == [48, 48, HexByte(b / 16), HexByte(b % 16)]
  {
    if b < 16 {
      assert Repeated(48, 3) == [48, 48, 48];
    } else {
      assert Hexadecimal(b) == Hexadecimal(b / 16) + [HexByte(b % 16)];
      assert Repeated(48, 2) == [48, 48];
    }
  }

  method EscapeCharacter(output: OutputStream, b: Byte)
    requires !output.hex && output.width == 0
    modifies output
    ensures output.text == old(output.text) + EscapeByte(b)
    ensures !output.hex && output.width == 0
  {
    if b == 34 {
      output.Put([92, 34]);
    } else if b == 92 {
      output.Put([92, 92]);
    } else if b == 8 {
      output.Put([92, 98]);
    } else if b == 12 {
      output.Put([92, 102]);
    } else if b == 10 {
      output.Put([92, 110]);
    } else if b == 13 {
      output.Put([92, 114]);
    } else if b == 9 {
      output.Put([92, 116]);
    } else if b < 0x20 {
      output.Put([92, 117]);
      output.hex := true;
      output.width := 4;
      output.fill := 48;
      output.PutUnsigned(b);
      output.hex := false;
      PaddedControl(b);
      assert output.text == old(output.text) + [92, 117] + (Repeated(48, 4 - |Hexadecimal(b)|) + Hexadecimal(b));
    } else {
      output.Put([b]);
    }
  }

  lemma {:induction false} EscapeStep(s: Bytes, b: Byte)
    ensures Escape(s + [b]) == Escape(s) + EscapeByte(b)
  {
    if s == [] {
      assert [b][1..] == [] && Escape([]) == [];
      assert s + [b] == [b];
    } else {
      assert (s + [b])[1..] == s[1..] + [b];
      EscapeStep(s[1..], b);
    }
  }

  method EscapeJson(input: Bytes) returns (r: Bytes)
    ensures r == Escape(input)
  {
    hide EscapeByte, Escape;
    var output := new OutputStream();
    assert Escape([]) == [] by { EscapeNothing(); }
    for i := 0 to |input|
      invariant output.text == Escape(input[..i])
      invariant !output.hex && output.width == 0
    {
      assert input[..i + 1] == input[..i] + [input[i]];
      EscapeStep(input[..i], input[i]);
      EscapeCharacter(output, input[i]);
    }
    assert input[..|input|] == input;
    r := output.text;
  }

  lemma EscapeNothing()
    ensures Escape([]) == []
  {
  }

  // ---- Layouts ----

  type Fields = seq<(string, Doc)>

  /** The members of an object printed line by line: `lead` before each key, `gap` after each
      colon, `end` before the closing brace. */
  function Uniform(fields: Fields, lead: Bytes, gap: Bytes, end: Bytes): Members {
    if fields == [] then NoMembers([])
    else
      var last := |fields| == 1;
      Member(lead, Ascii(fields[0].0), gap, fields[0].1, if last then end else [], Uniform(fields[1..], lead, gap, end))
  }

  function UniformItems(docs: seq<Doc>, lead: Bytes, end: Bytes): Items {
    if docs == [] then NoItems([])
    else
      var last := |docs| == 1;
      Item(lead, docs[0], if last then end else [], UniformItems(docs[1..], lead, end))
  }

  const SCHEMA_VERSION := 1
  const PROBE_VERSION := "0.1.0"

  function KindName(kind: CacheKind): string {
    match kind
    case Data => "data"
    case Instruction => "instruction"
    case Unified => "unified"
  }

  function CacheFields(c: CacheInfo): Fields {
    [("level", DNumber(c.level)),
     ("kind", DString(Ascii(KindName(c.kind)))),
     ("size_bytes", DNumber(c.sizeBytes)),
     ("line_size_bytes", DNumber(c.lineSizeBytes)),
     ("sets", DNumber(c.sets)),
     ("ways", DNumber(c.ways)),
     ("partitions", DNumber(c.partitions))]
  }

  function CacheDoc(c: CacheInfo): Doc {
    DObject(Uniform(CacheFields(c), [], [], []))
  }

  function FeatureFields(f: FeatureSet): Fields {
    [("sse2", DBool(f.sse2)),
     ("sse41", DBool(f.sse41)),
     ("sse42", DBool(f.sse42)),
     ("avx_hardware", DBool(f.avxHardware)),
     ("avx2_hardware", DBool(f.avx2Hardware)),
     ("avx_os_enabled", DBool(f.avxOsEnabled)),
     ("aes", DBool(f.aes)),
     ("vmx", DBool(f.vmx)),
     ("svm", DBool(f.svm)),
     ("virtualization_hardware", DBool(f.vmx || f.svm))]
  }

  /** The whitespace of one of the two formats. */
  datatype Style = Style(newline: Bytes, one: Bytes, two: Bytes, gap: Bytes)

  function StyleOf(pretty: bool): Style {
    if pretty then Style([10], [32, 32], [32, 32, 32, 32], [32]) else Style([], [], [], [])
  }

  function CacheDocs(caches: seq<CacheInfo>): seq<Doc> {
    seq(|caches|, i requires 0 <= i < |caches| => CacheDoc(caches[i]))
  }

  function ProbeFields(data: ProbeData, style: Style): Fields {
    [("schema_version", DNumber(SCHEMA_VERSION)),
     ("probe_version", DString(Ascii(PROBE_VERSION))),
     ("architecture", DString(data.architecture)),
     ("vendor_id", DString(data.vendorId)),
     ("brand_string", if data.brandString.Some? then DString(data.brandString.value) else DNull),
     ("max_basic_leaf", DNumber(data.maxBasicLeaf)),
     ("max_extended_leaf", DNumber(data.maxExtendedLeaf)),
     ("features", DObject(Uniform(FeatureFields(data.features), style.newline + style.two, style.gap, style.newline + style.one))),
     ("caches", DArray(UniformItems(CacheDocs(data.caches), style.newline + style.two, style.newline + style.one)))]
  }

  function ProbeDoc(data: ProbeData, style: Style): Doc {
    DObject(Uniform(ProbeFields(data, style), style.newline + style.one, style.gap, style.newline))
  }

  // ---- Lines ----

  /** One printed line: the indented member, a comma unless it is the last, and the line end. */
  function Line(field: (string, Doc), last: bool, indent: Bytes, gap: Bytes, newline: Bytes): Bytes {
    indent + ([QUOTE] + Ascii(field.0) + [QUOTE]) + [COLON] + gap + DocText(field.1) + (if last then [] else [COMMA]) + newline
  }

  /** The first `k` lines. */
  function Lines(fields: Fields, k: nat, indent: Bytes, gap: Bytes, newline: Bytes): Bytes
    requires k <= |fields|
  {
    if k == 0 then [] else Lines(fields, k - 1, indent, gap, newline) + Line(fields[k - 1], k == |fields|, indent, gap, newline)
  }

  predicate PlainByte(b: Byte) {
    b >= 0x20 && b != QUOTE && b != BACKSLASH
  }

  predicate PlainName(s: string) {
    forall i :: 0 <= i < |s| ==> 'a' <= s[i] <= 'z' || '0' <= s[i] <= '9' || s[i] == '_'
  }

  lemma {:induction false} PlainEscape(s: Bytes)
    requires forall i :: 0 <= i < |s| ==> PlainByte(s[i])
    ensures Escape(s) == s
  {
    if s != [] {
      PlainEscape(s[1..]);
      assert s == [s[0]] + s[1..];
    }
  }

  /** Member names need no escaping. */
  lemma NameIsPlain(name: string)
    requires PlainName(name)
    ensures Quoted(Ascii(name)) == [QUOTE] + Ascii(name) + [QUOTE]
  {
    PlainEscape(Ascii(name));
  }

  predicate PlainNames(fields: Fields) {
    forall i :: 0 <= i < |fields| ==> PlainName(fields[i].0)
  }

  /** The lines from `k` on, and the closing brace. */
  function LinesFrom(fields: Fields, k: nat, indent: Bytes, gap: Bytes, newline: Bytes, close: Bytes): Bytes
    requires k < |fields|
    decreases |fields| - k
  {
    var last := k + 1 == |fields|;
    Line(fields[k], last, indent, gap, newline)
    + if last then close + [CLOSE_OBJECT] else LinesFrom(fields, k + 1, indent, gap, newline, close)
  }

  lemma Regroup(newline: Bytes, indent: Bytes, name: Bytes, gap: Bytes, text: Bytes, comma: Bytes, rest: Bytes)
    ensures (newline + indent) + name + [COLON] + gap + text + [] + (comma + (newline + rest)) ==
            newline + ((indent + name + [COLON] + gap + text + comma + newline) + rest)
  {
  }

  lemma RegroupLast(newline: Bytes, indent: Bytes, name: Bytes, gap: Bytes, text: Bytes, close: Bytes, brace: Bytes)
    ensures (newline + indent) + name + [COLON] + gap + text + (newline + close) + brace ==
            newline + ((indent + name + [COLON] + gap + text + [] + newline) + (close + brace))
  {
  }

  /** Moving each line end from before a member to after the line before it. */
  lemma {:induction false} MembersAreLines(fields: Fields, k: nat, indent: Bytes, gap: Bytes, newline: Bytes, close: Bytes)
    requires k < |fields| && PlainNames(fields)
    ensures MembersText(Uniform(fields[k..], newline + indent, gap, newline + close)) ==
            newline + LinesFrom(fields, k, indent, gap, newline, close)
    decreases |fields| - k
  {
    NameIsPlain(fields[k].0);
    hide Quoted, Ascii, DocText, PlainName;
    var name := [QUOTE] + Ascii(fields[k].0) + [QUOTE];
    assert fields[k..][1..] == fields[k + 1..];
    if k + 1 < |fields| {
      MembersAreLines(fields, k + 1, indent, gap, newline, close);
      Regroup(newline, indent, name, gap, DocText(fields[k].1), [COMMA], LinesFrom(fields, k + 1, indent, gap, newline, close));
    } else {
      RegroupLast(newline, indent, name, gap, DocText(fields[k].1), close, [CLOSE_OBJECT]);
    }
    hide Line;
  }

  lemma {:induction false} LinesSplit(fields: Fields, k: nat, indent: Bytes, gap: Bytes, newline: Bytes, close: Bytes)
    requires k < |fields|
    ensures Lines(fields, |fields|, indent, gap, newline) + (close + [CLOSE_OBJECT]) ==
            Lines(fields, k, indent, gap, newline) + LinesFrom(fields, k, indent, gap, newline, close)
    decreases |fields| - k
  {
    hide Line;
    var line := Line(fields[k], k + 1 == |fields|, indent, gap, newline);
    if k + 1 < |fields| {
      LinesSplit(fields, k + 1, indent, gap, newline, close);
      AppendAssociates(Lines(fields, k, indent, gap, newline), line, LinesFrom(fields, k + 1, indent, gap, newline, close));
    } else {
      AppendAssociates(Lines(fields, k, indent, gap, newline), line, close + [CLOSE_OBJECT]);
    }
  }

  /** An object printed line by line is the text of its layout. */
  lemma ObjectText(fields: Fields, indent: Bytes, gap: Bytes, newline: Bytes, close: Bytes)
    requires fields != [] && PlainNames(fields)
    ensures DocText(DObject(Uniform(fields, newline + indent, gap, newline + close))) ==
            [OPEN_OBJECT] + newline + Lines(fields, |fields|, indent, gap, newline) + (close + [CLOSE_OBJECT])
  {
    hide MembersText, Uniform, Lines;
    ObjectBody(fields, indent, gap, newline, close);
    AppendAssociates([OPEN_OBJECT], newline, Lines(fields, |fields|, indent, gap, newline) + (close + [CLOSE_OBJECT]));
    AppendAssociates([OPEN_OBJECT] + newline, Lines(fields, |fields|, indent, gap, newline), close + [CLOSE_OBJECT]);
  }

  lemma ObjectBody(fields: Fields, indent: Bytes, gap: Bytes, newline: Bytes, close: Bytes)
    requires fields != [] && PlainNames(fields)
    ensures MembersText(Uniform(fields, newline + indent, gap, newline + close)) ==
            newline + (Lines(fields, |fields|, indent, gap, newline) + (close + [CLOSE_OBJECT]))
  {
    hide MembersText, Uniform, LinesFrom, Line;
    assert fields[0..] == fields;
    MembersAreLines(fields, 0, indent, gap, newline, close);
    LinesSplit(fields, 0, indent, gap, newline, close);
    assert [] + LinesFrom(fields, 0, indent, gap, newline, close) == LinesFrom(fields, 0, indent, gap, newline, close);
  }

  /** One printed array item. */
  function ItemLine(doc: Doc, last: bool, indent: Bytes, newline: Bytes): Bytes {
    indent + DocText(doc) + (if last then [] else [COMMA]) + newline
  }

  function ItemLines(docs: seq<Doc>, k: nat, indent: Bytes, newline: Bytes): Bytes
    requires k <= |docs|
  {
    if k == 0 then [] else ItemLines(docs, k - 1, indent, newline) + ItemLine(docs[k - 1], k == |docs|, indent, newline)
  }

  function ItemLinesFrom(docs: seq<Doc>, k: nat, indent: Bytes, newline: Bytes, close: Bytes): Bytes
    requires k < |docs|
    decreases |docs| - k
  {
    var last := k + 1 == |docs|;
    ItemLine(docs[k], last, indent, newline)
    + if last then close + [CLOSE_ARRAY] else ItemLinesFrom(docs, k + 1, indent, newline, close)
  }

  lemma RegroupItem(newline: Bytes, indent: Bytes, text: Bytes, comma: Bytes, rest: Bytes)
    ensures (newline + indent) + text + [] + (comma + (newline + rest)) ==
            newline + ((indent + text + comma + newline) + rest)
  {
  }

  lemma RegroupLastItem(newline: Bytes, indent: Bytes, text: Bytes, close: Bytes, bracket: Bytes)
    ensures (newline + indent) + text + (newline + close) + bracket ==
            newline + ((indent + text + [] + newline) + (close + bracket))
  {
  }

  lemma {:induction false} ItemsAreLines(docs: seq<Doc>, k: nat, indent: Bytes, newline: Bytes, close: Bytes)
    requires k < |docs|
    ensures ItemsText(UniformItems(docs[k..], newline + indent, newline + close)) ==
            newline + ItemLinesFrom(docs, k, indent, newline, close)
    decreases |docs| - k
  {
    hide DocText;
    assert docs[k..][1..] == docs[k + 1..];
    if k + 1 < |docs| {
      ItemsAreLines(docs, k + 1, indent, newline, close);
      RegroupItem(newline, indent, DocText(docs[k]), [COMMA], ItemLinesFrom(docs, k + 1, indent, newline, close));
    } else {
      RegroupLastItem(newline, indent, DocText(docs[k]), close, [CLOSE_ARRAY]);
    }
  }

  lemma {:induction false} ItemLinesSplit(docs: seq<Doc>, k: nat, indent: Bytes, newline: Bytes, close: Bytes)
    requires k < |docs|
    ensures ItemLines(docs, |docs|, indent, newline) + (close + [CLOSE_ARRAY]) ==
            ItemLines(docs, k, indent, newline) + ItemLinesFrom(docs, k, indent, newline, close)
    decreases |docs| - k
  {
    hide ItemLine;
    var line := ItemLine(docs[k], k + 1 == |docs|, indent, newline);
    if k + 1 < |docs| {
      ItemLinesSplit(docs, k + 1, indent, newline, close);
      AppendAssociates(ItemLines(docs, k, indent, newline), line, ItemLinesFrom(docs, k + 1, indent, newline, close));
    } else {
      AppendAssociates(ItemLines(docs, k, indent, newline), line, close + [CLOSE_ARRAY]);
    }
  }

  /** An array printed line by line is the text of its layout. */
  lemma ArrayText(docs: seq<Doc>, indent: Bytes, newline: Bytes, close: Bytes)
    ensures DocText(DArray(UniformItems(docs, newline + indent, newline + close))) ==
            if docs == [] then [OPEN_ARRAY, CLOSE_ARRAY]
            else [OPEN_ARRAY] + newline + ItemLines(docs, |docs|, indent, newline) + (close + [CLOSE_ARRAY])
  {
    if docs == [] {
      assert UniformItems(docs, newline + indent, newline + close) == NoItems([]);
    } else {
      SeveralItemsText(docs, indent, newline, close);
    }
    hide ItemsText, UniformItems, ItemLines;
  }

  lemma SeveralItemsText(docs: seq<Doc>, indent: Bytes, newline: Bytes, close: Bytes)
    requires docs != []
    ensures ItemsText(UniformItems(docs, newline + indent, newline + close)) ==
            newline + ItemLines(docs, |docs|, indent, newline) + (close + [CLOSE_ARRAY])
  {
    hide ItemsText, UniformItems, ItemLinesFrom, ItemLine;
    assert docs[0..] == docs;
    ItemsAreLines(docs, 0, indent, newline, close);
    ItemLinesSplit(docs, 0, indent, newline, close);
    assert ItemLines(docs, 0, indent, newline) == [];
    assert [] + ItemLinesFrom(docs, 0, indent, newline, close) == ItemLinesFrom(docs, 0, indent, newline, close);
  }

  // ---- Printing ----

  method PutName(output: OutputStream, indent: Bytes, name: string, gap: Bytes)
    requires !output.hex && output.width == 0
    modifies output
    ensures !output.hex && output.width == 0
    ensures output.text == old(output.text) + (indent + ([QUOTE] + Ascii(name) + [QUOTE]) + [COLON] + gap)
  {
    hide Ascii;
    output.PutText(indent);
    output.PutText([QUOTE] + Ascii(name) + [QUOTE]);
    output.PutText([COLON]);
    output.PutText(gap);
  }

  /** A number, a boolean, a string or null. */
  method PutAtom(output: OutputStream, doc: Doc)
    requires !doc.DArray? && !doc.DObject?
    requires !output.hex && output.width == 0
    modifies output
    ensures !output.hex && output.width == 0
    ensures output.text == old(output.text) + DocText(doc)
  {
    match doc
    case DNull => output.PutText(NULL);
    case DBool(b) => output.PutText(if b then TRUE else FALSE);
    case DNumber(n) => output.PutUnsigned(n);
    case DString(bytes) => PutQuoted(output, bytes);
  }

  method PutQuoted(output: OutputStream, bytes: Bytes)
    requires !output.hex && output.width == 0
    modifies output
    ensures !output.hex && output.width == 0
    ensures output.text == old(output.text) + Quoted(bytes)
  {
    output.PutText([QUOTE]);
    var escaped := EscapeJson(bytes);
    output.PutText(escaped);
    output.PutText([QUOTE]);
  }

  method EndLine(output: OutputStream, last: bool, newline: Bytes)
    requires !output.hex && output.width == 0
    modifies output
    ensures !output.hex && output.width == 0
    ensures output.text == old(output.text) + ((if last then [] else [COMMA]) + newline)
  {
    if !last {
      output.PutText([COMMA]);
    }
    output.PutText(newline);
  }

  lemma LineDone(base: Bytes, fields: Fields, k: nat, indent: Bytes, gap: Bytes, newline: Bytes)
    requires k < |fields|
    ensures ((base + Lines(fields, k, indent, gap, newline))
             + (indent + ([QUOTE] + Ascii(fields[k].0) + [QUOTE]) + [COLON] + gap) + DocText(fields[k].1))
            + ((if k + 1 == |fields| then [] else [COMMA]) + newline)
            == base + Lines(fields, k + 1, indent, gap, newline)
  {
    hide Ascii, DocText;
    LineJoin(base + Lines(fields, k, indent, gap, newline), indent + ([QUOTE] + Ascii(fields[k].0) + [QUOTE]) + [COLON] + gap, DocText(fields[k].1),
             if k + 1 == |fields| then [] else [COMMA], newline);
    AppendAssociates(base, Lines(fields, k, indent, gap, newline), Line(fields[k], k + 1 == |fields|, indent, gap, newline));
  }

  lemma LineJoin(a: Bytes, b: Bytes, c: Bytes, d: Bytes, e: Bytes)
    ensures ((a + b) + c) + (d + e) == a + (b + c + d + e)
  {
  }

  /** Prints line `k` of the fields. */
  method PutField(output: OutputStream, field: (string, Doc), last: bool, indent: Bytes, gap: Bytes, newline: Bytes,
                  ghost base: Bytes, ghost fields: Fields, ghost k: nat)
    requires k < |fields| && fields[k] == field && last == (k + 1 == |fields|)
    requires !field.1.DArray? && !field.1.DObject?
    requires !output.hex && output.width == 0
    requires output.text == base + Lines(fields, k, indent, gap, newline)
    modifies output
    ensures !output.hex && output.width == 0
    ensures output.text == base + Lines(fields, k + 1, indent, gap, newline)
  {
    hide Ascii, DocText, Lines;
    PutName(output, indent, field.0, gap);
    PutAtom(output, field.1);
    EndLine(output, last, newline);
    LineDone(base, fields, k, indent, gap, newline);
  }

  lemma CacheNamesPlain(c: CacheInfo)
    ensures PlainNames(CacheFields(c))
  {
  }

  lemma FeatureNamesPlain(f: FeatureSet)
    ensures PlainNames(FeatureFields(f))
  {
  }

  lemma ProbeNamesPlain(data: ProbeData, style: Style)
    ensures PlainNames(ProbeFields(data, style))
  {
    hide Uniform, UniformItems, FeatureFields, CacheDocs, Ascii;
  }

  lemma NoLines(base: Bytes, fields: Fields, indent: Bytes, gap: Bytes, newline: Bytes)
    ensures base + Lines(fields, 0, indent, gap, newline) == base
  {
  }

  /** A cache is always printed on one line. */
  method PutCache(output: OutputStream, c: CacheInfo)
    requires !output.hex && output.width == 0
    modifies output
    ensures !output.hex && output.width == 0
    ensures output.text == old(output.text) + DocText(CacheDoc(c))
  {
    hide Lines, DocText, Uniform, Ascii;
    ghost var fields, base := CacheFields(c), output.text + [OPEN_OBJECT];
    output.PutText([OPEN_OBJECT]);
    NoLines(base, fields, [], [], []);
    PutField(output, ("level", DNumber(c.level)), false, [], [], [], base, fields, 0);
    PutField(output, ("kind", DString(Ascii(KindName(c.kind)))), false, [], [], [], base, fields, 1);
    PutField(output, ("size_bytes", DNumber(c.sizeBytes)), false, [], [], [], base, fields, 2);
    PutField(output, ("line_size_bytes", DNumber(c.lineSizeBytes)), false, [], [], [], base, fields, 3);
    PutField(output, ("sets", DNumber(c.sets)), false, [], [], [], base, fields, 4);
    PutField(output, ("ways", DNumber(c.ways)), false, [], [], [], base, fields, 5);
    PutField(output, ("partitions", DNumber(c.partitions)), true, [], [], [], base, fields, 6);
    output.PutText([CLOSE_OBJECT]);
    CacheText(c);
  }

  lemma CacheText(c: CacheInfo)
    ensures DocText(CacheDoc(c)) == [OPEN_OBJECT] + Lines(CacheFields(c), 7, [], [], []) + [CLOSE_OBJECT]
  {
    hide Lines, DocText, Uniform, Ascii;
    CacheNamesPlain(c);
    hide PlainNames;
    ObjectText(CacheFields(c), [], [], [], []);
    var none: Bytes := [];
    assert none + none == none && [OPEN_OBJECT] + none == [OPEN_OBJECT] && none + [CLOSE_OBJECT] == [CLOSE_OBJECT];
  }

  /** The first six feature lines: vector extensions. */
  method PutVectorFeatures(output: OutputStream, f: FeatureSet, style: Style, ghost base: Bytes)
    requires !output.hex && output.width == 0
    requires output.text == base + Lines(FeatureFields(f), 0, style.two, style.gap, style.newline)
    modifies output
    ensures !output.hex && output.width == 0
    ensures output.text == base + Lines(FeatureFields(f), 6, style.two, style.gap, style.newline)
  {
    hide Lines, DocText, Ascii;
    var newline, two, gap := style.newline, style.two, style.gap;
    ghost var fields := FeatureFields(f);
    PutField(output, ("sse2", DBool(f.sse2)), false, two, gap, newline, base, fields, 0);
    PutField(output, ("sse41", DBool(f.sse41)), false, two, gap, newline, base, fields, 1);
    PutField(output, ("sse42", DBool(f.sse42)), false, two, gap, newline, base, fields, 2);
    PutField(output, ("avx_hardware", DBool(f.avxHardware)), false, two, gap, newline, base, fields, 3);
    PutField(output, ("avx2_hardware", DBool(f.avx2Hardware)), false, two, gap, newline, base, fields, 4);
    PutField(output, ("avx_os_enabled", DBool(f.avxOsEnabled)), false, two, gap, newline, base, fields, 5);
  }

  /** The remaining feature lines. */
  method PutOtherFeatures(output: OutputStream, f: FeatureSet, style: Style, ghost base: Bytes)
    requires !output.hex && output.width == 0
    requires output.text == base + Lines(FeatureFields(f), 6, style.two, style.gap, style.newline)
    modifies output
    ensures !output.hex && output.width == 0
    ensures output.text == base + Lines(FeatureFields(f), 10, style.two, style.gap, style.newline)
  {
    hide Lines, DocText, Ascii;
    var newline, two, gap := style.newline, style.two, style.gap;
    ghost var fields := FeatureFields(f);
    PutField(output, ("aes", DBool(f.aes)), false, two, gap, newline, base, fields, 6);
    PutField(output, ("vmx", DBool(f.vmx)), false, two, gap, newline, base, fields, 7);
    PutField(output, ("svm", DBool(f.svm)), false, two, gap, newline, base, fields, 8);
    PutField(output, ("virtualization_hardware", DBool(f.vmx || f.svm)), true, two, gap, newline, base, fields, 9);
  }

  method PutFeatures(output: OutputStream, f: FeatureSet, style: Style)
    requires !output.hex && output.width == 0
    modifies output
    ensures !output.hex && output.width == 0
    ensures output.text == old(output.text) + DocText(DObject(Uniform(FeatureFields(f), style.newline + style.two, style.gap, style.newline + style.one)))
  {
    hide Lines, DocText, Uniform, Ascii;
    ghost var fields, base := FeatureFields(f), output.text + ([OPEN_OBJECT] + style.newline);
    output.PutText([OPEN_OBJECT] + style.newline);
    NoLines(base, fields, style.two, style.gap, style.newline);
    PutVectorFeatures(output, f, style, base);
    PutOtherFeatures(output, f, style, base);
    output.PutText(style.one + [CLOSE_OBJECT]);
    FeaturesText(f, style);
    AppendFour(old(output.text), [OPEN_OBJECT] + style.newline, Lines(fields, 10, style.two, style.gap, style.newline), style.one + [CLOSE_OBJECT]);
  }

  lemma AppendFour(a: Bytes, b: Bytes, c: Bytes, d: Bytes)
    ensures ((a + b) + c) + d == a + (b + c + d)
  {
  }

  lemma FeaturesText(f: FeatureSet, style: Style)
    ensures DocText(DObject(Uniform(FeatureFields(f), style.newline + style.two, style.gap, style.newline + style.one))) ==
            [OPEN_OBJECT] + style.newline + Lines(FeatureFields(f), 10, style.two, style.gap, style.newline) + (style.one + [CLOSE_OBJECT])
  {
    hide Lines, DocText, Uniform, Ascii;
    FeatureNamesPlain(f);
    hide PlainNames;
    ObjectText(FeatureFields(f), style.two, style.gap, style.newline, style.one);
  }

  lemma ItemDone(base: Bytes, docs: seq<Doc>, k: nat, indent: Bytes, newline: Bytes)
    requires k < |docs|
    ensures ((base + ItemLines(docs, k, indent, newline)) + indent + DocText(docs[k])) + ((if k + 1 == |docs| then [] else [COMMA]) + newline)
            == base + ItemLines(docs, k + 1, indent, newline)
  {
    hide DocText;
    LineJoin(base + ItemLines(docs, k, indent, newline), indent, DocText(docs[k]), if k + 1 == |docs| then [] else [COMMA], newline);
    AppendAssociates(base, ItemLines(docs, k, indent, newline), ItemLine(docs[k], k + 1 == |docs|, indent, newline));
  }

  method PutCaches(output: OutputStream, caches: seq<CacheInfo>, style: Style)
    requires !output.hex && output.width == 0
    modifies output
    ensures !output.hex && output.width == 0
    ensures output.text == old(output.text)
                           + DocText(DArray(UniformItems(CacheDocs(caches), style.newline + style.two, style.newline + style.one)))
  {
    hide DocText, UniformItems, CacheDoc, ItemLines;
    ghost var docs, base := CacheDocs(caches), output.text;
    ArrayText(docs, style.two, style.newline, style.one);
    NoItemLines(docs, style.two, style.newline);
    ghost var lines := ItemLines(docs, |caches|, style.two, style.newline);
    output.PutText([OPEN_ARRAY]);
    if caches != [] {
      output.PutText(style.newline);
    }
    assert output.text == (base + [OPEN_ARRAY]) + if caches == [] then [] else style.newline;
    PutCacheLines(output, caches, style);
    if caches != [] {
      output.PutText(style.one);
    }
    output.PutText([CLOSE_ARRAY]);
    ArrayFrame(base, if caches == [] then [] else style.newline, lines, if caches == [] then [] else style.one);
  }

  lemma ArrayFrame(base: Bytes, open: Bytes, lines: Bytes, close: Bytes)
    ensures ((((base + [OPEN_ARRAY]) + open) + lines) + close) + [CLOSE_ARRAY] ==
            base + ([OPEN_ARRAY] + open + lines + (close + [CLOSE_ARRAY]))
  {
  }

  lemma NoItemLines(docs: seq<Doc>, indent: Bytes, newline: Bytes)
    ensures ItemLines(docs, 0, indent, newline) == []
  {
  }

  method PutCacheLines(output: OutputStream, caches: seq<CacheInfo>, style: Style)
    requires !output.hex && output.width == 0
    modifies output
    ensures !output.hex && output.width == 0
    ensures output.text == old(output.text) + ItemLines(CacheDocs(caches), |caches|, style.two, style.newline)
  {
    hide DocText, CacheDoc, ItemLines;
    ghost var docs, base := CacheDocs(caches), output.text;
    NoItemLines(docs, style.two, style.newline);
    for index: nat := 0 to |caches|
      invariant !output.hex && output.width == 0
      invariant output.text == base + ItemLines(docs, index, style.two, style.newline)
    {
      output.PutText(style.two);
      PutCache(output, caches[index]);
      EndLine(output, !(index + 1 < |caches|), style.newline);
      ItemDone(base, docs, index, style.two, style.newline);
    }
  }

  /** The scalar members: versions, names and leaf numbers. */
  method PutIdentity(output: OutputStream, data: ProbeData, style: Style, ghost base: Bytes)
    requires !output.hex && output.width == 0
    requires output.text == base + Lines(ProbeFields(data, style), 0, style.one, style.gap, style.newline)
    modifies output
    ensures !output.hex && output.width == 0
    ensures output.text == base + Lines(ProbeFields(data, style), 7, style.one, style.gap, style.newline)
  {
    hide Lines, DocText, Uniform, UniformItems, Ascii, FeatureFields, CacheDocs;
    var newline, one, gap := style.newline, style.one, style.gap;
    ghost var fields := ProbeFields(data, style);
    PutField(output, ("schema_version", DNumber(SCHEMA_VERSION)), false, one, gap, newline, base, fields, 0);
    PutField(output, ("probe_version", DString(Ascii(PROBE_VERSION))), false, one, gap, newline, base, fields, 1);
    PutField(output, ("architecture", DString(data.architecture)), false, one, gap, newline, base, fields, 2);
    PutField(output, ("vendor_id", DString(data.vendorId)), false, one, gap, newline, base, fields, 3);
    PutField(output, ("brand_string", if data.brandString.Some? then DString(data.brandString.value) else DNull), false, one, gap, newline, base, fields, 4);
    PutField(output, ("max_basic_leaf", DNumber(data.maxBasicLeaf)), false, one, gap, newline, base, fields, 5);
    PutField(output, ("max_extended_leaf", DNumber(data.maxExtendedLeaf)), false, one, gap, newline, base, fields, 6);
  }

  /** The nested members: features and caches. */
  method PutSections(output: OutputStream, data: ProbeData, style: Style, ghost base: Bytes)
    requires !output.hex && output.width == 0
    requires output.text == base + Lines(ProbeFields(data, style), 7, style.one, style.gap, style.newline)
    modifies output
    ensures !output.hex && output.width == 0
    ensures output.text == base + Lines(ProbeFields(data, style), 9, style.one, style.gap, style.newline)
  {
    hide Lines, DocText, Uniform, UniformItems, Ascii, FeatureFields, CacheDocs;
    ghost var fields := ProbeFields(data, style);
    PutName(output, style.one, "features", style.gap);
    PutFeatures(output, data.features, style);
    EndLine(output, false, style.newline);
    LineDone(base, fields, 7, style.one, style.gap, style.newline);
    PutName(output, style.one, "caches", style.gap);
    PutCaches(output, data.caches, style);
    EndLine(output, true, style.newline);
    LineDone(base, fields, 8, style.one, style.gap, style.newline);
  }

  /** The output is the text of the layout of the data, followed by a line end when pretty. */
  method RenderJson(data: ProbeData, pretty: bool) returns (r: Bytes)
    ensures r == DocText(ProbeDoc(data, StyleOf(pretty))) + StyleOf(pretty).newline
    ensures Parse(r).Some? && FromJson(Parse(r).value) == Some(data)
    ensures |r| >= 2 && r[0] == OPEN_OBJECT
    ensures if pretty then r[1] == 10 && r[|r| - 1] == 10 else r[1] == QUOTE && r[|r| - 1] == CLOSE_OBJECT
  {
    hide Lines, DocText, Uniform, ProbeFields, StyleOf, Parse, FromJson, ProbeDoc;
    RenderedDataReadsBack(data, pretty);
    TextShape(data, pretty);
    var style := StyleOf(pretty);
    var output := new OutputStream();
    output.PutText([OPEN_OBJECT] + style.newline);
    NoLines(output.text, ProbeFields(data, style), style.one, style.gap, style.newline);
    ghost var base := output.text;
    assert base == [OPEN_OBJECT] + style.newline;
    PutIdentity(output, data, style, base);
    PutSections(output, data, style, base);
    output.PutText([CLOSE_OBJECT]);
    output.PutText(style.newline);
    ProbeText(data, style);
    r := output.text;
  }

  lemma ProbeText(data: ProbeData, style: Style)
    ensures DocText(ProbeDoc(data, style)) ==
            [OPEN_OBJECT] + style.newline + Lines(ProbeFields(data, style), 9, style.one, style.gap, style.newline) + [CLOSE_OBJECT]
  {
    hide Lines, DocText, Uniform, UniformItems, Ascii, FeatureFields, CacheDocs;
    ProbeNamesPlain(data, style);
    hide PlainNames;
    ObjectText(ProbeFields(data, style), style.one, style.gap, style.newline, []);
    var none: Bytes := [];
    assert style.newline + none == style.newline && none + [CLOSE_OBJECT] == [CLOSE_OBJECT];
  }

  // ---- Reading the output back ----

  lemma {:induction false} UniformLaidOut(fields: Fields, lead: Bytes, gap: Bytes, end: Bytes)
    requires AllSpace(lead) && AllSpace(gap) && AllSpace(end)
    requires forall i :: 0 <= i < |fields| ==> LaidOut(fields[i].1)
    ensures MembersLaidOut(Uniform(fields, lead, gap, end))
  {
    hide Ascii, LaidOut;
    if fields != [] {
      assert forall i :: 0 <= i < |fields[1..]| ==> fields[1..][i] == fields[i + 1];
      UniformLaidOut(fields[1..], lead, gap, end);
    }
  }

  lemma {:induction false} UniformItemsLaidOut(docs: seq<Doc>, lead: Bytes, end: Bytes)
    requires AllSpace(lead) && AllSpace(end)
    requires forall i :: 0 <= i < |docs| ==> LaidOut(docs[i])
    ensures ItemsLaidOut(UniformItems(docs, lead, end))
  {
    hide LaidOut;
    if docs != [] {
      assert forall i :: 0 <= i < |docs[1..]| ==> docs[1..][i] == docs[i + 1];
      UniformItemsLaidOut(docs[1..], lead, end);
    }
  }

  lemma CacheLaidOut(c: CacheInfo)
    ensures LaidOut(CacheDoc(c))
  {
    hide Uniform, Ascii;
    UniformLaidOut(CacheFields(c), [], [], []);
  }

  lemma StyleIsSpace(pretty: bool)
    ensures var s := StyleOf(pretty);
            AllSpace(s.newline) && AllSpace(s.gap) && AllSpace(s.newline + s.one) && AllSpace(s.newline + s.two)
  {
  }

  lemma ProbeLaidOut(data: ProbeData, pretty: bool)
    ensures LaidOut(ProbeDoc(data, StyleOf(pretty)))
  {
    hide Uniform, UniformItems, Ascii, StyleOf, CacheDoc, AllSpace;
    var style := StyleOf(pretty);
    StyleIsSpace(pretty);
    UniformLaidOut(FeatureFields(data.features), style.newline + style.two, style.gap, style.newline + style.one);
    forall i | 0 <= i < |data.caches|
      ensures LaidOut(CacheDocs(data.caches)[i])
    {
      CacheLaidOut(data.caches[i]);
    }
    UniformItemsLaidOut(CacheDocs(data.caches), style.newline + style.two, style.newline + style.one);
    hide FeatureFields, CacheDocs;
    UniformLaidOut(ProbeFields(data, style), style.newline + style.one, style.gap, style.newline);
  }

  /** The value of an object printed from these fields, whatever its layout. */
  function FieldValues(fields: Fields): seq<(Bytes, Value)> {
    seq(|fields|, i requires 0 <= i < |fields| => (Ascii(fields[i].0), ValueOf(fields[i].1)))
  }

  lemma {:induction false} UniformValues(fields: Fields, lead: Bytes, gap: Bytes, end: Bytes)
    ensures MemberValues(Uniform(fields, lead, gap, end)) == FieldValues(fields)
  {
    hide Ascii, ValueOf;
    if fields != [] {
      UniformValues(fields[1..], lead, gap, end);
      assert FieldValues(fields) == [(Ascii(fields[0].0), ValueOf(fields[0].1))] + FieldValues(fields[1..]);
    }
  }

  lemma {:induction false} UniformItemValues(docs: seq<Doc>, lead: Bytes, end: Bytes)
    ensures ItemValues(UniformItems(docs, lead, end)) == seq(|docs|, i requires 0 <= i < |docs| => ValueOf(docs[i]))
  {
    hide ValueOf;
    if docs != [] {
      UniformItemValues(docs[1..], lead, end);
    }
  }

  // ---- The JSON value of the data ----

  function JsonNat(n: nat): Value {
    JNumber(Number.Decimal(false, n, [], 0))
  }

  function JsonCache(c: CacheInfo): Value {
    JObject([
      (Ascii("level"), JsonNat(c.level)),
      (Ascii("kind"), JString(Ascii(KindName(c.kind)))),
      (Ascii("size_bytes"), JsonNat(c.sizeBytes)),
      (Ascii("line_size_bytes"), JsonNat(c.lineSizeBytes)),
      (Ascii("sets"), JsonNat(c.sets)),
      (Ascii("ways"), JsonNat(c.ways)),
      (Ascii("partitions"), JsonNat(c.partitions))])
  }

  function JsonFeatures(f: FeatureSet): Value {
    JObject([
      (Ascii("sse2"), JBool(f.sse2)),
      (Ascii("sse41"), JBool(f.sse41)),
      (Ascii("sse42"), JBool(f.sse42)),
      (Ascii("avx_hardware"), JBool(f.avxHardware)),
      (Ascii("avx2_hardware"), JBool(f.avx2Hardware)),
      (Ascii("avx_os_enabled"), JBool(f.avxOsEnabled)),
      (Ascii("aes"), JBool(f.aes)),
      (Ascii("vmx"), JBool(f.vmx)),
      (Ascii("svm"), JBool(f.svm)),
      (Ascii("virtualization_hardware"), JBool(f.vmx || f.svm))])
  }

  function JsonCaches(caches: seq<CacheInfo>): Value {
    JArray(seq(|caches|, i requires 0 <= i < |caches| => JsonCache(caches[i])))
  }

  function JsonProbe(data: ProbeData): Value {
    JObject([
      (Ascii("schema_version"), JsonNat(SCHEMA_VERSION)),
      (Ascii("probe_version"), JString(Ascii(PROBE_VERSION))),
      (Ascii("architecture"), JString(data.architecture)),
      (Ascii("vendor_id"), JString(data.vendorId)),
      (Ascii("brand_string"), if data.brandString.Some? then JString(data.brandString.value) else JNull),
      (Ascii("max_basic_leaf"), JsonNat(data.maxBasicLeaf)),
      (Ascii("max_extended_leaf"), JsonNat(data.maxExtendedLeaf)),
      (Ascii("features"), JsonFeatures(data.features)),
      (Ascii("caches"), JsonCaches(data.caches))])
  }

  lemma CacheValue(c: CacheInfo)
    ensures ValueOf(CacheDoc(c)) == JsonCache(c)
  {
    hide Uniform, Ascii;
    UniformValues(CacheFields(c), [], [], []);
  }

  lemma FeaturesValue(f: FeatureSet, lead: Bytes, gap: Bytes, end: Bytes)
    ensures ValueOf(DObject(Uniform(FeatureFields(f), lead, gap, end))) == JsonFeatures(f)
  {
    hide Uniform, FeatureFields;
    UniformValues(FeatureFields(f), lead, gap, end);
    FeatureValues(f);
    hide JsonFeatures, FieldValues;
  }

  lemma FeatureValues(f: FeatureSet)
    ensures JObject(FieldValues(FeatureFields(f))) == JsonFeatures(f)
  {
    hide Ascii;
  }

  lemma CachesValue(caches: seq<CacheInfo>, lead: Bytes, end: Bytes)
    ensures ValueOf(DArray(UniformItems(CacheDocs(caches), lead, end))) == JsonCaches(caches)
  {
    hide UniformItems, CacheDoc, JsonCache;
    UniformItemValues(CacheDocs(caches), lead, end);
    forall i | 0 <= i < |caches|
      ensures ValueOf(CacheDocs(caches)[i]) == JsonCache(caches[i])
    {
      CacheValue(caches[i]);
    }
  }

  lemma ProbeValue(data: ProbeData, style: Style)
    ensures ValueOf(ProbeDoc(data, style)) == JsonProbe(data)
  {
    hide Uniform, UniformItems, Ascii, FeatureFields, CacheDocs, JsonFeatures, JsonCaches;
    FeaturesValue(data.features, style.newline + style.two, style.gap, style.newline + style.one);
    CachesValue(data.caches, style.newline + style.two, style.newline + style.one);
    UniformValues(ProbeFields(data, style), style.newline + style.one, style.gap, style.newline);
  }

  /** The printer is inverted by the reader: for every probe data, compact or pretty, what
      `RenderJson` writes reads as one JSON value, the same for both formats. */
  lemma RenderedJsonReadsBack(data: ProbeData, pretty: bool)
    ensures Parse(DocText(ProbeDoc(data, StyleOf(pretty))) + StyleOf(pretty).newline) == Some(JsonProbe(data))
  {
    hide ProbeDoc, DocText, StyleOf, JsonProbe, Parse, LaidOut, AllSpace;
    var d, newline := ProbeDoc(data, StyleOf(pretty)), StyleOf(pretty).newline;
    ProbeLaidOut(data, pretty);
    StyleIsSpace(pretty);
    ProbeValue(data, StyleOf(pretty));
    NoSpaceIsSpace();
    DocumentParses(d, [], newline);
    var none: Bytes := [];
    assert none + DocText(d) + newline == DocText(d) + newline;
  }

  lemma NoSpaceIsSpace()
    ensures AllSpace([])
  {
  }

  lemma AsciiInjective(a: string, b: string)
    requires PlainName(a) && PlainName(b) && Ascii(a) == Ascii(b)
    ensures a == b
  {
    forall i | 0 <= i < |a|
      ensures a[i] == b[i]
    {
      assert Ascii(a)[i] == Ascii(b)[i];
    }
  }

  lemma KindNamesDiffer(a: CacheKind, b: CacheKind)
    requires Ascii(KindName(a)) == Ascii(KindName(b))
    ensures a == b
  {
    AsciiInjective(KindName(a), KindName(b));
  }

  lemma SameCache(a: CacheInfo, b: CacheInfo)
    requires JsonCache(a) == JsonCache(b)
    ensures a == b
  {
    hide Ascii, KindName;
    var x, y := JsonCache(a).members, JsonCache(b).members;
    assert forall i :: 0 <= i < 7 ==> x[i] == y[i];
    assert x[1] == y[1] && x[0] == y[0] && x[2] == y[2] && x[3] == y[3] && x[4] == y[4] && x[5] == y[5] && x[6] == y[6];
    KindNamesDiffer(a.kind, b.kind);
  }

  lemma SameFeatures(a: FeatureSet, b: FeatureSet)
    requires JsonFeatures(a) == JsonFeatures(b)
    ensures a == b
  {
    hide Ascii;
    var x, y := JsonFeatures(a).members, JsonFeatures(b).members;
    assert x[0] == y[0] && x[1] == y[1] && x[2] == y[2] && x[3] == y[3] && x[4] == y[4];
    assert x[5] == y[5] && x[6] == y[6] && x[7] == y[7] && x[8] == y[8];
  }

  lemma SameCaches(a: seq<CacheInfo>, b: seq<CacheInfo>)
    requires JsonCaches(a) == JsonCaches(b)
    ensures a == b
  {
    hide JsonCache;
    var x, y := JsonCaches(a).items, JsonCaches(b).items;
    assert |x| == |y|;
    forall i | 0 <= i < |a|
      ensures a[i] == b[i]
    {
      assert x[i] == y[i];
      SameCache(a[i], b[i]);
    }
  }

  /** The JSON value determines the data: printing loses nothing, not a byte of any string. */
  lemma JsonProbeInjective(a: ProbeData, b: ProbeData)
    requires JsonProbe(a) == JsonProbe(b)
    ensures a == b
  {
    hide Ascii, JsonFeatures, JsonCaches;
    var x, y := JsonProbe(a).members, JsonProbe(b).members;
    assert x[2] == y[2] && x[3] == y[3] && x[4] == y[4] && x[5] == y[5] && x[6] == y[6] && x[7] == y[7] && x[8] == y[8];
    SameFeatures(a.features, b.features);
    SameCaches(a.caches, b.caches);
  }

  // ---- Reading the data back ----

  lemma AsciiReads(s: string, name: string)
    requires PlainName(s)
    ensures IsText(Ascii(s), name) <==> s == name
  {
    if IsText(Ascii(s), name) {
      assert forall i :: 0 <= i < |s| ==> s[i] == name[i];
    }
  }

  ghost predicate DistinctNames(fields: Fields) {
    forall i, j :: 0 <= i < j < |fields| ==> fields[i].0 != fields[j].0
  }

  lemma FieldLookup(fields: Fields, k: nat, name: string)
    requires PlainNames(fields) && DistinctNames(fields)
    requires k < |fields| && fields[k].0 == name
    ensures Lookup(FieldValues(fields), name) == Some(ValueOf(fields[k].1))
  {
    hide Ascii, ValueOf, PlainName;
    forall j | 0 <= j <= k
      ensures IsText(FieldValues(fields)[j].0, name) <==> j == k
    {
      AsciiReads(fields[j].0, name);
    }
    hide IsText;
    LookupFinds(FieldValues(fields), k, name);
  }

  lemma CacheNamesDiffer(c: CacheInfo)
    ensures DistinctNames(CacheFields(c))
  {
    assert "kind"[0] != "sets"[0] && "kind"[0] != "ways"[0] && "sets"[0] != "ways"[0] && "size_bytes"[0] != "partitions"[0];
  }

  lemma FeatureNamesDiffer(f: FeatureSet)
    ensures DistinctNames(FeatureFields(f))
  {
    assert "sse41"[4] != "sse42"[4] && "aes"[0] != "vmx"[0] && "aes"[0] != "svm"[0] && "vmx"[0] != "svm"[0];
  }

  lemma ProbeNamesDiffer(data: ProbeData, style: Style)
    ensures DistinctNames(ProbeFields(data, style))
  {
    hide Uniform, UniformItems, FeatureFields, CacheDocs;
    assert "architecture"[0] != "brand_string"[0] && "schema_version"[0] != "max_basic_leaf"[0];
  }

  lemma CacheReads(c: CacheInfo)
    ensures ReadCache(ValueOf(CacheDoc(c))) == Some(c)
  {
    var fields := CacheFields(c);
    UniformValues(fields, [], [], []);
    CacheNamesPlain(c);
    CacheNamesDiffer(c);
    KindReads(c.kind);
    hide Uniform, FieldValues, PlainNames, DistinctNames, Lookup, KindName, IsText;
    FieldLookup(fields, 0, "level");
    FieldLookup(fields, 1, "kind");
    FieldLookup(fields, 2, "size_bytes");
    FieldLookup(fields, 3, "line_size_bytes");
    FieldLookup(fields, 4, "sets");
    FieldLookup(fields, 5, "ways");
    FieldLookup(fields, 6, "partitions");
  }

  lemma KindReads(kind: CacheKind)
    ensures var text := Ascii(KindName(kind));
            && (IsText(text, "data") <==> kind == Data)
            && (IsText(text, "instruction") <==> kind == Instruction)
            && (IsText(text, "unified") <==> kind == Unified)
  {
    var name := KindName(kind);
    assert PlainName(name);
    AsciiReads(name, "data");
    AsciiReads(name, "instruction");
    AsciiReads(name, "unified");
  }

  lemma {:induction false} CachesRead(caches: seq<CacheInfo>, values: seq<Value>)
    requires |values| == |caches| && forall i :: 0 <= i < |caches| ==> ReadCache(values[i]) == Some(caches[i])
    ensures ReadCaches(values) == Some(caches)
  {
    hide ReadCache;
    if caches != [] {
      CachesRead(caches[1..], values[1..]);
      assert caches == [caches[0]] + caches[1..];
    }
  }

  lemma BoolReads(fields: Fields, k: nat, name: string, b: bool)
    requires PlainNames(fields) && DistinctNames(fields)
    requires k < |fields| && fields[k] == (name, DBool(b))
    ensures BoolAt(FieldValues(fields), name) == Some(b)
  {
    hide PlainNames, DistinctNames, FieldValues, Lookup;
    FieldLookup(fields, k, name);
  }

  lemma VectorFeaturesRead(f: FeatureSet)
    ensures var m := FieldValues(FeatureFields(f));
            && BoolAt(m, "sse2") == Some(f.sse2) && BoolAt(m, "sse41") == Some(f.sse41) && BoolAt(m, "sse42") == Some(f.sse42)
            && BoolAt(m, "avx_hardware") == Some(f.avxHardware) && BoolAt(m, "avx2_hardware") == Some(f.avx2Hardware)
  {
    hide PlainNames, DistinctNames, FieldValues, BoolAt;
    FeatureNamesPlain(f);
    FeatureNamesDiffer(f);
    var fields := FeatureFields(f);
    BoolReads(fields, 0, "sse2", f.sse2);
    BoolReads(fields, 1, "sse41", f.sse41);
    BoolReads(fields, 2, "sse42", f.sse42);
    BoolReads(fields, 3, "avx_hardware", f.avxHardware);
    BoolReads(fields, 4, "avx2_hardware", f.avx2Hardware);
  }

  lemma OtherFeaturesRead(f: FeatureSet)
    ensures var m := FieldValues(FeatureFields(f));
            && BoolAt(m, "avx_os_enabled") == Some(f.avxOsEnabled) && BoolAt(m, "aes") == Some(f.aes)
            && BoolAt(m, "vmx") == Some(f.vmx) && BoolAt(m, "svm") == Some(f.svm)
  {
    hide PlainNames, DistinctNames, FieldValues, BoolAt;
    FeatureNamesPlain(f);
    FeatureNamesDiffer(f);
    var fields := FeatureFields(f);
    BoolReads(fields, 5, "avx_os_enabled", f.avxOsEnabled);
    BoolReads(fields, 6, "aes", f.aes);
    BoolReads(fields, 7, "vmx", f.vmx);
    BoolReads(fields, 8, "svm", f.svm);
  }

  lemma FeaturesRead(f: FeatureSet, lead: Bytes, gap: Bytes, end: Bytes)
    ensures ReadFeatures(ValueOf(DObject(Uniform(FeatureFields(f), lead, gap, end)))) == Some(f)
  {
    hide Uniform, FieldValues, FeatureFields, BoolAt;
    UniformValues(FeatureFields(f), lead, gap, end);
    VectorFeaturesRead(f);
    OtherFeaturesRead(f);
  }

  lemma ArrayReads(data: ProbeData, lead: Bytes, end: Bytes)
    ensures var v := ValueOf(DArray(UniformItems(CacheDocs(data.caches), lead, end)));
            v.JArray? && ReadCaches(v.items) == Some(data.caches)
  {
    hide ReadCache, UniformItems;
    var docs := CacheDocs(data.caches);
    UniformItemValues(docs, lead, end);
    var values := ItemValues(UniformItems(docs, lead, end));
    forall i | 0 <= i < |data.caches|
      ensures ReadCache(values[i]) == Some(data.caches[i])
    {
      CacheReads(data.caches[i]);
    }
    CachesRead(data.caches, values);
  }

  lemma ProbeReads(data: ProbeData, style: Style)
    ensures FromJson(ValueOf(ProbeDoc(data, style))) == Some(data)
  {
    var fields := ProbeFields(data, style);
    UniformValues(fields, style.newline + style.one, style.gap, style.newline);
    ProbeNamesPlain(data, style);
    ProbeNamesDiffer(data, style);
    hide Uniform, UniformItems, FieldValues, PlainNames, DistinctNames, Lookup, FeatureFields, CacheDocs, ReadFeatures, ReadCaches;
    FieldLookup(fields, 2, "architecture");
    FieldLookup(fields, 3, "vendor_id");
    FieldLookup(fields, 4, "brand_string");
    FieldLookup(fields, 5, "max_basic_leaf");
    FieldLookup(fields, 6, "max_extended_leaf");
    FieldLookup(fields, 7, "features");
    FieldLookup(fields, 8, "caches");
    FeaturesRead(data.features, style.newline + style.two, style.gap, style.newline + style.one);
    ArrayReads(data, style.newline + style.two, style.newline + style.one);
  }

  /** The printer is inverted by readers that know nothing of it: for every probe data, compact or
      pretty, the printed text is one JSON value, and the data read out of it member by member is the
      printed data. */
  lemma RenderedDataReadsBack(data: ProbeData, pretty: bool)
    ensures var v := Parse(DocText(ProbeDoc(data, StyleOf(pretty))) + StyleOf(pretty).newline);
            v.Some? && FromJson(v.value) == Some(data)
  {
    hide ProbeDoc, DocText, StyleOf, Parse, FromJson, JsonProbe;
    RenderedJsonReadsBack(data, pretty);
    ProbeValue(data, StyleOf(pretty));
    ProbeReads(data, StyleOf(pretty));
  }

  /** The pretty format breaks the line after the first brace and ends in a line break; the compact one
      goes straight on and ends in the brace. */
  lemma TextShape(data: ProbeData, pretty: bool)
    ensures var r := DocText(ProbeDoc(data, StyleOf(pretty))) + StyleOf(pretty).newline;
            && |r| >= 2 && r[0] == OPEN_OBJECT
            && if pretty then r[1] == 10 && r[|r| - 1] == 10 else r[1] == QUOTE && r[|r| - 1] == CLOSE_OBJECT
  {
    var style := StyleOf(pretty);
    var fields := ProbeFields(data, style);
    ProbeNamesPlain(data, style);
    hide ProbeFields, PlainNames, DocText;
    assert |fields| == 9 by { NineFields(data, style); }
    ObjectText(fields, style.one, style.gap, style.newline, []);
    assert style.newline + [] == style.newline;
    FirstLine(fields, style.one, style.gap, style.newline);
    hide Lines, Uniform;
  }

  lemma NineFields(data: ProbeData, style: Style)
    ensures |ProbeFields(data, style)| == 9
  {
  }

  lemma {:induction false} FirstLine(fields: Fields, indent: Bytes, gap: Bytes, newline: Bytes)
    requires fields != [] && (indent == [] || indent[0] == 32)
    ensures var lines := Lines(fields, |fields|, indent, gap, newline);
            lines != [] && lines[0] == if indent == [] then QUOTE else 32
  {
    FirstLines(fields, |fields|, indent, gap, newline);
  }

  lemma {:induction false} FirstLines(fields: Fields, n: nat, indent: Bytes, gap: Bytes, newline: Bytes)
    requires 0 < n <= |fields| && (indent == [] || indent[0] == 32)
    ensures var lines := Lines(fields, n, indent, gap, newline);
            lines != [] && lines[0] == if indent == [] then QUOTE else 32
  {
    hide DocText, Ascii;
    if n == 1 {
      assert Lines(fields, 0, indent, gap, newline) == [];
    } else {
      FirstLines(fields, n - 1, indent, gap, newline);
    }
  }

  /** The members that are not data: both versions, and the virtualisation flag, which says whether
      either vendor's extension is there. */
  lemma RenderedConstants(data: ProbeData, style: Style)
    ensures var v := ValueOf(ProbeDoc(data, style));
            && v.JObject?
            && NatAt(v.members, "schema_version") == Some(1)
            && (exists text :: TextAt(v.members, "probe_version") == Some(text) && IsText(text, "0.1.0"))
            && (exists features :: Lookup(v.members, "features") == Some(JObject(features))
                                   && BoolAt(features, "virtualization_hardware") == Some(data.features.vmx || data.features.svm))
  {
    var fields := ProbeFields(data, style);
    UniformValues(fields, style.newline + style.one, style.gap, style.newline);
    ProbeNamesPlain(data, style);
    ProbeNamesDiffer(data, style);
    VersionReads();
    VirtualizationReads(data.features, style.newline + style.two, style.gap, style.newline + style.one);
    hide Uniform, UniformItems, FieldValues, PlainNames, DistinctNames, Lookup, FeatureFields, CacheDocs, IsText, Ascii;
    FieldLookup(fields, 0, "schema_version");
    FieldLookup(fields, 1, "probe_version");
    FieldLookup(fields, 7, "features");
  }

  lemma VersionReads()
    ensures IsText(Ascii(PROBE_VERSION), "0.1.0")
  {
  }

  lemma VirtualizationReads(f: FeatureSet, lead: Bytes, gap: Bytes, end: Bytes)
    ensures var v := ValueOf(DObject(Uniform(FeatureFields(f), lead, gap, end)));
            v.JObject? && BoolAt(v.members, "virtualization_hardware") == Some(f.vmx || f.svm)
  {
    hide Uniform, FieldValues, PlainNames, DistinctNames, BoolAt;
    var fields := FeatureFields(f);
    UniformValues(fields, lead, gap, end);
    FeatureNamesPlain(f);
    FeatureNamesDiffer(f);
    BoolReads(fields, 9, "virtualization_hardware", f.vmx || f.svm);
  }

  /** Two outputs, in any combination of formats, are equal as JSON only for equal data. */
  lemma RenderingIsInjective(a: ProbeData, b: ProbeData, prettyA: bool, prettyB: bool)
    requires DocText(ProbeDoc(a, StyleOf(prettyA))) + StyleOf(prettyA).newline ==
             DocText(ProbeDoc(b, StyleOf(prettyB))) + StyleOf(prettyB).newline
    ensures a == b
  {
    hide ProbeDoc, DocText, StyleOf, JsonProbe, Parse;
    RenderedJsonReadsBack(a, prettyA);
    RenderedJsonReadsBack(b, prettyB);
    JsonProbeInjective(a, b);
  }
}

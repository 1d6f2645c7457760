/** Laid-out JSON texts: a value together with the whitespace around each of its parts. Whatever the
    layout, the reference reader gives the value back. */
module JsonDocuments {
  import opened Models
  import opened ByteStrings
  import opened Json

  datatype Doc =
    | DNull
    | DBool(b: bool)
    | DNumber(n: nat)
    | DString(bytes: Bytes)
    | DArray(items: Items)
    | DObject(members: Members)

  /** `lead` and `trail` are the whitespace before and after an item. */
  datatype Items = NoItems(pad: Bytes) | Item(lead: Bytes, value: Doc, trail: Bytes, more: Items)

  /** `gap` is the whitespace between the colon and the value. */
  datatype Members = NoMembers(pad: Bytes) | Member(lead: Bytes, key: Bytes, gap: Bytes, value: Doc, trail: Bytes, more: Members)

  function HexByte(n: nat): Byte
    requires n < 16
  {
    if n < 10 then 48 + n else 87 + n
  }

  /** Escapes quotes, backslashes and control bytes; every other byte stands for itself. */
  function EscapeByte(b: Byte): (r: Bytes)
    ensures r != []
  {
    if b == QUOTE then [BACKSLASH, QUOTE]
    else if b == BACKSLASH then [BACKSLASH, BACKSLASH]
    else if b == 8 then [BACKSLASH, 98]
    else if b == 12 then [BACKSLASH, 102]
    else if b == 10 then [BACKSLASH, 110]
    else if b == 13 then [BACKSLASH, 114]
    else if b == 9 then [BACKSLASH, 116]
    else if b < 0x20 then [BACKSLASH, 117, 48, 48, HexByte(b / 16), HexByte(b % 16)]
    else [b]
  }

  function Escape(s: Bytes): Bytes {
    if s == [] then [] else EscapeByte(s[0]) + Escape(s[1..])
  }

  function Quoted(s: Bytes): Bytes {
    [QUOTE] + Escape(s) + [QUOTE]
  }

  function DocText(d: Doc): Bytes {
    match d
    case DNull => NULL
    case DBool(b) => if b then TRUE else FALSE
    case DNumber(n) => ByteStrings.Decimal(n)
    case DString(bytes) => Quoted(bytes)
    case DArray(items) => [OPEN_ARRAY] + ItemsText(items)
    case DObject(members) => [OPEN_OBJECT] + MembersText(members)
  }

  /** The items and the closing bracket. */
  function ItemsText(items: Items): Bytes {
    match items
    case NoItems(pad) => pad + [CLOSE_ARRAY]
    case Item(lead, value, trail, more) =>
      lead + DocText(value) + trail + if more.NoItems? then [CLOSE_ARRAY] else [COMMA] + ItemsText(more)
  }

  /** The members and the closing brace. */
  function MembersText(members: Members): Bytes {
    match members
    case NoMembers(pad) => pad + [CLOSE_OBJECT]
    case Member(lead, key, gap, value, trail, more) =>
      lead + Quoted(key) + [COLON] + gap + DocText(value) + trail
      + if more.NoMembers? then [CLOSE_OBJECT] else [COMMA] + MembersText(more)
  }

  function ValueOf(d: Doc): Value {
    match d
    case DNull => JNull
    case DBool(b) => JBool(b)
    case DNumber(n) => JNumber(Number.Decimal(false, n, [], 0))
    case DString(bytes) => JString(bytes)
    case DArray(items) => JArray(ItemValues(items))
    case DObject(members) => JObject(MemberValues(members))
  }

  function ItemValues(items: Items): seq<Value> {
    match items
    case NoItems(_) => []
    case Item(_, value, _, more) => [ValueOf(value)] + ItemValues(more)
  }

  function MemberValues(members: Members): seq<(Bytes, Value)> {
    match members
    case NoMembers(_) => []
    case Member(_, key, _, value, _, more) => [(key, ValueOf(value))] + MemberValues(more)
  }

  predicate AllSpace(s: Bytes) {
    forall i :: 0 <= i < |s| ==> IsSpace(s[i])
  }

  /** Only whitespace surrounds the parts. */
  predicate LaidOut(d: Doc) {
    match d
    case DArray(items) => ItemsLaidOut(items)
    case DObject(members) => MembersLaidOut(members)
    case _ => true
  }

  predicate ItemsLaidOut(items: Items) {
    match items
    case NoItems(pad) => AllSpace(pad)
    case Item(lead, value, trail, more) => AllSpace(lead) && AllSpace(trail) && LaidOut(value) && ItemsLaidOut(more)
  }

  predicate MembersLaidOut(members: Members) {
    match members
    case NoMembers(pad) => AllSpace(pad)
    case Member(lead, _, gap, value, trail, more) =>
      AllSpace(lead) && AllSpace(gap) && AllSpace(trail) && LaidOut(value) && MembersLaidOut(more)
  }

  // ---- Whitespace ----

  lemma {:induction false} SkipSpaceOver(ws: Bytes, s: Bytes)
    requires AllSpace(ws) && (s != [] ==> !IsSpace(s[0]))
    ensures SkipSpace(ws + s) == s
  {
    if ws == [] {
      assert ws + s == s;
    } else {
      assert (ws + s)[0] == ws[0] && (ws + s)[1..] == ws[1..] + s;
      SkipSpaceOver(ws[1..], s);
    }
  }

  // ---- Numbers ----

  /** What may follow a number without becoming part of it. */
  predicate NumberEnds(s: Bytes) {
    s == [] || (!IsDigit(s[0]) && s[0] != 46 && s[0] != 101 && s[0] != 69)
  }

  predicate AllDigits(s: Bytes) {
    forall i :: 0 <= i < |s| ==> IsDigit(s[i])
  }

  lemma {:induction false} DecimalDigits(n: nat)
    ensures AllDigits(ByteStrings.Decimal(n))
    ensures DigitsValue(ByteStrings.Decimal(n)) == n
    ensures ByteStrings.Decimal(n)[0] == 48 ==> n == 0
    ensures n == 0 ==> |ByteStrings.Decimal(n)| == 1
  {
    var d := ByteStrings.Decimal(n);
    if n < 10 {
      assert d[..0] == [];
      assert DigitsValue(d) == 10 * DigitsValue(d[..0]) + (d[0] - 48);
    } else {
      DecimalDigits(n / 10);
      assert d[..|d| - 1] == ByteStrings.Decimal(n / 10);
    }
  }

  lemma {:induction false} DigitsOver(digits: Bytes, rest: Bytes)
    requires AllDigits(digits) && (rest == [] || !IsDigit(rest[0]))
    ensures Digits(digits + rest) == digits
  {
    if digits == [] {
      assert digits + rest == rest;
    } else {
      assert (digits + rest)[1..] == digits[1..] + rest;
      DigitsOver(digits[1..], rest);
      assert digits == [digits[0]] + digits[1..];
    }
  }

  lemma NumberParses(n: nat, rest: Bytes)
    requires NumberEnds(rest)
    ensures ParseNumber(ByteStrings.Decimal(n) + rest) == Some((Number.Decimal(false, n, [], 0), rest))
  {
    var d := ByteStrings.Decimal(n);
    DecimalDigits(n);
    DigitsOver(d, rest);
    assert (d + rest)[0] == d[0];
    assert (d + rest)[|d|..] == rest;
    hide DigitsValue, Digits;
  }

  // ---- Strings ----

  lemma HexByteDigit(n: nat)
    requires n < 16
    ensures HexDigit(HexByte(n)) == Some(n)
  {
  }

  lemma ControlEscape(b: Byte, rest: Bytes)
    requires b < 0x20
    ensures ParseEscape([117, 48, 48, HexByte(b / 16), HexByte(b % 16)] + rest) == Some(([b], rest))
  {
    var s := [117, 48, 48, HexByte(b / 16), HexByte(b % 16)] + rest;
    HexByteDigit(b / 16);
    HexByteDigit(b % 16);
    assert s[1..][0] == 48 && s[1..][1] == 48 && s[1..][2] == HexByte(b / 16) && s[1..][3] == HexByte(b % 16);
    assert 16 * (b / 16) + b % 16 == b;
    assert Hex4(s[1..]) == Some(b);
    assert s[5..] == rest;
  }

  /** Reading one escaped byte gives the byte. */
  lemma EscapedByteParses(b: Byte, rest: Bytes)
    ensures var s := EscapeByte(b) + rest;
            && s != [] && s[0] >= 0x20 && s[0] != QUOTE
            && (if s[0] == BACKSLASH then ParseEscape(s[1..]) else Some(([s[0]], s[1..]))) == Some(([b], rest))
  {
    var s := EscapeByte(b) + rest;
    if |EscapeByte(b)| == 6 {
      ControlEscape(b, rest);
      assert s[1..] == [117, 48, 48, HexByte(b / 16), HexByte(b % 16)] + rest;
    } else if |EscapeByte(b)| == 2 {
      assert s[1..][0] == EscapeByte(b)[1] && s[1..][1..] == rest;
    } else {
      assert s[1..] == rest;
    }
  }

  lemma {:induction false} CharsParse(bytes: Bytes, rest: Bytes)
    ensures ParseChars(Escape(bytes) + [QUOTE] + rest) == Some((bytes, rest))
  {
    if bytes == [] {
      assert Escape(bytes) + [QUOTE] + rest == [QUOTE] + rest;
      assert ([QUOTE] + rest)[1..] == rest;
    } else {
      var tail := Escape(bytes[1..]) + [QUOTE] + rest;
      assert Escape(bytes) + [QUOTE] + rest == EscapeByte(bytes[0]) + tail;
      EscapedByteParses(bytes[0], tail);
      CharsParse(bytes[1..], rest);
      hide EscapeByte, ParseEscape, Escape;
      assert [bytes[0]] + bytes[1..] == bytes;
    }
  }

  lemma StringParses(bytes: Bytes, rest: Bytes)
    ensures ParseString(Quoted(bytes) + rest) == Some((bytes, rest))
  {
    CharsParse(bytes, rest);
    assert (Quoted(bytes) + rest)[1..] == Escape(bytes) + [QUOTE] + rest;
  }

  // ---- Values ----

  /** A value starts with a byte that is neither whitespace nor a closing bracket. */
  lemma TextStart(d: Doc)
    ensures DocText(d) != [] && !IsSpace(DocText(d)[0]) && DocText(d)[0] != CLOSE_ARRAY && DocText(d)[0] != CLOSE_OBJECT
  {
    if d.DNumber? {
      DecimalDigits(d.n);
    }
  }

  lemma LiteralParses(word: Bytes, v: Value, rest: Bytes)
    requires word != []
    ensures ParseLiteral(word + rest, word, v) == Some((v, rest))
  {
    assert (word + rest)[|word|..] == rest;
  }

  /** Texts without nested values. */
  lemma AtomParses(d: Doc, rest: Bytes)
    requires !d.DArray? && !d.DObject?
    requires d.DNumber? ==> NumberEnds(rest)
    ensures ParseValue(DocText(d) + rest) == Some((ValueOf(d), rest))
  {
    var s := DocText(d) + rest;
    TextStart(d);
    assert s[0] == DocText(d)[0];
    match d
    case DNull => LiteralParses(NULL, JNull, rest);
    case DBool(b) => LiteralParses(if b then TRUE else FALSE, JBool(b), rest);
    case DNumber(n) =>
      DecimalDigits(n);
      NumberParses(n, rest);
      hide ParseNumber, DigitsValue;
    case DString(bytes) => StringParses(bytes, rest);
  }

  /** What follows a value inside an array or an object: whitespace, then a comma or the closing bracket. */
  lemma TrailEnds(trail: Bytes, next: Bytes)
    requires AllSpace(trail) && next != [] && (next[0] == COMMA || next[0] == CLOSE_ARRAY || next[0] == CLOSE_OBJECT)
    ensures NumberEnds(trail + next)
    ensures SkipSpace(trail + next) == next
  {
    SkipSpaceOver(trail, next);
    assert (trail + next)[0] == if trail == [] then next[0] else trail[0];
  }

  lemma {:induction false} ValueParses(d: Doc, rest: Bytes)
    requires LaidOut(d) && (d.DNumber? ==> NumberEnds(rest))
    ensures ParseValue(DocText(d) + rest) == Some((ValueOf(d), rest))
    decreases d, 0
  {
    match d
    case DArray(items) =>
      if items.Item? {
        ItemsParse(items, rest);
      }
      ArrayParses(items, rest);
    case DObject(members) =>
      if members.Member? {
        MembersParse(members, rest);
      }
      ObjectParses(members, rest);
    case _ => AtomParses(d, rest);
    hide DocText, ParseValue, ParseItems, ParseMembers, SkipSpace;
  }

  /** The brackets around items that parse. */
  lemma ArrayParses(items: Items, rest: Bytes)
    requires ItemsLaidOut(items)
    requires items.Item? ==>
               var body := SkipSpace(ItemsText(items) + rest);
               body != [] && body[0] != CLOSE_ARRAY && ParseItems(body) == Some((ItemValues(items), rest))
    ensures ParseValue(DocText(DArray(items)) + rest) == Some((ValueOf(DArray(items)), rest))
  {
    var s := DocText(DArray(items)) + rest;
    assert s[0] == OPEN_ARRAY && s[1..] == ItemsText(items) + rest;
    if items.NoItems? {
      EmptyParses(items.pad, CLOSE_ARRAY, rest);
    }
    hide SkipSpace, ParseItems, ItemsText;
  }

  lemma ObjectParses(members: Members, rest: Bytes)
    requires MembersLaidOut(members)
    requires members.Member? ==>
               var body := SkipSpace(MembersText(members) + rest);
               body != [] && body[0] != CLOSE_OBJECT && ParseMembers(body) == Some((MemberValues(members), rest))
    ensures ParseValue(DocText(DObject(members)) + rest) == Some((ValueOf(DObject(members)), rest))
  {
    var s := DocText(DObject(members)) + rest;
    assert s[0] == OPEN_OBJECT && s[1..] == MembersText(members) + rest;
    if members.NoMembers? {
      EmptyParses(members.pad, CLOSE_OBJECT, rest);
    }
    hide SkipSpace, ParseMembers, MembersText;
  }

  lemma EmptyParses(pad: Bytes, close: Byte, rest: Bytes)
    requires AllSpace(pad) && !IsSpace(close)
    ensures var body := SkipSpace(pad + [close] + rest);
            body == [close] + rest && body[0] == close && body[1..] == rest
  {
    assert pad + [close] + rest == pad + ([close] + rest);
    SkipSpaceOver(pad, [close] + rest);
  }

  /** The separator and what comes after it. */
  function NextItems(more: Items, rest: Bytes): Bytes {
    (if more.NoItems? then [CLOSE_ARRAY] else [COMMA] + ItemsText(more)) + rest
  }

  function NextMembers(more: Members, rest: Bytes): Bytes {
    (if more.NoMembers? then [CLOSE_OBJECT] else [COMMA] + MembersText(more)) + rest
  }

  lemma ItemsSplit(items: Items, rest: Bytes)
    requires items.Item?
    ensures ItemsText(items) + rest == items.lead + (DocText(items.value) + (items.trail + NextItems(items.more, rest)))
  {
  }

  lemma {:induction false} ItemsParse(items: Items, rest: Bytes)
    requires items.Item? && ItemsLaidOut(items)
    ensures var body := SkipSpace(ItemsText(items) + rest);
            && body != [] && body[0] != CLOSE_ARRAY
            && ParseItems(body) == Some((ItemValues(items), rest))
    decreases items, 1
  {
    var Item(lead, value, trail, more) := items;
    var next := NextItems(more, rest);
    var body := DocText(value) + (trail + next);
    ItemsSplit(items, rest);
    TextStart(value);
    assert body[0] == DocText(value)[0];
    SkipSpaceOver(lead, body);
    TrailEnds(trail, next);
    ValueParses(value, trail + next);
    if more.NoItems? {
      assert next[1..] == rest;
      assert ItemValues(items) == [ValueOf(value)];
    } else {
      assert next[1..] == ItemsText(more) + rest;
      ItemsParse(more, rest);
    }
    hide SkipSpace, ItemsText, DocText, LaidOut;
  }

  lemma MembersSplit(members: Members, rest: Bytes)
    requires members.Member?
    ensures MembersText(members) + rest ==
            members.lead + (Quoted(members.key) + ([COLON] + (members.gap + (DocText(members.value) + (members.trail + NextMembers(members.more, rest))))))
  {
    hide Quoted;
  }

  lemma MembersFold(body: Bytes, first: (Bytes, Value), after: Bytes, next: Bytes, others: seq<(Bytes, Value)>, rest: Bytes)
    requires ParseMember(body) == Some((first, after)) && SkipSpace(after) == next && next != []
    requires (next[0] == CLOSE_OBJECT && next[1..] == rest && others == [])
             || (next[0] == COMMA && ParseMembers(SkipSpace(next[1..])) == Some((others, rest)))
    ensures ParseMembers(body) == Some(([first] + others, rest))
  {
    hide SkipSpace, ParseMember;
    assert others == [] ==> [first] + others == [first];
  }

  lemma MembersBody(members: Members, rest: Bytes)
    requires members.Member? && AllSpace(members.lead)
    ensures SkipSpace(MembersText(members) + rest) ==
            Quoted(members.key) + ([COLON] + (members.gap + (DocText(members.value) + (members.trail + NextMembers(members.more, rest)))))
  {
    hide SkipSpace, Quoted, MembersText, DocText, NextMembers;
    MembersSplit(members, rest);
    QuotedStart(members.key);
    SkipSpaceOver(members.lead, Quoted(members.key) + ([COLON] + (members.gap + (DocText(members.value) + (members.trail + NextMembers(members.more, rest))))));
  }

  lemma {:induction false} MembersParse(members: Members, rest: Bytes)
    requires members.Member? && MembersLaidOut(members)
    ensures var body := SkipSpace(MembersText(members) + rest);
            && body != [] && body[0] != CLOSE_OBJECT
            && ParseMembers(body) == Some((MemberValues(members), rest))
    decreases members, 1
  {
    hide SkipSpace, DocText, MembersText, LaidOut, ParseMember, Quoted, ParseValue, ParseMembers;
    var Member(lead, key, gap, value, trail, more) := members;
    var next := NextMembers(more, rest);
    MembersBody(members, rest);
    QuotedStart(key);
    TrailEnds(trail, next);
    ValueParses(value, trail + next);
    MemberParses(key, gap, value, trail + next);
    if more.Member? {
      assert next[1..] == MembersText(more) + rest;
      MembersParse(more, rest);
    } else {
      assert next[1..] == rest;
    }
    MembersFold(SkipSpace(MembersText(members) + rest), (key, ValueOf(value)), trail + next, next, MemberValues(more), rest);
  }

  lemma QuotedStart(key: Bytes)
    ensures Quoted(key) != [] && Quoted(key)[0] == QUOTE
  {
  }

  lemma MemberParses(key: Bytes, gap: Bytes, value: Doc, rest: Bytes)
    requires AllSpace(gap)
    requires ParseValue(DocText(value) + rest) == Some((ValueOf(value), rest))
    ensures ParseMember(Quoted(key) + ([COLON] + (gap + (DocText(value) + rest)))) == Some(((key, ValueOf(value)), rest))
  {
    var tail := gap + (DocText(value) + rest);
    StringParses(key, [COLON] + tail);
    SkipSpaceOver([], [COLON] + tail);
    assert [] + ([COLON] + tail) == [COLON] + tail;
    assert ([COLON] + tail)[1..] == tail;
    TextStart(value);
    assert (DocText(value) + rest)[0] == DocText(value)[0];
    SkipSpaceOver(gap, DocText(value) + rest);
    hide SkipSpace, DocText, Quoted, ParseString, ParseValue;
  }

  /** Every layout of a value reads back as that value. */
  lemma DocumentParses(d: Doc, lead: Bytes, trail: Bytes)
    requires LaidOut(d) && AllSpace(lead) && AllSpace(trail)
    ensures Parse(lead + DocText(d) + trail) == Some(ValueOf(d))
  {
    assert lead + DocText(d) + trail == lead + (DocText(d) + trail);
    TextStart(d);
    assert (DocText(d) + trail)[0] == DocText(d)[0];
    SkipSpaceOver(lead, DocText(d) + trail);
    SkipSpaceOver(trail, []);
    assert trail + [] == trail;
    ValueParses(d, trail);
  }
}
